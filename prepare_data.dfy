/**
 * The offline script that turns a raw export of reviews into a labelled
 * training set: rows without review text are dropped, the star rating is
 * mapped to a sentiment label, unlabelled rows are dropped, and duplicate
 * (text, label) pairs are removed, keeping the first.
 */
module PrepareData {
  import opened Wrappers
  import opened Text
  import opened Assoc
  import opened Sentiments
  import Reviews
  import RoutesData
  import StatsBuild

  /**
   * One cell of the RATING column as the CSV reader delivers it: missing
   * (NaN), an integer, a float, or text when the column is not numeric.
   */
  datatype Cell = Missing | IntCell(n: int) | RealCell(r: real) | TextCell(s: string)

  /** One input row: REVIEW_TEXT (missing when NaN) and RATING. */
  datatype CsvRow = CsvRow(text: Option<string>, rating: Cell)

  /** One output row: REVIEW_TEXT, RATING and label. */
  datatype TrainRow = TrainRow(text: string, rating: Cell, sentiment: Sentiment)

  // ---------------------------------------------------------------------------
  // int(rating)

  /** `int()` of a float: truncation toward zero. */
  function Truncate(r: real): (n: int)
    ensures r >= 0.0 ==> n as real <= r < n as real + 1.0
    ensures r < 0.0 ==> n as real - 1.0 < r <= n as real
  {
    if r >= 0.0 then r.Floor else -((-r).Floor)
  }

  /** The value of a non-empty string of ASCII digits, or nothing. */
  function Digits(s: string): (r: Option<nat>)
    ensures r.Some? <==> s != [] && StatsBuild.AllDigits(s)
  {
    if s != [] && StatsBuild.AllDigits(s) then Some(StatsBuild.Number(s)) else None
  }

  /** A signed value from its sign and its digits. */
  function Signed(negative: bool, d: Option<nat>): (r: Option<int>)
    ensures r.Some? <==> d.Some?
  {
    match d
    case None => None
    case Some(v) => if negative then Some(0 - v) else Some(v as int)
  }

  /** The sign and digits of a stripped numeral. */
  function Numeral(t: string): Option<int> {
    if t != [] && t[0] == '-' then Signed(true, Digits(t[1..]))
    else if t != [] && t[0] == '+' then Signed(false, Digits(t[1..]))
    else Signed(false, Digits(t))
  }

  /** `int()` of a string: surrounding whitespace, an optional sign, then decimal digits. */
  function ParseInt(s: string): Option<int> {
    Numeral(Strip(s))
  }

  /** `int(rating)`, or nothing where it raises (NaN, or text that is not an integer). */
  function IntOf(c: Cell): Option<int> {
    match c
    case Missing => None
    case IntCell(n) => Some(n)
    case RealCell(r) => Some(Truncate(r))
    case TextCell(s) => ParseInt(s)
  }

  lemma {:induction false} NumberOfDigits(n: nat)
    ensures StatsBuild.AllDigits(NatToString(n)) && StatsBuild.Number(NatToString(n)) == n
  {
    var s := NatToString(n);
    if n >= 10 {
      NumberOfDigits(n / 10);
      assert s[..|s| - 1] == NatToString(n / 10);
    }
  }

  /** A text that neither starts nor ends with whitespace is its own strip(). */
  lemma StripUnpadded(s: string)
    requires s != [] && !IsPySpace(s[0]) && !IsPySpace(s[|s| - 1])
    ensures Strip(s) == s
  {
    assert DropWhile(s, PySpace) == s;
    assert DropWhileEnd(s, PySpace) == s;
  }

  lemma NonNegativeNumeral(n: int)
    requires n >= 0
    ensures ParseInt(IntToString(n)) == Some(n)
  {
    var d := NatToString(n);
    assert IntToString(n) == d;
    StripUnpadded(d);
    NumberOfDigits(n);
    assert Digits(d) == Some(n);
  }

  lemma NegativeStripped(n: int)
    requires n < 0
    ensures Strip(IntToString(n)) == IntToString(n)
  {
    var s := IntToString(n);
    assert s == "-" + NatToString(-n);
    assert s[0] == '-' && '0' <= s[|s| - 1] <= '9';
    StripUnpadded(s);
  }

  lemma NegativeSign(n: int)
    requires n < 0
    ensures Numeral(IntToString(n)) == Signed(true, Digits(NatToString(-n)))
  {
    var s := IntToString(n);
    assert s == "-" + NatToString(-n);
    assert s != [] && s[0] == '-' && s[1..] == NatToString(-n);
  }

  lemma NegativeNumeral(n: int)
    requires n < 0
    ensures ParseInt(IntToString(n)) == Some(n)
  {
    NegativeStripped(n);
    NegativeSign(n);
    NumberOfDigits(-n);
    assert Digits(NatToString(-n)) == Some(-n);
  }

  /** `int(str(n)) == n`: text that prints an integer parses back to it. */
  lemma ParseIntRoundTrip(n: int)
    ensures ParseInt(IntToString(n)) == Some(n)
  {
    if n < 0 {
      NegativeNumeral(n);
    } else {
      NonNegativeNumeral(n);
    }
  }

  // ---------------------------------------------------------------------------
  // map_rating_to_label

  /**
   * The label of a rating cell: up to 2 negative, 3 neutral, 4 and above
   * positive; nothing when `int()` raises.
   */
  function MapRatingToLabel(c: Cell): (l: Option<Sentiment>)
    ensures l.Some? <==> IntOf(c).Some?
    ensures l == Some(Negative) <==> IntOf(c).Some? && IntOf(c).value <= 2
    ensures l == Some(Neutral) <==> IntOf(c).Some? && IntOf(c).value == 3
    ensures l == Some(Positive) <==> IntOf(c).Some? && IntOf(c).value >= 4
  {
    match IntOf(c)
    case None => None
    case Some(r) =>
      if r <= 2 then Some(Negative)
      else if r == 3 then Some(Neutral)
      else Some(Positive)
  }

  /**
   * On the star ratings 1 to 5 the training labels agree with the labels the
   * analysis service gives to rating-only reviews.
   */
  lemma AgreesWithRatingOnlyScoring(n: int)
    requires 1 <= n <= 5
    ensures MapRatingToLabel(IntCell(n)).Some?
    ensures RoutesData.RatingSentiment(Reviews.Whole(n)) == StrLabel(Name(MapRatingToLabel(IntCell(n)).value))
  {
  }

  /** A float rating gets the label of its truncation toward zero. */
  lemma LabelOfFloat(r: real)
    ensures MapRatingToLabel(RealCell(r)) == MapRatingToLabel(IntCell(Truncate(r)))
  {
  }

  /** A text rating that prints an integer gets the label of that integer. */
  lemma LabelOfText(n: int)
    ensures MapRatingToLabel(TextCell(IntToString(n))) == MapRatingToLabel(IntCell(n))
  {
    var text := IntToString(n);
    ParseIntRoundTrip(n);
    SameValueSameLabel(TextCell(text), IntCell(n));
  }

  lemma SameValueSameLabel(c: Cell, d: Cell)
    requires IntOf(c) == IntOf(d)
    ensures MapRatingToLabel(c) == MapRatingToLabel(d)
  {
  }

  // ---------------------------------------------------------------------------
  // The row pipeline

  /** The row survives the text filter: REVIEW_TEXT present and not blank after strip(). */
  predicate HasReviewText(row: CsvRow) {
    row.text.Some? && !IsBlank(row.text.value)
  }

  /** The output row a kept input row becomes, or nothing when it is filtered out. */
  function Labelled(row: CsvRow): (t: Option<TrainRow>)
    ensures t.Some? <==> HasReviewText(row) && MapRatingToLabel(row.rating).Some?
  {
    if HasReviewText(row) then
      match MapRatingToLabel(row.rating)
      case Some(l) => Some(TrainRow(row.text.value, row.rating, l))
      case None => None
    else None
  }

  /** The present results of `f` over `xs`, in order. */
  function FilterMap<A, B>(xs: seq<A>, f: A -> Option<B>): (ys: seq<B>)
    ensures |ys| <= |xs|
  {
    if xs == [] then []
    else
      var n := |xs| - 1;
      FilterMap(xs[..n], f) + (match f(xs[n]) case Some(y) => [y] case None => [])
  }

  lemma {:induction false} FilterMapSpec<A, B>(xs: seq<A>, f: A -> Option<B>)
    ensures forall y :: y in FilterMap(xs, f) <==> exists x :: x in xs && f(x) == Some(y)
    decreases |xs|
  {
    if xs != [] {
      var n := |xs| - 1;
      var init := xs[..n];
      FilterMapSpec(init, f);
      forall y ensures y in FilterMap(xs, f) <==> exists x :: x in xs && f(x) == Some(y) {
        if y in FilterMap(xs, f) {
          if y in FilterMap(init, f) {
            var x :| x in init && f(x) == Some(y);
            assert x in xs;
          } else {
            assert f(xs[n]) == Some(y);
          }
        }
        if x :| x in xs && f(x) == Some(y) {
          if x in init {
            assert y in FilterMap(init, f);
          } else {
            assert x == xs[n];
          }
        }
      }
    }
  }

  /** Where each of the present results came from: the inputs, in order, whose result is present. */
  lemma {:induction false} FilterMapExtracts<A, B>(xs: seq<A>, f: A -> Option<B>) returns (idx: seq<nat>)
    ensures Extracts(xs, FilterMap(xs, f), idx, f)
    decreases |xs|
  {
    if xs == [] {
      idx := [];
    } else {
      var n := |xs| - 1;
      var pre := xs[..n];
      var init := FilterMapExtracts(pre, f);
      var p := FilterMap(pre, f);
      var tail: seq<B> := match f(xs[n]) case Some(y) => [y] case None => [];
      var r := FilterMap(xs, f);
      assert r == p + tail;
      idx := init + (if f(xs[n]).Some? then [n] else []);
      assert |idx| == |r|;
      forall m | 0 <= m < |idx| ensures idx[m] < |xs| && f(xs[idx[m]]) == Some(r[m]) {
        if m < |init| {
          assert pre[init[m]] == xs[init[m]];
          assert r[m] == p[m];
        }
      }
      forall m, m' | 0 <= m < m' < |idx| ensures idx[m] < idx[m'] {
        if m' < |init| {
          assert idx[m] == init[m] && idx[m'] == init[m'];
        }
      }
      forall i | 0 <= i < |xs| && f(xs[i]).Some? ensures i in idx {
        if i < n {
          assert pre[i] == xs[i];
          assert i in init;
        } else {
          assert idx[|init|] == n;
        }
      }
    }
  }

  /** Steps 2 to 4: the text filter, the labelling and the dropping of unlabelled rows, in order. */
  function LabelledRows(rows: seq<CsvRow>): seq<TrainRow> {
    FilterMap(rows, Labelled)
  }

  /** The subset the duplicates are judged on: (REVIEW_TEXT, label). */
  function DedupKey(t: TrainRow): (string, Sentiment) { (t.text, t.sentiment) }

  /** The whole script: the labelled rows without repeated (text, label) pairs, first occurrence kept. */
  function PrepareTrainingData(rows: seq<CsvRow>): seq<TrainRow> {
    DistinctBy(LabelledRows(rows), DedupKey)
  }

  /** Every output row is the labelled form of an input row: non-blank text, label read off its rating. */
  lemma PreparedRowsFromInput(rows: seq<CsvRow>)
    ensures forall t :: t in PrepareTrainingData(rows) ==>
      exists row :: row in rows && Labelled(row) == Some(t)
    ensures forall t :: t in PrepareTrainingData(rows) ==>
      !IsBlank(t.text) && MapRatingToLabel(t.rating) == Some(t.sentiment)
  {
    var ls := LabelledRows(rows);
    FilterMapSpec(rows, Labelled);
    DistinctBySpec(ls, DedupKey);
    forall t | t in PrepareTrainingData(rows)
      ensures (exists row :: row in rows && Labelled(row) == Some(t))
      ensures !IsBlank(t.text) && MapRatingToLabel(t.rating) == Some(t.sentiment)
    {
      assert t in ls;
      var row :| row in rows && Labelled(row) == Some(t);
    }
  }

  /** Every kept input row has its (text, label) pair in the output. */
  lemma PreparedKeepsEveryPair(rows: seq<CsvRow>)
    ensures forall row :: row in rows && Labelled(row).Some? ==>
      exists t :: t in PrepareTrainingData(rows) && DedupKey(t) == DedupKey(Labelled(row).value)
  {
    var ls := LabelledRows(rows);
    var out := PrepareTrainingData(rows);
    FilterMapSpec(rows, Labelled);
    DistinctBySpec(ls, DedupKey);
    forall row | row in rows && Labelled(row).Some?
      ensures exists t :: t in out && DedupKey(t) == DedupKey(Labelled(row).value)
    {
      var t := Labelled(row).value;
      assert t in ls;
      var i :| 0 <= i < |ls| && ls[i] == t;
      var j :| 0 <= j < |out| && DedupKey(out[j]) == DedupKey(ls[i]);
      assert out[j] in out;
    }
  }

  /**
   * `drop_duplicates(keep="first")`: every output row is the labelled form of
   * an input row that no earlier kept row shares its (text, label) pair with,
   * so a repeated pair is written with its first row's rating.
   */
  lemma PrepareKeepsFirstRows(rows: seq<CsvRow>)
    ensures var out := PrepareTrainingData(rows);
      forall j :: 0 <= j < |out| ==>
        exists i :: 0 <= i < |rows| && Labelled(rows[i]) == Some(out[j]) &&
          (forall k :: 0 <= k < i && Labelled(rows[k]).Some? ==> DedupKey(Labelled(rows[k]).value) != DedupKey(out[j]))
  {
    var idx := FilterMapExtracts(rows, Labelled);
    DistinctByFirstInputs(rows, LabelledRows(rows), idx, Labelled, DedupKey);
  }

  /** Output rows appear in the order of the input rows they come from. */
  lemma PrepareKeepsOrder(rows: seq<CsvRow>)
    ensures InInputOrder(rows, PrepareTrainingData(rows), Labelled)
  {
    var idx := FilterMapExtracts(rows, Labelled);
    DistinctByInputOrder(rows, LabelledRows(rows), idx, Labelled, DedupKey);
  }

  /**
   * The output holds exactly the labelled form of a kept input row, with its
   * label read off its rating and its text non-blank; no (text, label) pair
   * repeats; every kept input row has its (text, label) pair in the output;
   * and the row kept for a pair is its first, in input order.
   */
  lemma PrepareSpec(rows: seq<CsvRow>)
    ensures forall t :: t in PrepareTrainingData(rows) ==>
      exists row :: row in rows && Labelled(row) == Some(t)
    ensures forall t :: t in PrepareTrainingData(rows) ==>
      !IsBlank(t.text) && MapRatingToLabel(t.rating) == Some(t.sentiment)
    ensures forall i, j :: 0 <= i < j < |PrepareTrainingData(rows)| ==>
      DedupKey(PrepareTrainingData(rows)[i]) != DedupKey(PrepareTrainingData(rows)[j])
    ensures forall row :: row in rows && Labelled(row).Some? ==>
      exists t :: t in PrepareTrainingData(rows) && DedupKey(t) == DedupKey(Labelled(row).value)
    ensures var out := PrepareTrainingData(rows);
      forall j :: 0 <= j < |out| ==>
        exists i :: 0 <= i < |rows| && Labelled(rows[i]) == Some(out[j]) &&
          (forall k :: 0 <= k < i && Labelled(rows[k]).Some? ==> DedupKey(Labelled(rows[k]).value) != DedupKey(out[j]))
    ensures InInputOrder(rows, PrepareTrainingData(rows), Labelled)
  {
    PreparedRowsFromInput(rows);
    DistinctBySpec(LabelledRows(rows), DedupKey);
    PreparedKeepsEveryPair(rows);
    PrepareKeepsFirstRows(rows);
    PrepareKeepsOrder(rows);
  }
}
