/**
 * `build_stats_summary`: the per-SKU statistics the dashboard shows. Counts
 * and percentages of the sentiment names, the star-rating distribution, a
 * random sample of clean texts per sentiment, monthly sentiment counts and
 * the ten most common bigrams per sentiment. `random.sample` is a parameter:
 * the positions it picks.
 */
module StatsBuild {
  import opened Wrappers
  import opened Text
  import opened Sentiments
  import opened Assoc
  import opened Py
  import opened Reviews
  import opened KeywordExtract

  // ---------------------------------------------------------------------------
  // Sentiment counts and percentages

  /** The name each review's label is counted under, in review order. */
  function SentimentStrs(reviews: seq<Review>): (r: seq<string>)
    ensures |r| == |reviews| && forall i :: 0 <= i < |reviews| ==> r[i] == LabelName(reviews[i].sentiment)
  {
    seq(|reviews|, i requires 0 <= i < |reviews| => LabelName(reviews[i].sentiment))
  }

  /** `dict(Counter(sentiment_strs))`. */
  function SentimentCounts(reviews: seq<Review>): Dict<string, nat> {
    Tally(SentimentStrs(reviews))
  }

  /**
   * Every name some review is counted under appears once, with the number of
   * reviews counted under it, and the counts add up to the number of reviews.
   */
  lemma SentimentCountsSpec(reviews: seq<Review>, name: string)
    ensures DistinctKeys(SentimentCounts(reviews))
    ensures Get(SentimentCounts(reviews), name) ==
      if name in SentimentStrs(reviews) then Some(multiset(SentimentStrs(reviews))[name]) else None
    ensures Total(SentimentCounts(reviews)) == |reviews|
  {
    TallyDistinct(SentimentStrs(reviews));
    TallyCounts(SentimentStrs(reviews), name);
    TallyTotal(SentimentStrs(reviews));
  }

  /** `{k: 100 * v / total for k, v in sentiment_counts.items()}`, with `total` the sum of the counts. */
  function SentimentPercentages(reviews: seq<Review>): (r: Dict<string, real>)
    ensures Keys(r) == Keys(SentimentCounts(reviews))
  {
    var counts := SentimentCounts(reviews);
    TallyTotal(SentimentStrs(reviews));
    Percentages(counts, Total(counts))
  }

  /**
   * Each name's percentage is its share of all reviews, and for any review
   * at all the percentages add up to 100.
   */
  lemma SentimentPercentagesSpec(reviews: seq<Review>, name: string)
    ensures name in SentimentStrs(reviews) ==>
      Get(SentimentPercentages(reviews), name) == Some(Share(multiset(SentimentStrs(reviews))[name], |reviews|))
    ensures name !in SentimentStrs(reviews) ==> Get(SentimentPercentages(reviews), name) == None
    ensures reviews != [] ==> RealTotal(SentimentPercentages(reviews)) == 100.0
  {
    var counts := SentimentCounts(reviews);
    TallyTotal(SentimentStrs(reviews));
    TallyCounts(SentimentStrs(reviews), name);
    PercentagesGet(counts, Total(counts), name);
    if reviews != [] {
      PercentagesSumTo100(counts);
    }
  }

  // ---------------------------------------------------------------------------
  // Star rating distribution

  /** Which reviews have a rating. */
  function Rated(reviews: seq<Review>): (f: seq<bool>)
    ensures |f| == |reviews| && forall i :: 0 <= i < |reviews| ==> (f[i] <==> reviews[i].raw.rating != NoRating)
  {
    seq(|reviews|, i requires 0 <= i < |reviews| => reviews[i].raw.rating != NoRating)
  }

  /** `str(product_rating)` of each review, "" where there is none. */
  function RatingTexts(reviews: seq<Review>): (t: seq<string>)
    ensures |t| == |reviews|
    ensures forall i :: 0 <= i < |reviews| && reviews[i].raw.rating != NoRating ==> t[i] == RatingStr(reviews[i].raw.rating)
  {
    seq(|reviews|, i requires 0 <= i < |reviews| =>
      if reviews[i].raw.rating == NoRating then "" else RatingStr(reviews[i].raw.rating))
  }

  /** `[str(r.get('product_rating')) for r in reviews if r.get('product_rating') is not None]`. */
  function StarRatings(reviews: seq<Review>): seq<string> {
    Select(RatingTexts(reviews), Rated(reviews))
  }

  function StarDistribution(reviews: seq<Review>): Dict<string, nat> {
    Tally(StarRatings(reviews))
  }

  /**
   * The distribution counts exactly the rated reviews: its keys are the
   * rating strings of rated reviews, each rated review's string is a key, and
   * the counts add up to the number of rated reviews.
   */
  lemma StarDistributionSpec(reviews: seq<Review>)
    ensures Total(StarDistribution(reviews)) == |Positions(Rated(reviews))|
    ensures forall i :: 0 <= i < |reviews| && reviews[i].raw.rating != NoRating ==>
      RatingStr(reviews[i].raw.rating) in Keys(StarDistribution(reviews))
    ensures forall k :: k in Keys(StarDistribution(reviews)) ==>
      exists i :: 0 <= i < |reviews| && reviews[i].raw.rating != NoRating && RatingStr(reviews[i].raw.rating) == k
  {
    var texts, rated := RatingTexts(reviews), Rated(reviews);
    SelectTally(texts, rated);
    forall k | k in Keys(StarDistribution(reviews))
      ensures exists i :: 0 <= i < |reviews| && reviews[i].raw.rating != NoRating && RatingStr(reviews[i].raw.rating) == k
    {
      var i :| 0 <= i < |texts| && rated[i] && texts[i] == k;
      assert RatingStr(reviews[i].raw.rating) == k;
    }
  }

  // ---------------------------------------------------------------------------
  // Sample reviews

  /** The review is counted under `s` and has a truthy `clean`. */
  predicate InPool(r: Review, s: Sentiment) {
    LabelName(r.sentiment) == Name(s) && HasClean(r)
  }

  function PoolMarks(reviews: seq<Review>, s: Sentiment): (m: seq<bool>)
    ensures |m| == |reviews| && forall i :: 0 <= i < |reviews| ==> (m[i] <==> InPool(reviews[i], s))
  {
    seq(|reviews|, i requires 0 <= i < |reviews| => InPool(reviews[i], s))
  }

  /** `[r.get('clean') for r in reviews if <counted under s> and r.get('clean')]`. */
  function Pool(reviews: seq<Review>, s: Sentiment): seq<string> {
    Select(Texts(reviews), PoolMarks(reviews, s))
  }

  /** The pool of `s` holds, in review order, the non-empty clean text of every review counted under `s`. */
  lemma PoolSpec(reviews: seq<Review>, s: Sentiment)
    ensures |Pool(reviews, s)| == |Positions(PoolMarks(reviews, s))|
    ensures forall j :: 0 <= j < |Pool(reviews, s)| ==>
      var i := Positions(PoolMarks(reviews, s))[j];
      LabelName(reviews[i].sentiment) == Name(s) && reviews[i].clean == Some(Pool(reviews, s)[j]) && Pool(reviews, s)[j] != []
  {
    SelectAtPositions(Texts(reviews), PoolMarks(reviews, s));
  }

  /** `idx` could be what `random.sample(range(n), k)` returns: `k` distinct positions below `n`. */
  ghost predicate ValidDraw(idx: seq<nat>, n: nat, k: nat) {
    |idx| == k
    && (forall j :: 0 <= j < k ==> idx[j] < n)
    && (forall j, j' :: 0 <= j < j' < k ==> idx[j] != idx[j'])
  }

  /** The positions `random.sample` picks for sentiment `s` from a pool of `n` texts when asked for `k`. */
  type Sampler = (Sentiment, nat, nat) -> seq<nat>

  ghost predicate ValidSampler(draw: Sampler) {
    forall s, n: nat, k: nat :: k <= n ==> ValidDraw(draw(s, n, k), n, k)
  }

  /**
   * One sentiment's sample: `[]` for an empty pool, otherwise
   * `random.sample(pool, min(n_samples, len(pool)))`, which raises
   * ValueError when the count is negative.
   */
  function Sample(pool: seq<string>, nSamples: int, idx: seq<nat>): (r: Result<seq<string>, PyError>)
    requires pool != [] && nSamples >= 0 ==> ValidDraw(idx, |pool|, Min(nSamples, |pool|))
    ensures r.Success? <==> pool == [] || nSamples >= 0
    ensures r.Success? ==> |r.value| == (if pool == [] then 0 else Min(nSamples, |pool|))
    ensures r.Success? ==> forall j :: 0 <= j < |r.value| ==> r.value[j] == pool[idx[j]]
    ensures r.Success? ==> forall j, j' :: 0 <= j < j' < |r.value| ==> idx[j] != idx[j']
  {
    if pool == [] then Success([])
    else if nSamples < 0 then Failure(ValueError("Sample larger than population or is negative"))
    else Success(seq(|idx|, j requires 0 <= j < |idx| => pool[idx[j]]))
  }

  function SampleOf(reviews: seq<Review>, s: Sentiment, nSamples: int, draw: Sampler): Result<seq<string>, PyError>
    requires ValidSampler(draw)
  {
    var pool := Pool(reviews, s);
    Sample(pool, nSamples, draw(s, |pool|, Min(Max(nSamples, 0), |pool|)))
  }

  /**
   * `sample_reviews`: positive, neutral and negative are sampled in turn, and
   * the first sentiment whose sample raises ends the call. It fails exactly
   * when the count is negative and some pool is non-empty.
   */
  function SampleReviews(reviews: seq<Review>, nSamples: int, draw: Sampler): (r: Result<PerSentiment<seq<string>>, PyError>)
    requires ValidSampler(draw)
    ensures r.Failure? <==>
      (nSamples < 0 && (Pool(reviews, Positive) != [] || Pool(reviews, Neutral) != [] || Pool(reviews, Negative) != []))
    ensures r.Success? ==> SampleOf(reviews, Positive, nSamples, draw) == Success(r.value.positive)
    ensures r.Success? ==> SampleOf(reviews, Neutral, nSamples, draw) == Success(r.value.neutral)
    ensures r.Success? ==> SampleOf(reviews, Negative, nSamples, draw) == Success(r.value.negative)
  {
    var p := SampleOf(reviews, Positive, nSamples, draw);
    var u := SampleOf(reviews, Neutral, nSamples, draw);
    var n := SampleOf(reviews, Negative, nSamples, draw);
    if p.Failure? then Failure(p.error)
    else if u.Failure? then Failure(u.error)
    else if n.Failure? then Failure(n.error)
    else Success(PerSentiment(p.value, u.value, n.value))
  }

  // ---------------------------------------------------------------------------
  // Time trends

  predicate IsDigit(c: char) { '0' <= c <= '9' }

  predicate AllDigits(s: string) { forall i :: 0 <= i < |s| ==> IsDigit(s[i]) }

  /** The value of a string of decimal digits. */
  function Number(s: string): nat
    requires AllDigits(s)
  {
    if s == [] then 0 else 10 * Number(s[..|s| - 1]) + (s[|s| - 1] as int - '0' as int)
  }

  predicate IsLeapYear(y: nat) { y % 4 == 0 && (y % 100 != 0 || y % 400 == 0) }

  function DaysInMonth(y: nat, m: nat): nat
    requires 1 <= m <= 12
  {
    if m == 2 then (if IsLeapYear(y) then 29 else 28)
    else if m == 4 || m == 6 || m == 9 || m == 11 then 30
    else 31
  }

  /** Two digits whose value is at most `max`: an hour, a minute or a second. */
  predicate TwoDigitsUpTo(t: string, max: nat) {
    |t| == 2 && AllDigits(t) && Number(t) <= max
  }

  /** `[.fff|.ffffff]`: nothing, or a point followed by three or six digits. */
  predicate IsoFraction(t: string) {
    t == [] || (t[0] == '.' && (|t| == 4 || |t| == 7) && AllDigits(t[1..]))
  }

  /**
   * `HH[:MM[:SS]]`, optionally followed by `.fff` or `.ffffff`, with hour at
   * most 23 and minute and second at most 59. The C parser of `fromisoformat`
   * stops reading components at the first point, so a fraction may follow
   * the hour or the minute as well as the second.
   */
  predicate IsoClock(t: string) {
    |t| >= 2 && TwoDigitsUpTo(t[..2], 23) &&
    (IsoFraction(t[2..]) ||
     (|t| >= 5 && t[2] == ':' && TwoDigitsUpTo(t[3..5], 59) &&
      (IsoFraction(t[5..]) ||
       (|t| >= 8 && t[5] == ':' && TwoDigitsUpTo(t[6..8], 59) && IsoFraction(t[8..])))))
  }

  /** `[+HH:MM|-HH:MM]`: no offset, or a signed offset below a day. */
  predicate IsoOffset(t: string) {
    t == [] ||
    (|t| == 6 && (t[0] == '+' || t[0] == '-') && TwoDigitsUpTo(t[1..3], 23) && t[3] == ':' && TwoDigitsUpTo(t[4..6], 59))
  }

  /** The position of the first sign in `t`, or `|t|` when it has none. */
  function SignAt(t: string): (k: nat)
    ensures k <= |t|
    ensures forall i :: 0 <= i < k ==> t[i] != '+' && t[i] != '-'
    ensures k < |t| ==> t[k] == '+' || t[k] == '-'
  {
    if t == [] || t[0] == '+' || t[0] == '-' then 0 else 1 + SignAt(t[1..])
  }

  /** The first sign is at `k` when none comes before it and one (or the end) is there. */
  lemma {:induction false} SignAtIs(t: string, k: nat)
    requires k <= |t| && (k < |t| ==> t[k] == '+' || t[k] == '-')
    requires forall i :: 0 <= i < k ==> t[i] != '+' && t[i] != '-'
    ensures SignAt(t) == k
    decreases k
  {
    if k > 0 {
      SignAtIs(t[1..], k - 1);
    }
  }

  /** The time after the separator: a clock, then an optional offset starting at the first sign. */
  predicate IsoTime(t: string) {
    var k := SignAt(t);
    IsoClock(t[..k]) && IsoOffset(t[k..])
  }

  /** `YYYY-MM-DD` at the start of `s`, a valid calendar date from year 1. */
  predicate IsoDate(s: string) {
    |s| >= 10 && AllDigits(s[..4]) && s[4] == '-' && AllDigits(s[5..7]) && s[7] == '-' && AllDigits(s[8..10]) &&
    1 <= Number(s[..4]) && 1 <= Number(s[5..7]) <= 12 && 1 <= Number(s[8..10]) <= DaysInMonth(Number(s[..4]), Number(s[5..7]))
  }

  /**
   * The year and month `datetime.fromisoformat` reads from `s`: a valid
   * calendar date `YYYY-MM-DD`, alone or followed by one separator character
   * and a valid time with an optional `+HH:MM`/`-HH:MM` offset. Anything else
   * is None, where `fromisoformat` raises ValueError (or, for an offset with
   * seconds and the forms only later versions accept, parses).
   */
  function IsoYearMonth(s: string): (r: Option<(nat, nat)>)
    ensures r.Some? ==> |s| >= 10 && AllDigits(s[..4]) && s[4] == '-' && AllDigits(s[5..7]) && s[7] == '-'
    ensures r.Some? ==> r.value == (Number(s[..4]), Number(s[5..7])) && 1 <= r.value.0 && 1 <= r.value.1 <= 12
    ensures r.Some? ==> |s| == 10 || (|s| >= 13 && AllDigits(s[11..13]) && Number(s[11..13]) <= 23)
    ensures r.None? ==> !IsoDate(s) || (|s| != 10 && !IsoTime(s[11..]))
  {
    if IsoDate(s) && (|s| == 10 || (|s| > 10 && IsoTime(s[11..]))) then
      if |s| == 10 then Some((Number(s[..4]), Number(s[5..7])))
      else
        IsoTimeHour(s[11..]);
        assert s[11..][..2] == s[11..13];
        Some((Number(s[..4]), Number(s[5..7])))
    else None
  }

  /** A valid time starts with a valid hour. */
  lemma IsoTimeHour(t: string)
    requires IsoTime(t)
    ensures |t| >= 2 && TwoDigitsUpTo(t[..2], 23)
  {
    var k := SignAt(t);
    assert t[..k][..2] == t[..2];
  }

  /** The value of two and of four digits, place by place. */
  lemma NumberOfTwo(t: string)
    requires |t| == 2 && AllDigits(t)
    ensures Number(t) == 10 * (t[0] as int - '0' as int) + (t[1] as int - '0' as int)
  {
    var a := t[..1];
    assert a[..0] == [] && a[0] == t[0];
    assert Number(a[..0]) == 0;
    assert Number(a) == t[0] as int - '0' as int;
    assert t[..|t| - 1] == a;
  }

  lemma NumberOfFour(t: string)
    requires |t| == 4 && AllDigits(t)
    ensures Number(t) == 1000 * (t[0] as int - '0' as int) + 100 * (t[1] as int - '0' as int)
                         + 10 * (t[2] as int - '0' as int) + (t[3] as int - '0' as int)
  {
    var a := t[..3];
    var b := a[..2];
    NumberOfTwo(b);
    assert a[..2] == b && b[0] == t[0] && b[1] == t[1] && a[2] == t[2];
  }

  /** The date `2024-01-15` is read. */
  lemma IsoDateRead()
    ensures IsoYearMonth("2024-01-15") == Some((2024, 1))
  {
    var s := "2024-01-15";
    assert s[..4] == "2024" && s[5..7] == "01" && s[8..10] == "15";
    NumberOfFour("2024"); NumberOfTwo("01"); NumberOfTwo("15");
    assert IsoDate(s);
  }

  /** Whether a text starts with a date depends on its first ten characters only. */
  lemma IsoDateOfPrefix(s: string)
    requires |s| >= 10
    ensures IsoDate(s) <==> IsoDate(s[..10])
  {
    var p := s[..10];
    assert p[..4] == s[..4] && p[5..7] == s[5..7] && p[8..10] == s[8..10];
  }

  lemma LeapDay()
    ensures IsoDate("2024-02-29")
  {
    var s := "2024-02-29";
    assert s[..4] == "2024" && s[5..7] == "02" && s[8..10] == "29";
    NumberOfFour("2024"); NumberOfTwo("02"); NumberOfTwo("29");
  }

  lemma ClockWithFraction()
    ensures IsoClock("23:59:59.123")
  {
    var c := "23:59:59.123";
    assert c[..2] == "23" && c[3..5] == "59" && c[6..8] == "59" && c[8..] == ".123";
    NumberOfTwo("23"); NumberOfTwo("59");
  }

  lemma PlusOffset()
    ensures IsoOffset("+05:30")
  {
    var o := "+05:30";
    assert o[1..3] == "05" && o[4..6] == "30";
    NumberOfTwo("05"); NumberOfTwo("30");
  }

  /** A clock followed by an offset is a time. */
  lemma ClockThenOffset(c: string, o: string)
    requires IsoClock(c) && IsoOffset(o) && o != []
    requires forall i :: 0 <= i < |c| ==> c[i] != '+' && c[i] != '-'
    ensures IsoTime(c + o)
  {
    var t := c + o;
    SignAtIs(t, |c|);
    assert t[..|c|] == c && t[|c|..] == o;
  }

  /** A valid date, any separator and a valid time read as the date's year and month. */
  lemma DateTimeRead(d: string, sep: char, t: string)
    requires |d| == 10 && IsoDate(d) && IsoTime(t)
    ensures IsoYearMonth(d + [sep] + t) == Some((Number(d[..4]), Number(d[5..7])))
  {
    var s := d + [sep] + t;
    assert s[..10] == d;
    IsoDateOfPrefix(s);
    IsoTimeHour(t);
    assert s[11..] == t;
    assert s[..4] == d[..4] && s[5..7] == d[5..7];
  }

  /** A leap day with a time, fraction and offset is read. */
  lemma IsoDateTimeRead()
    ensures IsoYearMonth("2024-02-29" + " " + "23:59:59.123" + "+05:30") == Some((2024, 2))
  {
    var d, c, o := "2024-02-29", "23:59:59.123", "+05:30";
    LeapDay();
    ClockAndOffset();
    DateTimeRead(d, ' ', c + o);
    LeapDayYearMonth();
    assert d + " " + c + o == d + [' '] + (c + o);
  }

  lemma ClockAndOffset()
    ensures IsoTime("23:59:59.123" + "+05:30")
  {
    ClockWithFraction();
    PlusOffset();
    ClockThenOffset("23:59:59.123", "+05:30");
  }

  lemma LeapDayYearMonth()
    ensures Number("2024-02-29"[..4]) == 2024 && Number("2024-02-29"[5..7]) == 2
  {
    var d := "2024-02-29";
    assert d[..4] == "2024" && d[5..7] == "02";
    NumberOfFour("2024"); NumberOfTwo("02");
  }

  lemma HourWithFraction()
    ensures IsoTime("10.123")
  {
    var h := "10.123";
    assert h[..2] == "10" && h[2..] == ".123";
    NumberOfTwo("10");
    SignAtIs(h, |h|);
    assert h[..|h|] == h && h[|h|..] == [];
  }

  lemma FractionOfThree()
    ensures IsoFraction(".123")
  {
    var f := ".123";
    assert f[1..] == "123";
  }

  lemma MinuteClock()
    ensures IsoClock("10:30.123")
  {
    var m := "10:30.123";
    assert m[..2] == "10" && m[3..5] == "30" && m[5..] == ".123" && m[2] == ':';
    NumberOfTwo("10"); NumberOfTwo("30");
    FractionOfThree();
    assert TwoDigitsUpTo(m[..2], 23) && TwoDigitsUpTo(m[3..5], 59) && IsoFraction(m[5..]);
  }

  lemma MinuteWithFraction()
    ensures IsoTime("10:30.123")
  {
    var m := "10:30.123";
    MinuteClock();
    SignAtIs(m, |m|);
    assert m[..|m|] == m && m[|m|..] == [];
  }

  lemma JanuaryYearMonth()
    ensures IsoDate("2024-01-15")
    ensures Number("2024-01-15"[..4]) == 2024 && Number("2024-01-15"[5..7]) == 1
  {
    var d := "2024-01-15";
    assert d[..4] == "2024" && d[5..7] == "01" && d[8..10] == "15";
    NumberOfFour("2024"); NumberOfTwo("01"); NumberOfTwo("15");
  }

  /** A fraction straight after the hour is read. */
  lemma IsoFractionAfterHourRead()
    ensures IsoYearMonth("2024-01-15" + "T" + "10.123") == Some((2024, 1))
  {
    var d, t := "2024-01-15", "10.123";
    HourWithFraction();
    JanuaryYearMonth();
    DateTimeRead(d, 'T', t);
    assert d + "T" + t == d + ['T'] + t;
  }



  /** A fraction straight after the minute is read. */
  lemma IsoFractionAfterMinuteRead()
    ensures IsoYearMonth("2024-01-15" + "T" + "10:30.123") == Some((2024, 1))
  {
    var d, t := "2024-01-15", "10:30.123";
    MinuteWithFraction();
    JanuaryYearMonth();
    DateTimeRead(d, 'T', t);
    assert d + "T" + t == d + ['T'] + t;
  }



  /** A date followed by an impossible time is not read. */
  lemma IsoBadTimeRejected()
    ensures IsoYearMonth("2024-01-15T99:99") == None
  {
    var t := "2024-01-15T99:99"[11..];
    assert t == "99:99";
    SignAtIs(t, 5);
    assert t[..5][..2] == "99";
    NumberOfTwo("99");
  }

  /** A date followed by text that is not a time is not read. */
  lemma IsoTrailingTextRejected()
    ensures IsoYearMonth("2024-01-15xyz") == None
  {
    var t := "2024-01-15xyz"[11..];
    assert t == "yz";
    SignAtIs(t, 2);
    assert !IsDigit(t[..2][0]);
  }

  /** The 29th of February of a common year is not a date. */
  lemma IsoImpossibleDateRejected()
    ensures IsoYearMonth("2023-02-29") == None
  {
    var s := "2023-02-29";
    assert s[..4] == "2023" && s[5..7] == "02" && s[8..10] == "29";
    NumberOfFour("2023"); NumberOfTwo("02"); NumberOfTwo("29");
  }

  /** `%m`: the month with two digits. */
  function Pad2(m: nat): string {
    if m < 10 then ['0', DigitChar(m)] else NatToString(m)
  }

  /** `strftime('%Y-%m')`, with the year printed without padding as the C library does below 1000. */
  function MonthKey(y: nat, m: nat): string {
    NatToString(y) + "-" + Pad2(m)
  }

  /** The month a `created_date` falls in; None when it is falsy or does not parse. */
  function MonthOf(d: DateValue): Option<string> {
    match d
    case NoDate => None
    case DateText(s) =>
      if s == [] then None
      else (match IsoYearMonth(s)
            case Some(ym) => Some(MonthKey(ym.0, ym.1))
            case None => None)
    case DateTime(y, m, _) => Some(MonthKey(y, m))
  }

  /** The (month, sentiment name) a review adds to the trends, if any. */
  function EventOf(r: Review): Option<(string, string)> {
    var name := LabelName(r.sentiment);
    if name == [] then None
    else match MonthOf(r.raw.createdDate)
      case Some(month) => Some((month, name))
      case None => None
  }

  /** The events of the first `n` reviews, in review order. */
  function EventsUpTo(reviews: seq<Review>, n: nat): (evs: seq<(string, string)>)
    requires n <= |reviews|
    ensures |evs| <= n
  {
    if n == 0 then []
    else EventsUpTo(reviews, n - 1) + (if EventOf(reviews[n - 1]).Some? then [EventOf(reviews[n - 1]).value] else [])
  }

  /** Monthly Counters of sentiment names: `{month: {name: count}}`. */
  type Trends = Dict<string, Dict<string, nat>>

  /** `time_trends[month][name] += 1`. */
  function AddEvent(t: Trends, e: (string, string)): Trends {
    Put(t, e.0, Bump(Get(t, e.0).GetOr([]), e.1))
  }

  function TrendsOf(evs: seq<(string, string)>): Trends {
    if evs == [] then [] else AddEvent(TrendsOf(evs[..|evs| - 1]), evs[|evs| - 1])
  }

  /** The time-trends loop of `build_stats_summary`. */
  method TimeTrends(reviews: seq<Review>) returns (trends: Trends)
    ensures trends == TrendsOf(EventsUpTo(reviews, |reviews|))
  {
    trends := [];
    for i := 0 to |reviews|
      invariant trends == TrendsOf(EventsUpTo(reviews, i))
    {
      var e := EventOf(reviews[i]);
      TrendsStep(reviews, i, e);
      if e.Some? {
        trends := AddEvent(trends, e.value);
      }
    }
  }

  lemma TrendsStep(reviews: seq<Review>, i: nat, e: Option<(string, string)>)
    requires i < |reviews| && e == EventOf(reviews[i])
    ensures e.Some? ==> TrendsOf(EventsUpTo(reviews, i + 1)) == AddEvent(TrendsOf(EventsUpTo(reviews, i)), e.value)
    ensures e.None? ==> TrendsOf(EventsUpTo(reviews, i + 1)) == TrendsOf(EventsUpTo(reviews, i))
  {
    var evs := EventsUpTo(reviews, i);
    if e.Some? {
      assert EventsUpTo(reviews, i + 1) == evs + [e.value];
      TrendsSnoc(evs, e.value);
    } else {
      assert EventsUpTo(reviews, i + 1) == evs + [];
      assert evs + [] == evs;
    }
  }

  lemma TrendsSnoc(evs: seq<(string, string)>, e: (string, string))
    ensures TrendsOf(evs + [e]) == AddEvent(TrendsOf(evs), e)
  {
    assert (evs + [e])[..|evs|] == evs;
  }

  /** `time_trends.get(month, {}).get(name, 0)`. */
  function Count(t: Trends, month: string, name: string): nat {
    Get(Get(t, month).GetOr([]), name).GetOr(0)
  }

  /** Each month's count of a name is the number of reviews that fell in that month under that name. */
  lemma {:induction false} TrendsCount(evs: seq<(string, string)>, month: string, name: string)
    ensures Count(TrendsOf(evs), month, name) == multiset(evs)[(month, name)]
    decreases |evs|
  {
    if evs != [] {
      var init, e := evs[..|evs| - 1], evs[|evs| - 1];
      assert evs == init + [e];
      TrendsCount(init, month, name);
      var t := TrendsOf(init);
      assert TrendsOf(evs) == AddEvent(t, e);
      if e.0 == month {
        var c := Get(t, month).GetOr([]);
        assert Get(TrendsOf(evs), month) == Some(Bump(c, e.1));
      }
    }
  }

  /** Every event is counted once: the counts of all months add up to the number of events. */
  lemma {:induction false} TrendsTotal(evs: seq<(string, string)>)
    ensures SumOf(TrendsOf(evs), Total) == |evs|
    decreases |evs|
  {
    if evs != [] {
      var init, e := evs[..|evs| - 1], evs[|evs| - 1];
      TrendsTotal(init);
      var t := TrendsOf(init);
      var c := Get(t, e.0).GetOr([]);
      assert TrendsOf(evs) == Put(t, e.0, Bump(c, e.1));
      SumOfPut(t, e.0, Bump(c, e.1), Total);
      BumpTotal(c, e.1);
      if Get(t, e.0).Some? {
        assert Get(t, e.0).value == c;
      } else {
        assert Total(c) == 0;
      }
    }
  }

  lemma {:induction false} NumberBelow(s: string)
    requires AllDigits(s)
    ensures s != [] ==> Number(s[..|s| - 1]) == Number(s) / 10 && s[|s| - 1] as int - '0' as int == Number(s) % 10
  {
  }

  /** A numeral without a leading zero is what str() prints for its value. */
  lemma {:induction false} NumberPrints(s: string)
    requires s != [] && AllDigits(s) && s[0] != '0'
    ensures Number(s) >= 1 && NatToString(Number(s)) == s
    decreases |s|
  {
    var n := |s| - 1;
    if n == 0 {
      assert Number(s) == s[0] as int - '0' as int;
    } else {
      var init := s[..n];
      assert init[0] == s[0];
      assert AllDigits(init);
      NumberPrints(init);
      NumberBelow(s);
      assert s == init + [s[n]];
    }
  }

  /** For a date from year 1000 on, the month key is the text's own `YYYY-MM` prefix. */
  lemma MonthKeyIsPrefix(s: string)
    requires IsoYearMonth(s).Some? && s[0] != '0'
    ensures MonthOf(DateText(s)) == Some(s[..7])
  {
    var ym := IsoYearMonth(s).value;
    NumberPrints(s[..4]);
    var mm := s[5..7];
    if mm[0] == '0' {
      assert Number(mm) == Number(mm[..1]) * 10 + (mm[1] as int - '0' as int);
      assert Pad2(ym.1) == mm;
    } else {
      NumberPrints(mm);
    }
    assert s[..7] == s[..4] + "-" + mm;
  }

  // ---------------------------------------------------------------------------
  // Common bigrams

  /** `re.findall(r'\w+', text.lower())`. */
  function Tokens(text: string): (ts: seq<string>)
    ensures forall i :: 0 <= i < |ts| ==> IsRun(ts[i], WordChar)
  {
    RunsAreRuns(Lower(text), WordChar);
    Runs(Lower(text), WordChar)
  }

  /** The adjacent pairs of tokens, each joined by one space. */
  function Pairs(ts: seq<string>): (r: seq<string>)
    ensures |r| == Max(0, |ts| - 1)
  {
    if |ts| < 2 then [] else seq(|ts| - 1, i requires 0 <= i < |ts| - 1 => ts[i] + " " + ts[i + 1])
  }

  /** Every bigram of a text splits back into the two adjacent tokens it was made of. */
  lemma BigramSplits(text: string, i: nat)
    requires i + 1 < |Tokens(text)|
    ensures Split(Pairs(Tokens(text))[i]) == [Tokens(text)[i], Tokens(text)[i + 1]]
  {
    var ts := Tokens(text);
    assert Pairs(ts)[i] == ts[i] + " " + ts[i + 1];
    SplitPair(ts[i], ts[i + 1]);
  }

  /** Two word runs joined by a space split back into the two runs. */
  lemma SplitPair(a: string, b: string)
    requires IsRun(a, WordChar) && IsRun(b, WordChar)
    ensures Split(a + " " + b) == [a, b]
  {
    var ws := [a, b];
    assert ws[1..] == [b];
    assert Join(" ", ws) == a + " " + Join(" ", ws[1..]);
    SplitJoin(ws);
  }

  /** `bigrams.extend(...)` over the texts in order. */
  function AllBigrams(texts: seq<string>): seq<string> {
    if texts == [] then [] else AllBigrams(texts[..|texts| - 1]) + Pairs(Tokens(texts[|texts| - 1]))
  }

  /** `get_bigrams`: the ten most common bigrams, most frequent first, ties in first-seen order. */
  function TopBigrams(texts: seq<string>): (r: seq<string>)
    ensures |r| <= 10
  {
    MostCommonSpec(AllBigrams(texts), 10, "");
    Keys(MostCommon(AllBigrams(texts), 10))
  }

  /**
   * The top bigrams are distinct bigrams of the texts in non-increasing
   * order of frequency, and a bigram left out means ten were kept, each at
   * least as frequent.
   */
  lemma TopBigramsSpec(texts: seq<string>, b: string)
    ensures forall j :: 0 <= j < |TopBigrams(texts)| ==> TopBigrams(texts)[j] in AllBigrams(texts)
    ensures forall i, j :: 0 <= i < j < |TopBigrams(texts)| ==> TopBigrams(texts)[i] != TopBigrams(texts)[j]
    ensures forall i, j :: 0 <= i < j < |TopBigrams(texts)| ==>
      multiset(AllBigrams(texts))[TopBigrams(texts)[i]] >= multiset(AllBigrams(texts))[TopBigrams(texts)[j]]
    ensures b in AllBigrams(texts) && b !in TopBigrams(texts) ==>
      |TopBigrams(texts)| == 10 &&
      forall j :: 0 <= j < 10 ==> multiset(AllBigrams(texts))[TopBigrams(texts)[j]] >= multiset(AllBigrams(texts))[b]
  {
    MostCommonKeysSpec(AllBigrams(texts), 10, b);
  }

  function CommonBigrams(reviews: seq<Review>): PerSentiment<seq<string>> {
    PerSentiment(TopBigrams(Pool(reviews, Positive)), TopBigrams(Pool(reviews, Neutral)), TopBigrams(Pool(reviews, Negative)))
  }

  // ---------------------------------------------------------------------------
  // The summary

  /** The dict `build_stats_summary` returns, without the confidence and length statistics. */
  datatype StatsSummary = StatsSummary(
    sentimentCounts: Dict<string, nat>,
    sentimentPercentages: Dict<string, real>,
    starRatingDistribution: Dict<string, nat>,
    topKeywords: PerSentiment<seq<string>>,
    sampleReviews: PerSentiment<seq<string>>,
    keywordMatchedSamples: PerSentiment<Dict<string, seq<string>>>,
    timeTrends: Trends,
    commonBigrams: PerSentiment<seq<string>>)

  /** What `build_stats_summary` returns: the error of its sampling, or every statistic defined above. */
  function SummaryOf(reviews: seq<Review>, topKeywords: PerSentiment<seq<string>>,
                     matched: PerSentiment<Dict<string, seq<string>>>, nSamples: int, draw: Sampler): Result<StatsSummary, PyError>
    requires ValidSampler(draw)
  {
    var samples := SampleReviews(reviews, nSamples, draw);
    if samples.Failure? then Failure(samples.error)
    else Success(StatsSummary(SentimentCounts(reviews), SentimentPercentages(reviews), StarDistribution(reviews), topKeywords,
                              samples.value, matched, TrendsOf(EventsUpTo(reviews, |reviews|)), CommonBigrams(reviews)))
  }

  /**
   * `build_stats_summary`: raises exactly when sampling does; otherwise every
   * statistic is the one defined above, and the keywords and keyword samples
   * are passed through.
   */
  method BuildStatsSummary(reviews: seq<Review>, topKeywords: PerSentiment<seq<string>>,
                           matched: PerSentiment<Dict<string, seq<string>>>, nSamples: int, draw: Sampler)
    returns (r: Result<StatsSummary, PyError>)
    requires ValidSampler(draw)
    ensures r == SummaryOf(reviews, topKeywords, matched, nSamples, draw)
    ensures r.Failure? <==> SampleReviews(reviews, nSamples, draw).Failure?
    ensures r.Failure? ==> r.error == SampleReviews(reviews, nSamples, draw).error
    ensures r.Success? ==> r.value == StatsSummary(
      SentimentCounts(reviews), SentimentPercentages(reviews), StarDistribution(reviews), topKeywords,
      SampleReviews(reviews, nSamples, draw).value, matched, TrendsOf(EventsUpTo(reviews, |reviews|)), CommonBigrams(reviews))
  {
    var counts := SentimentCounts(reviews);
    var percentages := SentimentPercentages(reviews);
    var stars := StarDistribution(reviews);
    var samples := SampleReviews(reviews, nSamples, draw);
    if samples.Failure? {
      return Failure(samples.error);
    }
    var trends := TimeTrends(reviews);
    var bigrams := CommonBigrams(reviews);
    return Success(StatsSummary(counts, percentages, stars, topKeywords, samples.value, matched, trends, bigrams));
  }
}
