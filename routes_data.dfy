/**
 * The list transformations `run_analysis_async` applies between its
 * collaborator calls: the capped fetch, the split into text and rating-only
 * reviews, attaching the cleaner's output, scattering embeddings and
 * classifications back onto the cleaned reviews, scoring rating-only
 * reviews, and rewriting integer labels.
 */
module RoutesData {
  import opened Wrappers
  import opened Text
  import opened Assoc
  import opened Sentiments
  import opened Py
  import opened Reviews
  import opened KeywordExtract

  // ---------------------------------------------------------------------------
  // Fetching

  /** At most this many reviews are read from the producer. */
  const FetchCap: nat := 15000

  /** The loop over `fetch_reviews(sku)` that stops once 15000 reviews are held. */
  method FetchCapped(producer: seq<RawReview>) returns (reviews: seq<RawReview>)
    ensures reviews == producer[..Min(FetchCap, |producer|)]
  {
    reviews := [];
    for i := 0 to |producer|
      invariant reviews == producer[..i] && i < FetchCap
    {
      reviews := reviews + [producer[i]];
      if |reviews| >= FetchCap {
        return;
      }
    }
  }

  // ---------------------------------------------------------------------------
  // Null, blank and duplicate filter

  /** `customer_review` is present and not blank after `str.strip()`. */
  predicate HasText(r: RawReview) {
    r.text.Some? && !IsBlank(r.text.value)
  }

  function TextKey(r: RawReview): Option<string> { r.text }

  function TextFlags(reviews: seq<RawReview>): (f: seq<bool>)
    ensures |f| == |reviews| && forall i :: 0 <= i < |reviews| ==> f[i] == HasText(reviews[i])
  {
    seq(|reviews|, i requires 0 <= i < |reviews| => HasText(reviews[i]))
  }

  /** A rating-only row: no usable text, but a `product_rating`. */
  predicate IsRatingOnly(r: RawReview) {
    !HasText(r) && r.rating != NoRating
  }

  function RatingOnlyFlags(reviews: seq<RawReview>): (f: seq<bool>)
    ensures |f| == |reviews| && forall i :: 0 <= i < |reviews| ==> f[i] == IsRatingOnly(reviews[i])
  {
    seq(|reviews|, i requires 0 <= i < |reviews| => IsRatingOnly(reviews[i]))
  }

  /**
   * The DataFrame split: text reviews (non-null, non-blank, the first row of
   * each text) and rating-only reviews. A DataFrame built from no rows has no
   * `customer_review` column, so `dropna(subset=...)` raises KeyError.
   */
  function Partition(reviews: seq<RawReview>): (r: Result<(seq<RawReview>, seq<RawReview>), PyError>)
    ensures reviews == [] <==> r.Failure?
    ensures r.Failure? ==> r.error == KeyError("customer_review")
  {
    if reviews == [] then Failure(KeyError("customer_review"))
    else Success((DistinctBy(Select(reviews, TextFlags(reviews)), TextKey), Select(reviews, RatingOnlyFlags(reviews))))
  }

  lemma {:induction false} SelectedSatisfy<T>(xs: seq<T>, flags: seq<bool>, y: T)
    requires |xs| == |flags| && y in Select(xs, flags)
    ensures exists i :: 0 <= i < |xs| && flags[i] && xs[i] == y
  {
    SelectAtPositions(xs, flags);
    var j :| 0 <= j < |Select(xs, flags)| && Select(xs, flags)[j] == y;
    var i := Positions(flags)[j];
    assert flags[i] && xs[i] == y;
  }

  lemma {:induction false} FlaggedSelected<T>(xs: seq<T>, flags: seq<bool>, i: nat)
    requires |xs| == |flags| && i < |xs| && flags[i]
    ensures xs[i] in Select(xs, flags)
  {
    SelectAtPositions(xs, flags);
    var j :| 0 <= j < |Positions(flags)| && Positions(flags)[j] == i;
    assert Select(xs, flags)[j] == xs[i];
  }

  /** The row itself when it has usable text. */
  function TextRow(r: RawReview): (t: Option<RawReview>)
    ensures t.Some? <==> HasText(r)
    ensures t.Some? ==> t.value == r
  {
    if HasText(r) then Some(r) else None
  }

  /** Each text review is a row with usable text that no earlier row with usable text shares its text with. */
  ghost predicate FirstTextRows(reviews: seq<RawReview>, texts: seq<RawReview>) {
    forall j :: 0 <= j < |texts| ==>
      exists i :: 0 <= i < |reviews| && reviews[i] == texts[j] && HasText(reviews[i]) &&
        (forall k :: 0 <= k < i && HasText(reviews[k]) ==> reviews[k].text != texts[j].text)
  }

  /**
   * `drop_duplicates(subset=["customer_review"])` keeps the first row of each
   * text: every text review is a fetched row with usable text that no earlier
   * row with usable text shares its text with. So the rating and date
   * analysed for a repeated text are those of its first row.
   */
  lemma PartitionKeepsFirstRows(reviews: seq<RawReview>)
    requires reviews != []
    ensures FirstTextRows(reviews, Partition(reviews).value.0)
  {
    var flags := TextFlags(reviews);
    var sel := Select(reviews, flags);
    SelectExtracts(reviews, flags, TextRow);
    DistinctByFirstInputs(reviews, sel, Positions(flags), TextRow, TextKey);
  }

  /** Two text reviews appear in the order of the rows they come from. */
  lemma PartitionKeepsOrder(reviews: seq<RawReview>)
    requires reviews != []
    ensures InInputOrder(reviews, Partition(reviews).value.0, TextRow)
  {
    var flags := TextFlags(reviews);
    var sel := Select(reviews, flags);
    SelectExtracts(reviews, flags, TextRow);
    DistinctByInputOrder(reviews, sel, Positions(flags), TextRow, TextKey);
  }

  /** Membership in the two lists, and one text review per text. */
  lemma PartitionMembers(reviews: seq<RawReview>, x: RawReview)
    requires reviews != []
    ensures var (texts, ratingOnly) := Partition(reviews).value;
      (x in texts ==> x in reviews && HasText(x)) &&
      (forall i, j :: 0 <= i < j < |texts| ==> texts[i].text != texts[j].text) &&
      (x in reviews && HasText(x) ==> exists j :: 0 <= j < |texts| && texts[j].text == x.text) &&
      (x in ratingOnly <==> x in reviews && IsRatingOnly(x)) &&
      (x in reviews && !HasText(x) && x.rating == NoRating ==> x !in texts && x !in ratingOnly)
  {
    var flags := TextFlags(reviews);
    var sel := Select(reviews, flags);
    var texts := DistinctBy(sel, TextKey);
    DistinctBySpec(sel, TextKey);
    if x in texts {
      SelectedSatisfy(reviews, flags, x);
    }
    if x in reviews && HasText(x) {
      var i :| 0 <= i < |reviews| && reviews[i] == x;
      FlaggedSelected(reviews, flags, i);
      var k :| 0 <= k < |sel| && sel[k] == x;
      var j :| 0 <= j < |texts| && TextKey(texts[j]) == TextKey(sel[k]);
    }
    var rflags := RatingOnlyFlags(reviews);
    if x in Select(reviews, rflags) {
      SelectedSatisfy(reviews, rflags, x);
    }
    if x in reviews && IsRatingOnly(x) {
      var i :| 0 <= i < |reviews| && reviews[i] == x;
      FlaggedSelected(reviews, rflags, i);
    }
  }
  /**
   * Text reviews are exactly the rows with usable text, one per distinct
   * text, the first row of each text, in fetch order; rating-only reviews are
   * exactly the rows without usable text but with a rating; a row with
   * neither is in neither list.
   */
  lemma PartitionSpec(reviews: seq<RawReview>, x: RawReview)
    requires reviews != []
    ensures var (texts, ratingOnly) := Partition(reviews).value;
      (x in texts ==> x in reviews && HasText(x)) &&
      (forall i, j :: 0 <= i < j < |texts| ==> texts[i].text != texts[j].text) &&
      (x in reviews && HasText(x) ==> exists j :: 0 <= j < |texts| && texts[j].text == x.text) &&
      (x in ratingOnly <==> x in reviews && IsRatingOnly(x)) &&
      (x in reviews && !HasText(x) && x.rating == NoRating ==> x !in texts && x !in ratingOnly)
    ensures FirstTextRows(reviews, Partition(reviews).value.0)
    ensures InInputOrder(reviews, Partition(reviews).value.0, TextRow)
  {
    PartitionMembers(reviews, x);
    PartitionKeepsFirstRows(reviews);
    PartitionKeepsOrder(reviews);
  }


  // ---------------------------------------------------------------------------
  // Attaching the cleaner's output

  /** `{**review, **cleaned, "sentiment_source": "text"}`, before scoring. */
  function WithCleaned(r: RawReview, c: Cleaned): Review {
    Review(r, c.clean, Some(c.lang), Some(c.hash), None, NoLabel, None, FromText)
  }

  /** The text each review is cleaned from: `r.get("customer_review") or ""`. */
  function RawText(r: RawReview): string {
    if r.text.Some? then r.text.value else ""
  }

  function RawTexts(reviews: seq<RawReview>): (t: seq<string>)
    ensures |t| == |reviews| && forall i :: 0 <= i < |reviews| ==> t[i] == RawText(reviews[i])
  {
    seq(|reviews|, i requires 0 <= i < |reviews| => RawText(reviews[i]))
  }

  /** The classic pipeline: each text review cleaned on its own, in order. */
  method CleanClassic(texts: seq<RawReview>, clean: string -> Cleaned) returns (cleaned: seq<Review>)
    ensures |cleaned| == |texts|
    ensures forall i :: 0 <= i < |texts| ==> cleaned[i] == WithCleaned(texts[i], clean(RawText(texts[i])))
  {
    cleaned := [];
    for i := 0 to |texts|
      invariant |cleaned| == i
      invariant forall j :: 0 <= j < i ==> cleaned[j] == WithCleaned(texts[j], clean(RawText(texts[j])))
    {
      cleaned := cleaned + [WithCleaned(texts[i], clean(RawText(texts[i])))];
    }
  }

  /** The zipped reviews as a value: TypeError when a slot within the shorter length is unfilled. */
  function Zipped(texts: seq<RawReview>, batch: seq<Option<Cleaned>>): Result<seq<Review>, PyError> {
    var n := Min(|texts|, |batch|);
    if exists j :: 0 <= j < n && batch[j].None? then Failure(TypeError)
    else Success(seq(n, j requires 0 <= j < n && batch[j].Some? => WithCleaned(texts[j], batch[j].value)))
  }

  /**
   * The graph pipeline's output zipped onto the text reviews: `zip` stops at
   * the shorter list, and an unfilled (None) slot makes `{**review, **None}`
   * raise TypeError.
   */
  method ZipCleaned(texts: seq<RawReview>, batch: seq<Option<Cleaned>>) returns (r: Result<seq<Review>, PyError>)
    ensures r.Failure? <==> exists j :: 0 <= j < Min(|texts|, |batch|) && batch[j].None?
    ensures r.Failure? ==> r.error == TypeError
    ensures r.Success? ==> |r.value| == Min(|texts|, |batch|)
    ensures r.Success? ==> forall j :: 0 <= j < |r.value| ==> batch[j].Some? && r.value[j] == WithCleaned(texts[j], batch[j].value)
    ensures r == Zipped(texts, batch)
  {
    var cleaned: seq<Review> := [];
    for j := 0 to Min(|texts|, |batch|)
      invariant |cleaned| == j
      invariant forall k :: 0 <= k < j ==> batch[k].Some? && cleaned[k] == WithCleaned(texts[k], batch[k].value)
    {
      if batch[j].None? {
        return Failure(TypeError);
      }
      cleaned := cleaned + [WithCleaned(texts[j], batch[j].value)];
    }
    assert forall k :: 0 <= k < |cleaned| ==> cleaned[k] == Zipped(texts, batch).value[k];
    assert cleaned == Zipped(texts, batch).value;
    return Success(cleaned);
  }

  // ---------------------------------------------------------------------------
  // Embedding and classification, aligned back onto the cleaned reviews

  /** Whether each cleaned review has text worth embedding. */
  function ValidFlags(cleaned: seq<Review>): (f: seq<bool>)
    ensures |f| == |cleaned| && forall i :: 0 <= i < |cleaned| ==> f[i] == !IsBlank(CleanOrEmpty(cleaned[i]))
  {
    seq(|cleaned|, i requires 0 <= i < |cleaned| => !IsBlank(CleanOrEmpty(cleaned[i])))
  }

  /** `[i for i, t in enumerate(texts_to_embed) if t.strip()]`. */
  function ValidIndices(cleaned: seq<Review>): seq<nat> {
    Positions(ValidFlags(cleaned))
  }

  /** `[texts_to_embed[i] for i in valid_indices]`: the k-th text is the text at the k-th valid index. */
  function ValidTexts(cleaned: seq<Review>): (t: seq<string>)
    ensures |t| == |ValidIndices(cleaned)|
    ensures forall k :: 0 <= k < |t| ==> t[k] == CleanOrEmpty(cleaned[ValidIndices(cleaned)[k]]) && !IsBlank(t[k])
  {
    SelectAtPositions(Texts(cleaned), ValidFlags(cleaned));
    Select(Texts(cleaned), ValidFlags(cleaned))
  }

  /**
   * `full = [None] * n` followed by `full[idx] = v` for each pair of
   * `zip(indices, values)`: the k-th value lands at the k-th index, and
   * every other slot stays None.
   */
  method ScatterBack<T>(n: nat, indices: seq<nat>, values: seq<T>) returns (full: seq<Option<T>>)
    requires forall k :: 0 <= k < |indices| ==> indices[k] < n
    requires forall k, k' :: 0 <= k < k' < |indices| ==> indices[k] < indices[k']
    ensures |full| == n
    ensures forall k :: 0 <= k < Min(|indices|, |values|) ==> full[indices[k]] == Some(values[k])
    ensures forall i :: 0 <= i < n && i !in indices[..Min(|indices|, |values|)] ==> full[i] == None
  {
    full := seq(n, _ => None);
    var m := Min(|indices|, |values|);
    for k := 0 to m
      invariant |full| == n
      invariant forall k' :: 0 <= k' < k ==> full[indices[k']] == Some(values[k'])
      invariant forall i :: 0 <= i < n && i !in indices[..k] ==> full[i] == None
    {
      assert indices[..k + 1] == indices[..k] + [indices[k]];
      full := full[indices[k] := Some(values[k])];
    }
  }

  /** The label a review gets from its classification slot: None when there is none. */
  function LabelOf(c: Option<Classification>): Label {
    if c.Some? then c.value.predicted else NoLabel
  }

  function ProbabilitiesOf(c: Option<Classification>): Option<Dict<string, real>> {
    if c.Some? then Some(c.value.probabilities) else None
  }

  /** The scoring fields written into each cleaned review from its aligned slots. */
  function Scored(r: Review, e: Option<Vector>, c: Option<Classification>): Review {
    r.(embedding := e, sentiment := LabelOf(c), probabilities := ProbabilitiesOf(c))
  }

  /** The loop that writes `embedding`, `sentiment` and `sentiment_probabilities` into every cleaned review. */
  method MergeScores(cleaned: seq<Review>, embeddings: seq<Option<Vector>>, classes: seq<Option<Classification>>)
    returns (merged: seq<Review>)
    requires |embeddings| == |cleaned| && |classes| == |cleaned|
    ensures |merged| == |cleaned|
    ensures forall i :: 0 <= i < |cleaned| ==> merged[i] == Scored(cleaned[i], embeddings[i], classes[i])
  {
    merged := cleaned;
    for i := 0 to |cleaned|
      invariant |merged| == |cleaned|
      invariant forall j :: 0 <= j < i ==> merged[j] == Scored(cleaned[j], embeddings[j], classes[j])
      invariant forall j :: i <= j < |cleaned| ==> merged[j] == cleaned[j]
    {
      merged := merged[i := Scored(cleaned[i], embeddings[i], classes[i])];
    }
  }

  /**
   * A cleaned review is embedded and classified exactly when its text is not
   * blank after stripping: otherwise its index is never valid, so
   * `ScatterBack` leaves its embedding and classification slots None.
   */
  lemma ValidIndexIff(cleaned: seq<Review>, i: nat)
    requires i < |cleaned|
    ensures i in ValidIndices(cleaned) <==> !IsBlank(CleanOrEmpty(cleaned[i]))
  {
    var idx := ValidIndices(cleaned);
    if i in idx {
      var k :| 0 <= k < |idx| && idx[k] == i;
      assert ValidFlags(cleaned)[idx[k]];
    } else {
      assert !ValidFlags(cleaned)[i];
    }
  }

  // ---------------------------------------------------------------------------
  // Rating-only reviews

  /**
   * `rating_sentiment_map.get(int(rating))` inside `try`: 1 and 2 are
   * negative, 3 neutral, 4 and 5 positive; any other integer, and any value
   * `int()` rejects, gives None.
   */
  function RatingSentiment(rating: Rating): (l: Label)
    ensures l != NoLabel <==> rating.Whole? && 1 <= rating.n <= 5
    ensures l != NoLabel ==> l == StrLabel(Name(
      if rating.n <= 2 then Negative else if rating.n == 3 then Neutral else Positive))
  {
    if !rating.Whole? then NoLabel
    else if rating.n == 1 || rating.n == 2 then StrLabel("negative")
    else if rating.n == 3 then StrLabel("neutral")
    else if rating.n == 4 || rating.n == 5 then StrLabel("positive")
    else NoLabel
  }

  /** A rating-only row as the stats step sees it. */
  function RatingScored(r: RawReview): Review {
    Review(r, None, None, None, None, RatingSentiment(r.rating), None, RatingOnly)
  }

  method ScoreRatingOnly(rows: seq<RawReview>) returns (scored: seq<Review>)
    ensures |scored| == |rows|
    ensures forall i :: 0 <= i < |rows| ==> scored[i] == RatingScored(rows[i])
  {
    scored := [];
    for i := 0 to |rows|
      invariant |scored| == i
      invariant forall j :: 0 <= j < i ==> scored[j] == RatingScored(rows[j])
    {
      scored := scored + [RatingScored(rows[i])];
    }
  }

  // ---------------------------------------------------------------------------
  // Integer label rewrite

  /** The loop that rewrites each cleaned review's integer label to its name, in place. */
  method NormalizeLabels(cleaned: seq<Review>) returns (out: seq<Review>)
    ensures |out| == |cleaned|
    ensures forall i :: 0 <= i < |cleaned| ==> out[i] == cleaned[i].(sentiment := NormalizeLabel(cleaned[i].sentiment))
  {
    out := cleaned;
    for i := 0 to |cleaned|
      invariant |out| == |cleaned|
      invariant forall j :: 0 <= j < i ==> out[j] == cleaned[j].(sentiment := NormalizeLabel(cleaned[j].sentiment))
      invariant forall j :: i <= j < |cleaned| ==> out[j] == cleaned[j]
    {
      out := out[i := out[i].(sentiment := NormalizeLabel(out[i].sentiment))];
    }
  }

  /**
   * After the rewrite, a classified review whose class is 0, 1 or 2 carries
   * that sentiment's name, which is what the keyword matcher compares with.
   */
  lemma ClassLabelNamed(r: Review, n: int)
    requires r.sentiment == IntLabel(n) && ClassSentiment(n).Some?
    ensures NormalizeLabel(r.sentiment) == StrLabel(Name(ClassSentiment(n).value))
    ensures LabelSentiment(NormalizeLabel(r.sentiment)) == ClassSentiment(n)
  {
  }
}
