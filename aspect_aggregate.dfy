/**
 * `aggregate_aspect_sentiment`: the aspect mentions the language model
 * returned for each review are counted per aspect and sentiment, a few clean
 * texts are kept per aspect and sentiment, and the aspects are reported with
 * their sentiment shares, most mentioned first.
 */
module AspectAggregate {
  import opened Wrappers
  import opened Text
  import opened Sentiments
  import opened Assoc
  import opened Py
  import opened Reviews

  /** What has been gathered for one aspect: its Counter (without `total`), `total`, and its sample lists. */
  datatype AspectState = AspectState(counts: PerSentiment<nat>, total: nat, samples: PerSentiment<seq<Option<string>>>)

  /** The state of an aspect seen for the first time. */
  const Fresh: AspectState := AspectState(Uniform(0), 0, Uniform([]))

  /** `aspect_counts` and `aspect_samples` together, keyed by aspect in first-seen order. */
  type Table = Dict<string, AspectState>

  // ---------------------------------------------------------------------------
  // Reading one result

  /**
   * The elements `for asp in v` visits: a list's items; nothing for an empty
   * string or dict; a non-empty string or dict yields strings, on which
   * `asp['aspect']` raises TypeError; other values are not iterable.
   */
  function Iterate(v: Json): (r: Result<seq<Json>, PyError>)
    ensures v.JList? ==> r == Success(v.items)
    ensures !v.JList? && r.Success? ==> r.value == []
  {
    match v
    case JList(items) => Success(items)
    case JStr(s) => if s == [] then Success([]) else Failure(TypeError)
    case JObject(fields) => if fields == [] then Success([]) else Failure(TypeError)
    case _ => Failure(TypeError)
  }

  /** `result.get('aspects', [])` iterated, for a dict result. */
  function AspectItems(fields: seq<(string, Json)>): Result<seq<Json>, PyError> {
    Iterate(Field(fields, "aspects").GetOr(JList([])))
  }

  /** `asp[key].lower()` on a dict: KeyError when missing, AttributeError when not a string. */
  function TextField(fields: seq<(string, Json)>, key: string): (r: Result<string, PyError>)
    ensures Field(fields, key).None? ==> r == Failure(KeyError(key))
    ensures r.Success? ==> exists s :: Field(fields, key) == Some(JStr(s)) && r.value == Lower(s)
  {
    var f := Field(fields, key);
    if f.None? then Failure(KeyError(key))
    else if f.value.JStr? then Success(Lower(f.value.s))
    else Failure(AttributeError)
  }

  /** The lower-cased (aspect, sentiment) of one mention; a mention that is not a dict raises TypeError. */
  function Mention(asp: Json): Result<(string, string), PyError> {
    if !asp.JObject? then Failure(TypeError)
    else
      var a := TextField(asp.fields, "aspect");
      if a.Failure? then Failure(a.error)
      else
        var s := TextField(asp.fields, "sentiment");
        if s.Failure? then Failure(s.error) else Success((a.value, s.value))
  }

  /**
   * One mention of `aspect` with sentiment name `name` in result `idx`: both
   * counts go up, and while the sentiment's sample list is shorter than
   * `spa` the review's `clean` value is appended. A name other than the
   * three sentiments raises KeyError on the sample dict, and an index past
   * the cleaned reviews raises IndexError.
   */
  function Record(t: Table, aspect: string, name: string, idx: nat, cleaned: seq<Review>, spa: int): (r: Result<Table, PyError>)
    ensures FromName(name).None? ==> r == Failure(KeyError(name))
    ensures FromName(name).Some? && r.Failure? ==> r == Failure(IndexError) && idx >= |cleaned|
  {
    var st := Get(t, aspect).GetOr(Fresh);
    match FromName(name)
    case None => Failure(KeyError(name))
    case Some(s) =>
      if |st.samples.Get(s)| < spa && idx >= |cleaned| then Failure(IndexError)
      else Success(Put(t, aspect, Mentioned(st, s, idx, cleaned, spa)))
  }

  /** An aspect's state after one more mention with sentiment `s` in result `idx`. */
  function Mentioned(st: AspectState, s: Sentiment, idx: nat, cleaned: seq<Review>, spa: int): AspectState
    requires |st.samples.Get(s)| < spa ==> idx < |cleaned|
  {
    var counted := st.(counts := st.counts.Set(s, st.counts.Get(s) + 1), total := st.total + 1);
    if |st.samples.Get(s)| < spa then counted.(samples := st.samples.Set(s, st.samples.Get(s) + [cleaned[idx].clean]))
    else counted
  }

  function Step(t: Table, asp: Json, idx: nat, cleaned: seq<Review>, spa: int): Result<Table, PyError> {
    var m := Mention(asp);
    if m.Failure? then Failure(m.error) else Record(t, m.value.0, m.value.1, idx, cleaned, spa)
  }

  /** The table after the mentions `items` of result `idx`, in order; the first exception stops it. */
  function ItemsFrom(t: Table, items: seq<Json>, idx: nat, cleaned: seq<Review>, spa: int): Result<Table, PyError>
    decreases |items|
  {
    if items == [] then Success(t)
    else
      var next := Step(t, items[0], idx, cleaned, spa);
      if next.Failure? then next else ItemsFrom(next.value, items[1..], idx, cleaned, spa)
  }

  /** One element of `aspect_results`: anything but a dict is skipped. */
  function ResultStep(t: Table, result: Option<Json>, idx: nat, cleaned: seq<Review>, spa: int): Result<Table, PyError> {
    match result
    case Some(JObject(fields)) =>
      (match AspectItems(fields)
       case Failure(e) => Failure(e)
       case Success(items) => ItemsFrom(t, items, idx, cleaned, spa))
    case _ => Success(t)
  }

  /** The table after the first `n` results. */
  function TableUpTo(results: seq<Option<Json>>, n: nat, cleaned: seq<Review>, spa: int): Result<Table, PyError>
    requires n <= |results|
  {
    if n == 0 then Success([])
    else match TableUpTo(results, n - 1, cleaned, spa)
      case Failure(e) => Failure(e)
      case Success(t) => ResultStep(t, results[n - 1], n - 1, cleaned, spa)
  }

  // ---------------------------------------------------------------------------
  // The report

  /** One element of the returned list. */
  datatype AspectRecord = AspectRecord(
    aspect: string, positive: real, neutral: real, negative: real, mentions: nat,
    samples: PerSentiment<seq<Option<string>>>)

  /** `100 * counts[s] / total if total else 0`. */
  function Pct(st: AspectState, s: Sentiment): real {
    if st.total == 0 then 0.0 else Share(st.counts.Get(s), st.total)
  }

  function RecordOf(aspect: string, st: AspectState): AspectRecord {
    AspectRecord(aspect, Pct(st, Positive), Pct(st, Neutral), Pct(st, Negative), st.total, st.samples)
  }

  function Records(t: Table): (rs: seq<AspectRecord>)
    ensures |rs| == |t| && forall i :: 0 <= i < |t| ==> rs[i] == RecordOf(t[i].0, t[i].1)
  {
    seq(|t|, i requires 0 <= i < |t| => RecordOf(t[i].0, t[i].1))
  }

  function MentionsOf(r: AspectRecord): int { r.mentions }

  /** `aspect_summary.sort(key=mentions, reverse=True)` then `[:top_n]`. */
  function Summary(t: Table, topN: int): seq<AspectRecord> {
    PySliceTo(SortDesc(Records(t), MentionsOf), topN)
  }

  /** The inner loop over one result's mentions; the first exception ends it. */
  method ProcessItems(t0: Table, items: seq<Json>, idx: nat, cleaned: seq<Review>, spa: int)
    returns (r: Result<Table, PyError>)
    ensures r == ItemsFrom(t0, items, idx, cleaned, spa)
  {
    var t := t0;
    for j := 0 to |items|
      invariant ItemsFrom(t0, items, idx, cleaned, spa) == ItemsFrom(t, items[j..], idx, cleaned, spa)
    {
      assert items[j..][1..] == items[j + 1..];
      var next := Step(t, items[j], idx, cleaned, spa);
      if next.Failure? {
        return next;
      }
      t := next.value;
    }
    assert items[|items|..] == [];
    return Success(t);
  }

  /**
   * `aggregate_aspect_sentiment`: the results are read in order, each
   * mention updating the table, and the first exception ends the call;
   * otherwise the table is reported.
   */
  method AggregateAspectSentiment(results: seq<Option<Json>>, cleaned: seq<Review>, topN: int, spa: int)
    returns (r: Result<seq<AspectRecord>, PyError>)
    ensures TableUpTo(results, |results|, cleaned, spa).Failure? ==> r == Failure(TableUpTo(results, |results|, cleaned, spa).error)
    ensures TableUpTo(results, |results|, cleaned, spa).Success? ==> r == Success(Summary(TableUpTo(results, |results|, cleaned, spa).value, topN))
  {
    var t: Table := [];
    for idx := 0 to |results|
      invariant TableUpTo(results, idx, cleaned, spa) == Success(t)
    {
      var next: Result<Table, PyError> := Success(t);
      match results[idx] {
        case Some(JObject(fields)) =>
          var items := AspectItems(fields);
          if items.Failure? {
            next := Failure(items.error);
          } else {
            next := ProcessItems(t, items.value, idx, cleaned, spa);
          }
        case _ =>
      }
      assert next == ResultStep(t, results[idx], idx, cleaned, spa);
      if next.Failure? {
        TableFailsFrom(results, idx + 1, cleaned, spa);
        return Failure(next.error);
      }
      t := next.value;
    }
    return Success(Summary(t, topN));
  }

  /** Once a result raises, every later prefix ends in the same exception. */
  lemma {:induction false} TableFailsFrom(results: seq<Option<Json>>, n: nat, cleaned: seq<Review>, spa: int)
    requires 0 < n <= |results|
    requires TableUpTo(results, n, cleaned, spa).Failure?
    ensures TableUpTo(results, |results|, cleaned, spa) == TableUpTo(results, n, cleaned, spa)
    decreases |results| - n
  {
    if n < |results| {
      TableFailsFrom(results, n + 1, cleaned, spa);
    }
  }

  // ---------------------------------------------------------------------------
  // What the table holds

  /** The `clean` values of the cleaned reviews, the only texts a sample can be. */
  function CleanValues(cleaned: seq<Review>): (r: seq<Option<string>>)
    ensures |r| == |cleaned| && forall i :: 0 <= i < |cleaned| ==> r[i] == cleaned[i].clean
  {
    seq(|cleaned|, i requires 0 <= i < |cleaned| => cleaned[i].clean)
  }

  /** A sentiment's sample list: no longer than its count or `samples_per_aspect`, drawn from the reviews. */
  predicate SlotOk(st: AspectState, s: Sentiment, cleaned: seq<Review>, spa: int) {
    |st.samples.Get(s)| <= st.counts.Get(s) &&
    |st.samples.Get(s)| <= Max(spa, 0) &&
    forall x :: x in st.samples.Get(s) ==> x in CleanValues(cleaned)
  }

  /** `total` counts every mention of the three sentiments, and each sample list is in bounds. */
  predicate Consistent(st: AspectState, cleaned: seq<Review>, spa: int) {
    st.total == st.counts.positive + st.counts.neutral + st.counts.negative &&
    SlotOk(st, Positive, cleaned, spa) && SlotOk(st, Neutral, cleaned, spa) && SlotOk(st, Negative, cleaned, spa)
  }

  /** Aspects appear once, each mentioned at least once, with consistent counts and samples. */
  predicate TableOk(t: Table, cleaned: seq<Review>, spa: int) {
    DistinctKeys(t) && forall e :: e in t ==> e.1.total >= 1 && Consistent(e.1, cleaned, spa)
  }

  function TotalOf(st: AspectState): nat { st.total }

  /** The mentions a result holds: those of a dict result whose `aspects` can be iterated. */
  function ResultMentions(result: Option<Json>): nat {
    match result
    case Some(JObject(fields)) =>
      (match AspectItems(fields)
       case Success(items) => |items|
       case Failure(_) => 0)
    case _ => 0
  }

  /** The number of mentions the first `n` results hold. */
  function MentionsUpTo(results: seq<Option<Json>>, n: nat): nat
    requires n <= |results|
  {
    if n == 0 then 0 else MentionsUpTo(results, n - 1) + ResultMentions(results[n - 1])
  }

  /** One more mention keeps an aspect's state consistent and raises its `total` by one. */
  lemma MentionedConsistent(st: AspectState, s: Sentiment, idx: nat, cleaned: seq<Review>, spa: int)
    requires |st.samples.Get(s)| < spa ==> idx < |cleaned|
    requires Consistent(st, cleaned, spa)
    ensures Consistent(Mentioned(st, s, idx, cleaned, spa), cleaned, spa)
    ensures Mentioned(st, s, idx, cleaned, spa).total == st.total + 1
  {
    if |st.samples.Get(s)| < spa {
      assert cleaned[idx].clean == CleanValues(cleaned)[idx];
    }
  }

  /** One recorded mention keeps the table consistent and makes `aspect` a key. */
  lemma {:induction false} RecordPreserves(t: Table, aspect: string, name: string, idx: nat, cleaned: seq<Review>, spa: int)
    requires TableOk(t, cleaned, spa)
    requires Record(t, aspect, name, idx, cleaned, spa).Success?
    ensures TableOk(Record(t, aspect, name, idx, cleaned, spa).value, cleaned, spa)
    ensures Get(Record(t, aspect, name, idx, cleaned, spa).value, aspect).Some?
  {
    var st := Get(t, aspect).GetOr(Fresh);
    if Get(t, aspect).Some? {
      GetIsEntry(t, aspect);
    }
    var s := FromName(name).value;
    var st' := Mentioned(st, s, idx, cleaned, spa);
    MentionedConsistent(st, s, idx, cleaned, spa);
    PutKeepsDistinct(t, aspect, st');
    PutEntries(t, aspect, st');
  }

  /** One recorded mention adds exactly one to the mentions summed over all aspects. */
  lemma {:induction false} RecordCounts(t: Table, aspect: string, name: string, idx: nat, cleaned: seq<Review>, spa: int)
    requires Record(t, aspect, name, idx, cleaned, spa).Success?
    ensures SumOf(Record(t, aspect, name, idx, cleaned, spa).value, TotalOf) == SumOf(t, TotalOf) + 1
  {
    var st := Get(t, aspect).GetOr(Fresh);
    var st' := Mentioned(st, FromName(name).value, idx, cleaned, spa);
    SumOfPut(t, aspect, st', TotalOf);
  }

  lemma StepPreserves(t: Table, asp: Json, idx: nat, cleaned: seq<Review>, spa: int)
    requires TableOk(t, cleaned, spa)
    requires Step(t, asp, idx, cleaned, spa).Success?
    ensures TableOk(Step(t, asp, idx, cleaned, spa).value, cleaned, spa)
  {
    var m := Mention(asp).value;
    RecordPreserves(t, m.0, m.1, idx, cleaned, spa);
  }

  lemma StepCounts(t: Table, asp: Json, idx: nat, cleaned: seq<Review>, spa: int)
    requires Step(t, asp, idx, cleaned, spa).Success?
    ensures SumOf(Step(t, asp, idx, cleaned, spa).value, TotalOf) == SumOf(t, TotalOf) + 1
  {
    var m := Mention(asp).value;
    RecordCounts(t, m.0, m.1, idx, cleaned, spa);
  }

  lemma {:induction false} ItemsPreserve(t: Table, items: seq<Json>, idx: nat, cleaned: seq<Review>, spa: int)
    requires TableOk(t, cleaned, spa)
    requires ItemsFrom(t, items, idx, cleaned, spa).Success?
    ensures TableOk(ItemsFrom(t, items, idx, cleaned, spa).value, cleaned, spa)
    decreases |items|
  {
    if items != [] {
      StepPreserves(t, items[0], idx, cleaned, spa);
      ItemsPreserve(Step(t, items[0], idx, cleaned, spa).value, items[1..], idx, cleaned, spa);
    }
  }

  lemma {:induction false} ItemsCounts(t: Table, items: seq<Json>, idx: nat, cleaned: seq<Review>, spa: int)
    requires ItemsFrom(t, items, idx, cleaned, spa).Success?
    ensures SumOf(ItemsFrom(t, items, idx, cleaned, spa).value, TotalOf) == SumOf(t, TotalOf) + |items|
    decreases |items|
  {
    if items != [] {
      StepCounts(t, items[0], idx, cleaned, spa);
      ItemsCounts(Step(t, items[0], idx, cleaned, spa).value, items[1..], idx, cleaned, spa);
    }
  }

  lemma ResultPreserves(t: Table, result: Option<Json>, idx: nat, cleaned: seq<Review>, spa: int)
    requires TableOk(t, cleaned, spa)
    requires ResultStep(t, result, idx, cleaned, spa).Success?
    ensures TableOk(ResultStep(t, result, idx, cleaned, spa).value, cleaned, spa)
    ensures SumOf(ResultStep(t, result, idx, cleaned, spa).value, TotalOf) == SumOf(t, TotalOf) + ResultMentions(result)
  {
    if result.Some? && result.value.JObject? {
      var items := AspectItems(result.value.fields).value;
      ItemsPreserve(t, items, idx, cleaned, spa);
      ItemsCounts(t, items, idx, cleaned, spa);
    }
  }

  /**
   * When no exception is raised, the table is consistent and the mentions of
   * all aspects add up to the mentions in the dict results.
   */
  lemma {:induction false} TableInvariant(results: seq<Option<Json>>, n: nat, cleaned: seq<Review>, spa: int)
    requires n <= |results|
    requires TableUpTo(results, n, cleaned, spa).Success?
    ensures TableOk(TableUpTo(results, n, cleaned, spa).value, cleaned, spa)
    ensures SumOf(TableUpTo(results, n, cleaned, spa).value, TotalOf) == MentionsUpTo(results, n)
  {
    if n > 0 {
      TableInvariant(results, n - 1, cleaned, spa);
      var t := TableUpTo(results, n - 1, cleaned, spa).value;
      assert TableUpTo(results, n, cleaned, spa) == ResultStep(t, results[n - 1], n - 1, cleaned, spa);
      ResultPreserves(t, results[n - 1], n - 1, cleaned, spa);
    }
  }

  /** The three shares of a mentioned aspect add up to 100 (before any rounding). */
  lemma PctSum(st: AspectState, cleaned: seq<Review>, spa: int)
    requires st.total >= 1 && Consistent(st, cleaned, spa)
    ensures Pct(st, Positive) + Pct(st, Neutral) + Pct(st, Negative) == 100.0
  {
    var p, n, g := st.counts.positive, st.counts.neutral, st.counts.negative;
    assert Pct(st, Positive) == Share(p, st.total) && Pct(st, Neutral) == Share(n, st.total)
        && Pct(st, Negative) == Share(g, st.total);
    SharesAdd(p, n, st.total);
    SharesAdd(p + n, g, st.total);
    assert p + n + g == st.total;
    ShareOfWhole(st.total);
  }

  /** Every reported aspect was mentioned, and its three shares add up to 100. */
  lemma RecordsShares(t: Table, cleaned: seq<Review>, spa: int, r: AspectRecord)
    requires TableOk(t, cleaned, spa) && r in Records(t)
    ensures r.mentions >= 1 && r.positive + r.neutral + r.negative == 100.0
    ensures Get(t, r.aspect).Some? && r == RecordOf(r.aspect, Get(t, r.aspect).value)
  {
    var i :| 0 <= i < |t| && Records(t)[i] == r;
    assert t[i] in t;
    PctSum(t[i].1, cleaned, spa);
    GetIffEntry(t, t[i].0, t[i].1);
  }

  /**
   * The report is ordered by mentions, most first; it holds records of the
   * table only; and an aspect left out of a non-negative `top_n` report is
   * mentioned no more often than every one reported, which are then `top_n`.
   */
  lemma SummarySpec(t: Table, topN: int, x: AspectRecord)
    ensures SortedDesc(Summary(t, topN), MentionsOf)
    ensures forall r :: r in Summary(t, topN) ==> r in Records(t)
    ensures topN >= 0 && x in Records(t) && x !in Summary(t, topN) ==>
      |Summary(t, topN)| == topN && forall j :: 0 <= j < topN ==> Summary(t, topN)[j].mentions >= x.mentions
  {
    var sd := SortDesc(Records(t), MentionsOf);
    SortDescSpec(Records(t), MentionsOf);
    var r := Summary(t, topN);
    assert r == sd[..|r|];
    forall y | y in r ensures y in Records(t) {
      assert y in multiset(sd);
    }
    if topN >= 0 && x in Records(t) && x !in r {
      assert r == Take(sd, topN);
      TakeSortedIsTop(Records(t), MentionsOf, topN, x);
    }
  }

  /** A mention with a sentiment other than the three raises KeyError on that name. */
  lemma UnknownSentimentRaises(aspect: string, idx: nat, cleaned: seq<Review>, spa: int)
    ensures ItemsFrom([], [JObject([("aspect", JStr(aspect)), ("sentiment", JStr("Mixed"))])], idx, cleaned, spa)
      == Failure(KeyError("mixed"))
  {
    var fields := [("aspect", JStr(aspect)), ("sentiment", JStr("Mixed"))];
    assert Field(fields, "sentiment") == Some(JStr("Mixed"));
    assert Lower("Mixed") == "mixed";
  }

  /** The mention ("Taste", "Positive") reads as ("taste", "positive"). */
  lemma TasteMention()
    ensures Mention(JObject([("aspect", JStr("Taste")), ("sentiment", JStr("Positive"))])) == Success(("taste", "positive"))
  {
    var fields := [("aspect", JStr("Taste")), ("sentiment", JStr("Positive"))];
    assert Field(fields, "aspect") == Some(JStr("Taste"));
    assert Field(fields, "sentiment") == Some(JStr("Positive"));
    assert Lower("Taste") == "taste";
    assert Lower("Positive") == "positive";
  }

  /** Recording that mention in an empty table. */
  lemma TasteRecord(cleaned: seq<Review>)
    requires |cleaned| >= 1
    ensures Record([], "taste", "positive", 0, cleaned, 3) ==
      Success([("taste", AspectState(PerSentiment(1, 0, 0), 1, PerSentiment([cleaned[0].clean], [], [])))])
  {
    var st := AspectState(PerSentiment(1, 0, 0), 1, PerSentiment([cleaned[0].clean], [], []));
    assert FromName("positive") == Some(Positive);
    assert Fresh.samples.Get(Positive) + [cleaned[0].clean] == [cleaned[0].clean];
    assert Mentioned(Fresh, Positive, 0, cleaned, 3) == st;
  }

  /** One review whose single mention is ("Taste", "Positive"): one aspect, sampled once. */
  lemma OneMentionTable(cleaned: seq<Review>)
    requires |cleaned| >= 1
    ensures var mention := JObject([("aspect", JStr("Taste")), ("sentiment", JStr("Positive"))]);
      TableUpTo([Some(JObject([("aspects", JList([mention]))]))], 1, cleaned, 3) ==
        Success([("taste", AspectState(PerSentiment(1, 0, 0), 1, PerSentiment([cleaned[0].clean], [], [])))])
  {
    var mention := JObject([("aspect", JStr("Taste")), ("sentiment", JStr("Positive"))]);
    var st := AspectState(PerSentiment(1, 0, 0), 1, PerSentiment([cleaned[0].clean], [], []));
    TasteMention();
    TasteRecord(cleaned);
    assert Step([], mention, 0, cleaned, 3) == Success([("taste", st)]);
    assert ItemsFrom([], [mention], 0, cleaned, 3) == Success([("taste", st)]);
    assert Field([("aspects", JList([mention]))], "aspects") == Some(JList([mention]));
    assert AspectItems([("aspects", JList([mention]))]) == Success([mention]);
  }

  /** The report of that table: the aspect, wholly positive. */
  lemma OneAspectReport(sample: Option<string>)
    ensures Summary([("taste", AspectState(PerSentiment(1, 0, 0), 1, PerSentiment([sample], [], [])))], 10) ==
      [AspectRecord("taste", 100.0, 0.0, 0.0, 1, PerSentiment([sample], [], []))]
  {
    var st := AspectState(PerSentiment(1, 0, 0), 1, PerSentiment([sample], [], []));
    var rec := AspectRecord("taste", 100.0, 0.0, 0.0, 1, PerSentiment([sample], [], []));
    assert Share(1, 1) == 100.0 && Share(0, 1) == 0.0;
    assert RecordOf("taste", st) == rec;
    assert Records([("taste", st)]) == [rec];
    assert SortDesc([rec], MentionsOf) == [rec];
  }
}
