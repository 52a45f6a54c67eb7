/**
 * `extract_top_keywords_by_sentiment`: the clean texts are grouped by the
 * sentiment name their label maps to, and each non-empty group is joined
 * with ". " and handed to the keyword model once. KeyBERT is a parameter.
 */
module KeywordExtract {
  import opened Wrappers
  import opened Text
  import opened Sentiments
  import opened Assoc
  import opened Reviews

  /** KeyBERT's `extract_keywords(doc, top_n=...)`: scored phrases, best first. */
  type KeyBert = (string, int) -> seq<(string, real)>

  /** `review.get("clean") or ""`. */
  function CleanOrEmpty(r: Review): string {
    if r.clean.Some? then r.clean.value else ""
  }

  /** The review's text goes into the group of sentiment `s`. */
  predicate Joins(r: Review, s: Sentiment) {
    LabelName(r.sentiment) == Name(s) && !IsBlank(CleanOrEmpty(r))
  }

  /** The texts grouped under `s` from the first `n` reviews, in review order. */
  function GroupUpTo(reviews: seq<Review>, n: nat, s: Sentiment): (g: seq<string>)
    requires n <= |reviews|
    ensures |g| <= n
  {
    if n == 0 then []
    else GroupUpTo(reviews, n - 1, s) + (if Joins(reviews[n - 1], s) then [CleanOrEmpty(reviews[n - 1])] else [])
  }

  /** The texts grouped under `s`, in review order. */
  function Group(reviews: seq<Review>, s: Sentiment): seq<string> {
    GroupUpTo(reviews, |reviews|, s)
  }

  /** Which reviews go into group `s`. */
  function Marks(reviews: seq<Review>, s: Sentiment): (m: seq<bool>)
    ensures |m| == |reviews| && forall i :: 0 <= i < |reviews| ==> (m[i] <==> Joins(reviews[i], s))
  {
    seq(|reviews|, i requires 0 <= i < |reviews| => Joins(reviews[i], s))
  }

  /** The clean text (or "") of every review. */
  function Texts(reviews: seq<Review>): (t: seq<string>)
    ensures |t| == |reviews| && forall i :: 0 <= i < |reviews| ==> t[i] == CleanOrEmpty(reviews[i])
  {
    seq(|reviews|, i requires 0 <= i < |reviews| => CleanOrEmpty(reviews[i]))
  }

  /** Review `i` adds its text to group `s` exactly when it joins it. */
  lemma GroupStep(reviews: seq<Review>, i: nat, s: Sentiment)
    requires i < |reviews|
    ensures GroupUpTo(reviews, i + 1, s)
         == GroupUpTo(reviews, i, s) + (if Joins(reviews[i], s) then [CleanOrEmpty(reviews[i])] else [])
  {
  }

  /** A review joins at most one group. */
  lemma JoinsAtMostOne(r: Review)
    ensures !(Joins(r, Positive) && Joins(r, Neutral))
    ensures !(Joins(r, Positive) && Joins(r, Negative))
    ensures !(Joins(r, Neutral) && Joins(r, Negative))
  {
    NameInjective(Positive, Neutral);
    NameInjective(Positive, Negative);
    NameInjective(Neutral, Negative);
  }

  lemma {:induction false} GroupUpToIsSelect(reviews: seq<Review>, n: nat, s: Sentiment)
    requires n <= |reviews|
    ensures GroupUpTo(reviews, n, s) == Select(Texts(reviews)[..n], Marks(reviews, s)[..n])
  {
    if n > 0 {
      GroupUpToIsSelect(reviews, n - 1, s);
      var t := Texts(reviews)[..n];
      var m := Marks(reviews, s)[..n];
      assert t[..n - 1] == Texts(reviews)[..n - 1];
      assert m[..n - 1] == Marks(reviews, s)[..n - 1];
      assert t[n - 1] == CleanOrEmpty(reviews[n - 1]) && (m[n - 1] <==> Joins(reviews[n - 1], s));
      SelectLast(t, m);
      GroupStep(reviews, n - 1, s);
    }
  }

  /**
   * Group `s` holds exactly the clean texts of the reviews whose label maps
   * to `s` and whose clean text is not blank, in review order: its `j`-th
   * text comes from the `j`-th such review.
   */
  lemma GroupIsJoiningTexts(reviews: seq<Review>, s: Sentiment)
    ensures |Group(reviews, s)| == |Positions(Marks(reviews, s))|
    ensures forall j :: 0 <= j < |Group(reviews, s)| ==>
      Group(reviews, s)[j] == CleanOrEmpty(reviews[Positions(Marks(reviews, s))[j]])
  {
    GroupUpToIsSelect(reviews, |reviews|, s);
    var t := Texts(reviews);
    var m := Marks(reviews, s);
    assert t[..|reviews|] == t && m[..|reviews|] == m;
    SelectAtPositions(t, m);
  }

  /** The texts of all three groups from the first `n` reviews. */
  function GroupedUpTo(reviews: seq<Review>, n: nat): nat
    requires n <= |reviews|
  {
    |GroupUpTo(reviews, n, Positive)| + |GroupUpTo(reviews, n, Neutral)| + |GroupUpTo(reviews, n, Negative)|
  }

  /** One more review adds at most one text to the groups. */
  lemma GroupedStep(reviews: seq<Review>, i: nat)
    requires i < |reviews|
    ensures GroupedUpTo(reviews, i + 1) <= GroupedUpTo(reviews, i) + 1
  {
    JoinsAtMostOne(reviews[i]);
    GroupStep(reviews, i, Positive);
    GroupStep(reviews, i, Neutral);
    GroupStep(reviews, i, Negative);
  }

  lemma {:induction false} GroupsUpToWithin(reviews: seq<Review>, n: nat)
    requires n <= |reviews|
    ensures GroupedUpTo(reviews, n) <= n
  {
    if n > 0 {
      GroupsUpToWithin(reviews, n - 1);
      GroupedStep(reviews, n - 1);
    }
  }

  /** A review goes into at most one group, so the groups together hold at most one text per review. */
  lemma GroupsWithinReviews(reviews: seq<Review>)
    ensures |Group(reviews, Positive)| + |Group(reviews, Neutral)| + |Group(reviews, Negative)| <= |reviews|
  {
    GroupsUpToWithin(reviews, |reviews|);
  }

  /** `[kw for kw, _ in keywords]`. */
  function Phrases(kws: seq<(string, real)>): (r: seq<string>)
    ensures |r| == |kws| && forall i :: 0 <= i < |kws| ==> r[i] == kws[i].0
  {
    seq(|kws|, i requires 0 <= i < |kws| => kws[i].0)
  }

  /** The keywords of one group: none for an empty group, else the model's phrases for the joined texts. */
  function GroupKeywords(texts: seq<string>, topN: int, kb: KeyBert): seq<string> {
    if texts == [] then [] else Phrases(kb(Join(". ", texts), topN))
  }

  /** The documents sent to the model for these groups, in order: one per non-empty group. */
  function Requests(groups: seq<seq<string>>): (r: seq<string>)
    ensures |r| <= |groups|
  {
    if groups == [] then []
    else
      var last := groups[|groups| - 1];
      Requests(groups[..|groups| - 1]) + (if last == [] then [] else [Join(". ", last)])
  }

  /** The model is not called at all exactly when every group is empty. */
  lemma {:induction false} NoRequestsIffAllEmpty(groups: seq<seq<string>>)
    ensures (forall j :: 0 <= j < |groups| ==> groups[j] == []) <==> Requests(groups) == []
    decreases |groups|
  {
    if groups != [] {
      var n := |groups| - 1;
      var init := groups[..n];
      NoRequestsIffAllEmpty(init);
      assert forall j :: 0 <= j < n ==> init[j] == groups[j];
    }
  }

  /** The three groups in the order the result dict lists them. */
  function Groups(reviews: seq<Review>): seq<seq<string>> {
    [Group(reviews, Positive), Group(reviews, Neutral), Group(reviews, Negative)]
  }

  lemma JoinsByName(r: Review, s: Sentiment)
    ensures Joins(r, s) <==> FromName(LabelName(r.sentiment)) == Some(s) && !IsBlank(CleanOrEmpty(r))
  {
  }

  /** The grouping loop: each review's clean text is appended to the list of the sentiment its label maps to. */
  method GroupTexts(reviews: seq<Review>) returns (groups: PerSentiment<seq<string>>)
    ensures forall s :: groups.Get(s) == Group(reviews, s)
  {
    groups := Uniform([]);
    for i := 0 to |reviews|
      invariant forall s :: groups.Get(s) == GroupUpTo(reviews, i, s)
    {
      ghost var before := groups;
      var r := reviews[i];
      var named := FromName(LabelName(r.sentiment));
      var text := CleanOrEmpty(r);
      if named.Some? && !IsBlank(text) {
        groups := groups.Set(named.value, groups.Get(named.value) + [text]);
      }
      GroupTextsStep(reviews, i, before, groups);
    }
  }

  /** One round of the grouping loop extends the groups by review `i`. */
  lemma GroupTextsStep(reviews: seq<Review>, i: nat, before: PerSentiment<seq<string>>, after: PerSentiment<seq<string>>)
    requires i < |reviews|
    requires forall s :: before.Get(s) == GroupUpTo(reviews, i, s)
    requires var named := FromName(LabelName(reviews[i].sentiment));
      after == if named.Some? && !IsBlank(CleanOrEmpty(reviews[i]))
               then before.Set(named.value, before.Get(named.value) + [CleanOrEmpty(reviews[i])])
               else before
    ensures forall s :: after.Get(s) == GroupUpTo(reviews, i + 1, s)
  {
    forall s ensures after.Get(s) == GroupUpTo(reviews, i + 1, s) {
      JoinsByName(reviews[i], s);
      GroupStep(reviews, i, s);
    }
  }

  /** The documents of the first `k + 1` groups: those of the first `k`, then group `k`'s if it is not empty. */
  lemma RequestsStep(gs: seq<seq<string>>, k: nat)
    requires k < |gs|
    ensures Requests(gs[..k + 1]) == Requests(gs[..k]) + (if gs[k] == [] then [] else [Join(". ", gs[k])])
  {
    var next := gs[..k + 1];
    assert next[..k] == gs[..k] && next[k] == gs[k];
  }

  /** The keyword loop over the groups in order: the model is called once per non-empty group. */
  method KeywordsForGroups(gs: seq<seq<string>>, topN: int, kb: KeyBert) returns (kws: seq<seq<string>>, requests: seq<string>)
    ensures |kws| == |gs| && forall j :: 0 <= j < |gs| ==> kws[j] == GroupKeywords(gs[j], topN, kb)
    ensures requests == Requests(gs)
  {
    kws := [];
    requests := [];
    for k := 0 to |gs|
      invariant |kws| == k && forall j :: 0 <= j < k ==> kws[j] == GroupKeywords(gs[j], topN, kb)
      invariant requests == Requests(gs[..k])
    {
      var texts := gs[k];
      var found: seq<string> := [];
      RequestsStep(gs, k);
      if texts != [] {
        var joined := Join(". ", texts);
        requests := requests + [joined];
        found := Phrases(kb(joined, topN));
      }
      assert found == GroupKeywords(gs[k], topN, kb);
      kws := kws + [found];
    }
    assert gs[..|gs|] == gs;
  }

  /**
   * `extract_top_keywords_by_sentiment`. The result has exactly the three
   * sentiment keys; `requests` lists the documents sent to the model, in
   * call order.
   */
  method ExtractTopKeywordsBySentiment(reviews: seq<Review>, topN: int, kb: KeyBert)
    returns (top: PerSentiment<seq<string>>, requests: seq<string>)
    ensures forall s :: top.Get(s) == GroupKeywords(Group(reviews, s), topN, kb)
    ensures requests == Requests(Groups(reviews))
  {
    var groups := GroupTexts(reviews);
    var gs := [groups.positive, groups.neutral, groups.negative];
    assert gs == Groups(reviews) by {
      assert groups.Get(Positive) == Group(reviews, Positive);
      assert groups.Get(Neutral) == Group(reviews, Neutral);
      assert groups.Get(Negative) == Group(reviews, Negative);
    }
    var kws;
    kws, requests := KeywordsForGroups(gs, topN, kb);
    top := PerSentiment(kws[0], kws[1], kws[2]);
  }

  /** Every grouped text reaches the model unchanged inside its group's document. */
  lemma GroupTextsReachModel(reviews: seq<Review>, s: Sentiment, j: nat)
    requires j < |Group(reviews, s)|
    ensures Contains(Join(". ", Group(reviews, s)), Group(reviews, s)[j])
  {
    JoinContainsEach(". ", Group(reviews, s), j);
  }
}
