/**
 * The HTTP layer and its in-memory job store: `POST /analyze/{sku}` creates a
 * job, the background analysis advances it through its steps (fetch 0,
 * clean 1, embed 2, classify 3, aspects 3.5, keywords 4, stats 5, summary 6)
 * and completes it; `GET /status`, `GET /results` and `GET /summary` read it;
 * `POST /feedback` appends a feedback record to a log.
 */
module Routes {
  import opened Wrappers
  import opened Text
  import opened Assoc
  import opened Sentiments
  import opened Py
  import opened Reviews
  import opened Batching
  import opened OpenAiClient
  import CleanTextGraph
  import AspectExtract
  import opened AspectAggregate
  import opened KeywordExtract
  import opened KeywordMatch
  import opened StatsBuild
  import opened RoutesData

  // ---------------------------------------------------------------------------
  // Jobs

  datatype Status = Pending | Processing | Complete

  /** The state shared by the five CleanText sub-steps (html, encoding, emoji, control, whitespace). */
  datatype SubStatus = SubPending | InProgress | Done

  const SubStepNames: seq<string> := ["html", "encoding", "emoji", "control", "whitespace"]

  /** `cleantext_substeps` with every sub-step in state `st`. */
  function SubSteps(st: SubStatus): (d: Dict<string, SubStatus>)
    ensures Keys(d) == SubStepNames
    ensures forall e :: e in d ==> e.1 == st
  {
    [("html", st), ("encoding", st), ("emoji", st), ("control", st), ("whitespace", st)]
  }

  /** The `result` dict of a complete job; `aspectSummary` is added by the first `GET /results`. */
  datatype JobResult = JobResult(summary: string, sku: string, stats: Option<StatsSummary>,
                                 aspectSummary: Option<seq<AspectRecord>>)

  /** One entry of `jobs`: each optional field is a key that may not be set yet. */
  datatype Job = Job(
    status: Status,
    step: real,
    result: Option<JobResult>,
    reviews: Option<seq<RawReview>>,
    substeps: Option<Dict<string, SubStatus>>,
    cleanedReviews: Option<seq<Review>>,
    classifiedReviews: Option<seq<Review>>,
    aspectResults: Option<seq<Option<Json>>>,
    aspectSummary: Option<seq<AspectRecord>>,
    topKeywords: Option<PerSentiment<seq<string>>>,
    keywordMatchedSamples: Option<PerSentiment<Dict<string, seq<string>>>>,
    statsSummary: Option<StatsSummary>)

  /** `{"status": "pending", "result": None, "reviews": None, "step": 0}`. */
  const NewJob: Job := Job(Pending, 0.0, None, None, None, None, None, None, None, None, None, None)

  /** The steps the analysis reports, in the order it reaches them. */
  predicate IsStep(x: real) {
    x == 0.0 || x == 1.0 || x == 2.0 || x == 3.0 || x == 3.5 || x == 4.0 || x == 5.0 || x == 6.0
  }

  /** The code the analysis calls out to: review source, cleaners, OpenAI, classifier, KeyBERT, sampler. */
  datatype Services = Services(
    fetch: string -> seq<RawReview>,
    useLlmClean: bool,
    classic: string -> Cleaned,
    cleaners: CleanTextGraph.Cleaners,
    selector: CleanTextGraph.StepSelector,
    apiKey: Option<string>,
    embed: EmbeddingsApi,
    classifier: Classifier,
    aspectLlm: AspectExtract.AspectLlm,
    parse: AspectExtract.JsonParser,
    keyBert: KeyBert,
    draw: Sampler)

  ghost predicate ServicesOk(env: Services) {
    WellFormed(env.classifier) && ValidSampler(env.draw)
  }

  /** `f"Fetched {len(reviews)} reviews for SKU {sku}"`. */
  function FetchedMessage(n: nat, sku: string): string {
    "Fetched " + NatToString(n) + " reviews for SKU " + sku
  }

  // ---------------------------------------------------------------------------
  // What each collaborator call returns

  /** The graph cleaner over the raw texts, with its default batch size of 100. */
  function LlmCleaned(texts: seq<RawReview>, env: Services): Result<seq<Option<Cleaned>>, PyError> {
    CleanTextGraph.CleanFrom(seq(|texts|, _ => None), RawTexts(texts), CleanTextGraph.DefaultBatchSize as nat, 0,
                             env.cleaners, env.selector)
  }

  function SomeTexts(ts: seq<string>): (r: seq<Option<string>>)
    ensures |r| == |ts| && forall i :: 0 <= i < |ts| ==> r[i] == Some(ts[i])
  {
    seq(|ts|, i requires 0 <= i < |ts| => Some(ts[i]))
  }

  /** `embed_texts(valid_texts)` when there is any valid text, and no embeddings otherwise. */
  function Embeddings(cleaned: seq<Review>, env: Services): Result<seq<Vector>, PyError> {
    if ValidTexts(cleaned) == [] then Success([])
    else EmbedTextsResult(SomeTexts(ValidTexts(cleaned)), env.apiKey, env.embed)
  }

  /** `batch_llm_extract_aspects(...)` with its default batch size of 25. */
  function AspectCall(cleaned: seq<Review>, env: Services): Result<seq<Option<Json>>, PyError> {
    if !KeyConfigured(env.apiKey) then Failure(MissingKey)
    else Success(RunBatchesByLength(AspectExtract.Nones(|cleaned|), CleanValues(cleaned), AspectExtract.DefaultBatchSize as nat, 0,
                            AspectExtract.Worker(env.aspectLlm, env.parse)))
  }

  function RatingOnlyScored(rows: seq<RawReview>): (r: seq<Review>)
    ensures |r| == |rows| && forall i :: 0 <= i < |rows| ==> r[i] == RatingScored(rows[i])
  {
    seq(|rows|, i requires 0 <= i < |rows| => RatingScored(rows[i]))
  }

  /** The keyword samples for all three sentiments. */
  function AllSamples(reviews: seq<Review>, top: PerSentiment<seq<string>>): PerSentiment<Dict<string, seq<string>>> {
    PerSentiment(SamplesOf(reviews, top, Positive), SamplesOf(reviews, top, Neutral), SamplesOf(reviews, top, Negative))
  }

  /** The cleaned reviews after the integer labels are rewritten to their names. */
  function NormalizedLabels(cleaned: seq<Review>): (r: seq<Review>)
    ensures |r| == |cleaned|
    ensures forall i :: 0 <= i < |cleaned| ==> r[i] == cleaned[i].(sentiment := NormalizeLabel(cleaned[i].sentiment))
  {
    seq(|cleaned|, i requires 0 <= i < |cleaned| => cleaned[i].(sentiment := NormalizeLabel(cleaned[i].sentiment)))
  }

  /** The top 25 keywords of each sentiment group. */
  function TopKeywordsOf(reviews: seq<Review>, kb: KeyBert): PerSentiment<seq<string>> {
    PerSentiment(GroupKeywords(Group(reviews, Positive), 25, kb), GroupKeywords(Group(reviews, Neutral), 25, kb),
                 GroupKeywords(Group(reviews, Negative), 25, kb))
  }

  /** Each sentiment's entry is the keywords of that sentiment's group. */
  lemma TopKeywordsOfGroups(reviews: seq<Review>, kb: KeyBert)
    ensures forall s :: TopKeywordsOf(reviews, kb).Get(s) == GroupKeywords(Group(reviews, s), 25, kb)
  {
    forall s ensures TopKeywordsOf(reviews, kb).Get(s) == GroupKeywords(Group(reviews, s), 25, kb) {
      match s
      case Positive =>
      case Neutral =>
      case Negative =>
    }
  }

  // ---------------------------------------------------------------------------
  // What each stage computes from its input

  /**
   * The cleaned text reviews: the classic cleaner on every text, or the
   * graph cleaner's outputs zipped with the texts, where a missing output
   * raises TypeError.
   */
  function CleanedOf(texts: seq<RawReview>, env: Services): Result<seq<Review>, PyError> {
    if !env.useLlmClean then
      Success(seq(|texts|, i requires 0 <= i < |texts| => WithCleaned(texts[i], env.classic(RawText(texts[i])))))
    else match LlmCleaned(texts, env)
      case Failure(e) => Failure(e)
      case Success(batch) => Zipped(texts, batch)
  }

  /** The first position of `i` in `idx`, or `|idx|` when it is absent. */
  function IndexOf(idx: seq<nat>, i: nat): (k: nat)
    ensures k <= |idx|
    ensures k < |idx| ==> idx[k] == i
    ensures forall j :: 0 <= j < k ==> idx[j] != i
  {
    if idx == [] then 0 else if idx[0] == i then 0 else 1 + IndexOf(idx[1..], i)
  }

  /**
   * The reviews with their scores written in: the review at the k-th valid
   * index gets the k-th embedding and its classification, every other one
   * gets none.
   */
  function MergedOf(cleaned: seq<Review>, emb: seq<Vector>, clf: Classifier): seq<Review>
    requires WellFormed(clf)
  {
    var idx := ValidIndices(cleaned);
    var m := Min(|idx|, |emb|);
    seq(|cleaned|, i requires 0 <= i < |cleaned| => ScoredAt(cleaned[i], IndexOf(idx, i), emb, m, clf))
  }

  /** A review scored from the k-th embedding when k is below `m`, and unscored otherwise. */
  function ScoredAt(r: Review, k: nat, emb: seq<Vector>, m: nat, clf: Classifier): Review
    requires WellFormed(clf) && m <= |emb|
  {
    if k < m then Scored(r, Some(emb[k]), Some(ClassifyOne(clf, emb[k]))) else Scored(r, None, None)
  }

  /** The scored reviews: the embedding call's error, or the merged embeddings and classifications. */
  function ScoredOf(cleaned: seq<Review>, env: Services): Result<seq<Review>, PyError>
    requires WellFormed(env.classifier)
  {
    match Embeddings(cleaned, env)
    case Failure(e) => Failure(e)
    case Success(emb) => Success(MergedOf(cleaned, emb, env.classifier))
  }

  /** The scored text reviews of a fetch: partitioned, cleaned, embedded and classified. */
  function ScoredReviews(reviews: seq<RawReview>, env: Services): Result<seq<Review>, PyError>
    requires WellFormed(env.classifier)
  {
    match Partition(reviews)
    case Failure(e) => Failure(e)
    case Success(parts) =>
      match CleanedOf(parts.0, env)
      case Failure(e) => Failure(e)
      case Success(cleaned) => ScoredOf(cleaned, env)
  }

  /** The error the aspect stage raises on the scored reviews, if any; the later stages raise none. */
  function AfterScoringError(scored: seq<Review>, env: Services): Option<PyError> {
    match AspectCall(scored, env)
    case Failure(e) => Some(e)
    case Success(results) =>
      match TableUpTo(results, |results|, scored, 3)
      case Failure(e) => Some(e)
      case Success(_) => None
  }

  /** The error the analysis of a fetch raises, if any: that of the first stage that raises. */
  function AnalysisError(reviews: seq<RawReview>, env: Services): Option<PyError>
    requires WellFormed(env.classifier)
  {
    match ScoredReviews(reviews, env)
    case Failure(e) => Some(e)
    case Success(scored) => AfterScoringError(scored, env)
  }

  /** Rewriting labels changes neither the texts nor who joins which group, so keyword extraction sees the same groups. */
  lemma NormalizeKeepsGroups(cleaned: seq<Review>, normalized: seq<Review>, s: Sentiment)
    requires |normalized| == |cleaned|
    requires forall i :: 0 <= i < |cleaned| ==> normalized[i] == cleaned[i].(sentiment := NormalizeLabel(cleaned[i].sentiment))
    ensures Group(normalized, s) == Group(cleaned, s)
  {
    GroupUpToIsSelect(cleaned, |cleaned|, s);
    GroupUpToIsSelect(normalized, |normalized|, s);
    forall i | 0 <= i < |cleaned| ensures Marks(normalized, s)[i] == Marks(cleaned, s)[i] {
      NormalizeKeepsLabelName(cleaned[i].sentiment);
    }
    assert Marks(normalized, s) == Marks(cleaned, s);
    assert Texts(normalized) == Texts(cleaned);
    assert Texts(cleaned)[..|cleaned|] == Texts(cleaned);
    assert Marks(cleaned, s)[..|cleaned|] == Marks(cleaned, s);
    assert Texts(normalized)[..|cleaned|] == Texts(normalized);
    assert Marks(normalized, s)[..|cleaned|] == Marks(normalized, s);
  }

  // ---------------------------------------------------------------------------
  // Responses

  datatype HttpError = HttpError(status: nat, detail: string)

  datatype StatusView = StatusView(status: Status, step: real, substeps: Option<Dict<string, SubStatus>>)

  datatype SummaryView = SummaryView(summary: string, stats: StatsSummary)

  /** The result dict after `result["aspect_summary"] = job.get("aspect_summary", [])`. */
  function WithAspectSummary(job: Job): (r: JobResult)
    requires job.result.Some?
    ensures r.aspectSummary.Some?
    ensures r.(aspectSummary := job.result.value.aspectSummary) == job.result.value
  {
    job.result.value.(aspectSummary := Some(job.aspectSummary.GetOr([])))
  }

  /** Reading the results a second time returns what the first read returned. */
  lemma WithAspectSummaryIdempotent(job: Job)
    requires job.result.Some?
    ensures WithAspectSummary(job.(result := Some(WithAspectSummary(job)))) == WithAspectSummary(job)
  {
  }

  /** One line of the feedback log. */
  datatype Feedback = Feedback(user: Json, sku: Json, summary: Json, feedback: Json, comment: Json, timestamp: Json)

  /** `payload.get(key)`, with None for a missing key. */
  function Arg(payload: seq<(string, Json)>, key: string): Json {
    Field(payload, key).GetOr(JNull)
  }

  /** The record stored for a feedback payload; a missing or falsy timestamp becomes `now`. */
  function FeedbackRecord(payload: seq<(string, Json)>, now: string): (f: Feedback)
    ensures Truthy(Arg(payload, "timestamp")) ==> f.timestamp == Arg(payload, "timestamp")
    ensures !Truthy(Arg(payload, "timestamp")) ==> f.timestamp == JStr(now)
    ensures now != [] ==> Truthy(f.timestamp)
    ensures f.user == Arg(payload, "user") && f.sku == Arg(payload, "sku") && f.comment == Arg(payload, "comment")
  {
    var ts := Arg(payload, "timestamp");
    Feedback(Arg(payload, "user"), Arg(payload, "sku"), Arg(payload, "summary"), Arg(payload, "feedback"),
             Arg(payload, "comment"), if Truthy(ts) then ts else JStr(now))
  }

  /**
   * `POST /feedback`: the record is appended to the log; a failed write is a
   * 500 whose detail carries the error text, and leaves the log as it was.
   */
  function SubmitFeedback(log: seq<Feedback>, payload: seq<(string, Json)>, now: string, writeError: Option<string>)
    : (r: (Result<string, HttpError>, seq<Feedback>))
    ensures writeError.None? <==> r.0.Success?
    ensures r.0.Success? ==> r.0.value == "success" && r.1 == log + [FeedbackRecord(payload, now)]
    ensures r.0.Failure? ==> r.0.error.status == 500 && StartsWith(r.0.error.detail, "Failed to store feedback: ") && r.1 == log
  {
    if writeError.Some? then (Failure(HttpError(500, "Failed to store feedback: " + writeError.value)), log)
    else (Success("success"), log + [FeedbackRecord(payload, now)])
  }

  // ---------------------------------------------------------------------------
  // The background analysis, stage by stage: each stage takes the job as it
  // stands and returns it as the stage leaves it, with the stage's output.

  /** Status processing, step 0, every CleanText sub-step pending; then the capped fetch. */
  method FetchStage(job: Job, sku: string, env: Services) returns (job': Job, reviews: seq<RawReview>)
    ensures reviews == Take(env.fetch(sku), FetchCap)
    ensures job' == job.(status := Processing, step := 0.0, substeps := Some(SubSteps(SubPending)), reviews := Some(reviews))
  {
    job' := job.(status := Processing, step := 0.0, substeps := Some(SubSteps(SubPending)));
    reviews := FetchCapped(env.fetch(sku));
    job' := job'.(reviews := Some(reviews));
  }

  /**
   * Step 1: every sub-step in progress, the text reviews cleaned (by the
   * graph pipeline or the classic one), every sub-step done and the cleaned
   * reviews stored. A failing graph pipeline leaves the sub-steps in progress.
   */
  method CleanStage(job: Job, texts: seq<RawReview>, env: Services) returns (job': Job, r: Result<seq<Review>, PyError>)
    ensures !env.useLlmClean ==> r.Success? && |r.value| == |texts|
    ensures !env.useLlmClean ==>
      forall i :: 0 <= i < |texts| ==> r.value[i] == WithCleaned(texts[i], env.classic(RawText(texts[i])))
    ensures env.useLlmClean && LlmCleaned(texts, env).Failure? ==> r == Failure(LlmCleaned(texts, env).error)
    ensures env.useLlmClean && LlmCleaned(texts, env).Success? ==>
      var batch := LlmCleaned(texts, env).value;
      (r.Failure? <==> exists j :: 0 <= j < Min(|texts|, |batch|) && batch[j].None?) &&
      (r.Success? ==> |r.value| == Min(|texts|, |batch|)) &&
      (r.Success? ==> forall j :: 0 <= j < |r.value| ==> batch[j].Some? && r.value[j] == WithCleaned(texts[j], batch[j].value))
    ensures r.Failure? ==> job' == job.(step := 1.0, substeps := Some(SubSteps(InProgress)))
    ensures r.Success? ==> job' == job.(step := 1.0, substeps := Some(SubSteps(Done)), cleanedReviews := Some(r.value))
    ensures r == CleanedOf(texts, env)
  {
    job' := job.(step := 1.0, substeps := Some(SubSteps(InProgress)));
    if env.useLlmClean {
      var batch := CleanTextGraph.CleanReviewsLanggraph(RawTexts(texts), CleanTextGraph.DefaultBatchSize, env.cleaners, env.selector);
      if batch.Failure? {
        return job', Failure(batch.error);
      }
      r := ZipCleaned(texts, batch.value);
      if r.Failure? {
        return;
      }
    } else {
      var cleaned := CleanClassic(texts, env.classic);
      r := Success(cleaned);
      assert cleaned == CleanedOf(texts, env).value;
    }
    job' := job'.(substeps := Some(SubSteps(Done)), cleanedReviews := Some(r.value));
  }

  /** `embed_texts` on the non-blank clean texts, skipped when there are none. */
  method Embed(cleaned: seq<Review>, env: Services) returns (r: Result<seq<Vector>, PyError>)
    ensures r == Embeddings(cleaned, env)
  {
    var texts := ValidTexts(cleaned);
    if texts == [] {
      return Success([]);
    }
    r := EmbedTexts(SomeTexts(texts), env.apiKey, env.embed);
  }

  /**
   * The k-th embedding and its classification are written into the review
   * at the k-th non-blank index; every other review gets no embedding, no
   * label and no probabilities.
   */
  method ClassifyAndMerge(cleaned: seq<Review>, emb: seq<Vector>, clf: Classifier) returns (merged: seq<Review>)
    requires WellFormed(clf)
    ensures |merged| == |cleaned|
    ensures var idx := ValidIndices(cleaned);
      forall k :: 0 <= k < Min(|idx|, |emb|) ==>
        merged[idx[k]] == Scored(cleaned[idx[k]], Some(emb[k]), Some(ClassifyOne(clf, emb[k])))
    ensures var idx := ValidIndices(cleaned);
      forall i :: 0 <= i < |cleaned| && i !in idx[..Min(|idx|, |emb|)] ==> merged[i] == Scored(cleaned[i], None, None)
    ensures merged == MergedOf(cleaned, emb, clf)
  {
    var idx := ValidIndices(cleaned);
    var fullEmbeddings := ScatterBack(|cleaned|, idx, emb);
    var classes: seq<Classification> := [];
    if emb != [] {
      classes := ClassifyEmbeddings(emb, clf);
    }
    var fullClasses := ScatterBack(|cleaned|, idx, classes);
    merged := MergeScores(cleaned, fullEmbeddings, fullClasses);
    var m := Min(|idx|, |emb|);
    assert Min(|idx|, |classes|) == m;
    forall k | 0 <= k < m
      ensures merged[idx[k]] == Scored(cleaned[idx[k]], Some(emb[k]), Some(ClassifyOne(clf, emb[k])))
    {
      assert fullEmbeddings[idx[k]] == Some(emb[k]) && fullClasses[idx[k]] == Some(classes[k]);
    }
    forall i | 0 <= i < |cleaned| && i !in idx[..m] ensures merged[i] == Scored(cleaned[i], None, None) {
      assert fullEmbeddings[i] == None && fullClasses[i] == None;
    }
    MergedOfAligned(cleaned, emb, clf, merged);
  }

  /** The review at the k-th valid index is scored from the k-th embedding, and every other review is unscored. */
  ghost predicate AlignedMerge(cleaned: seq<Review>, emb: seq<Vector>, clf: Classifier, merged: seq<Review>)
    requires WellFormed(clf)
  {
    var idx := ValidIndices(cleaned);
    |merged| == |cleaned| &&
    (forall k :: 0 <= k < Min(|idx|, |emb|) ==>
      merged[idx[k]] == Scored(cleaned[idx[k]], Some(emb[k]), Some(ClassifyOne(clf, emb[k])))) &&
    (forall i :: 0 <= i < |cleaned| && i !in idx[..Min(|idx|, |emb|)] ==> merged[i] == Scored(cleaned[i], None, None))
  }

  /** An aligned merge is `MergedOf`. */
  lemma MergedOfAligned(cleaned: seq<Review>, emb: seq<Vector>, clf: Classifier, merged: seq<Review>)
    requires WellFormed(clf) && AlignedMerge(cleaned, emb, clf, merged)
    ensures merged == MergedOf(cleaned, emb, clf)
  {
    var mo := MergedOf(cleaned, emb, clf);
    forall i | 0 <= i < |cleaned| ensures merged[i] == mo[i] {
      MergedOfAlignedAt(cleaned, emb, clf, merged, i);
    }
    assert merged == mo;
  }

  lemma MergedOfAlignedAt(cleaned: seq<Review>, emb: seq<Vector>, clf: Classifier, merged: seq<Review>, i: nat)
    requires WellFormed(clf) && AlignedMerge(cleaned, emb, clf, merged) && i < |cleaned|
    ensures merged[i] == MergedOf(cleaned, emb, clf)[i]
  {
    var idx := ValidIndices(cleaned);
    var m := Min(|idx|, |emb|);
    var k := IndexOf(idx, i);
    assert MergedOf(cleaned, emb, clf)[i] == ScoredAt(cleaned[i], k, emb, m, clf);
    if k < m {
      assert idx[k] == i;
    }
  }

  /**
   * Steps 2 and 3: embedding, then classification and the write-back. The
   * scored reviews replace the stored cleaned reviews, which are the same
   * objects.
   */
  method ScoreStage(job: Job, cleaned: seq<Review>, env: Services) returns (job': Job, r: Result<seq<Review>, PyError>)
    requires WellFormed(env.classifier)
    ensures r.Failure? <==> Embeddings(cleaned, env).Failure?
    ensures r.Failure? ==> r.error == Embeddings(cleaned, env).error && job' == job.(step := 2.0)
    ensures r.Success? ==> |r.value| == |cleaned| && job' == job.(step := 3.0, cleanedReviews := Some(r.value))
    ensures r.Success? ==>
      var emb := Embeddings(cleaned, env).value;
      var idx := ValidIndices(cleaned);
      (forall k :: 0 <= k < Min(|idx|, |emb|) ==>
        r.value[idx[k]] == Scored(cleaned[idx[k]], Some(emb[k]), Some(ClassifyOne(env.classifier, emb[k])))) &&
      (forall i :: 0 <= i < |cleaned| && i !in idx[..Min(|idx|, |emb|)] ==> r.value[i] == Scored(cleaned[i], None, None))
    ensures r == ScoredOf(cleaned, env)
  {
    job' := job.(step := 2.0);
    var emb := Embed(cleaned, env);
    if emb.Failure? {
      return job', Failure(emb.error);
    }
    job' := job'.(step := 3.0);
    var merged := ClassifyAndMerge(cleaned, emb.value, env.classifier);
    job' := job'.(cleanedReviews := Some(merged));
    r := Success(merged);
  }

  /**
   * Step 3.5: aspects are extracted from every clean text and stored, then
   * aggregated into the top 10 aspects with up to 3 samples each, and stored.
   */
  method AspectStage(job: Job, cleaned: seq<Review>, env: Services) returns (job': Job, r: Result<seq<AspectRecord>, PyError>)
    ensures AspectCall(cleaned, env).Failure? ==> r == Failure(AspectCall(cleaned, env).error) && job' == job.(step := 3.5)
    ensures AspectCall(cleaned, env).Success? ==>
      var results := AspectCall(cleaned, env).value;
      var table := TableUpTo(results, |results|, cleaned, 3);
      (table.Failure? ==> r == Failure(table.error) && job' == job.(step := 3.5, aspectResults := Some(results))) &&
      (table.Success? ==> r == Success(Summary(table.value, 10)) &&
                          job' == job.(step := 3.5, aspectResults := Some(results), aspectSummary := Some(r.value)))
  {
    job' := job.(step := 3.5);
    var results := AspectExtract.BatchLlmExtractAspects(CleanValues(cleaned), AspectExtract.DefaultBatchSize,
                                                        env.apiKey, env.aspectLlm, env.parse);
    if results.Failure? {
      return job', Failure(results.error);
    }
    job' := job'.(aspectResults := Some(results.value));
    r := AggregateAspectSentiment(results.value, cleaned, 10, 3);
    if r.Failure? {
      return;
    }
    job' := job'.(aspectSummary := Some(r.value));
  }

  /**
   * Step 4: the top 25 keywords of each sentiment are stored; then the
   * integer labels are rewritten in place (which both stored review lists
   * see), and the keyword-matched samples are computed and stored.
   */
  method KeywordStage(job: Job, cleaned: seq<Review>, ratingOnly: seq<Review>, env: Services)
    returns (job': Job, normalized: seq<Review>, top: PerSentiment<seq<string>>, samples: PerSentiment<Dict<string, seq<string>>>)
    ensures |normalized| == |cleaned|
    ensures forall i :: 0 <= i < |cleaned| ==> normalized[i] == cleaned[i].(sentiment := NormalizeLabel(cleaned[i].sentiment))
    ensures forall s :: top.Get(s) == GroupKeywords(Group(normalized, s), 25, env.keyBert)
    ensures normalized == NormalizedLabels(cleaned) && top == TopKeywordsOf(normalized, env.keyBert)
    ensures samples == AllSamples(normalized, top)
    ensures job' == job.(step := 4.0, topKeywords := Some(top), cleanedReviews := Some(normalized),
                         classifiedReviews := Some(normalized + ratingOnly), keywordMatchedSamples := Some(samples))
  {
    var requests;
    top, requests := ExtractTopKeywordsBySentiment(cleaned, 25, env.keyBert);
    normalized := NormalizeLabels(cleaned);
    forall s ensures top.Get(s) == GroupKeywords(Group(normalized, s), 25, env.keyBert) {
      NormalizeKeepsGroups(cleaned, normalized, s);
    }
    assert top == PerSentiment(top.Get(Positive), top.Get(Neutral), top.Get(Negative));
    samples := KeywordMatchedSamples(normalized, top);
    assert samples == AllSamples(normalized, top) by {
      assert samples.Get(Positive) == SamplesOf(normalized, top, Positive);
      assert samples.Get(Neutral) == SamplesOf(normalized, top, Neutral);
      assert samples.Get(Negative) == SamplesOf(normalized, top, Negative);
    }
    job' := job.(step := 4.0, topKeywords := Some(top), cleanedReviews := Some(normalized),
                 classifiedReviews := Some(normalized + ratingOnly), keywordMatchedSamples := Some(samples));
  }

  /**
   * Step 5 (stats over every review, with 20 samples per sentiment), then
   * step 6 and completion. With a non-negative sample count the stats step
   * cannot raise, so this stage always completes the job.
   */
  method StatsStage(job: Job, sku: string, fetched: nat, all: seq<Review>, top: PerSentiment<seq<string>>,
                    samples: PerSentiment<Dict<string, seq<string>>>, env: Services) returns (job': Job, stats: StatsSummary)
    requires ValidSampler(env.draw)
    ensures SampleReviews(all, 20, env.draw).Success? && stats.sampleReviews == SampleReviews(all, 20, env.draw).value
    ensures stats.sentimentCounts == SentimentCounts(all) && stats.sentimentPercentages == SentimentPercentages(all)
    ensures stats.topKeywords == top && stats.keywordMatchedSamples == samples
    ensures SummaryOf(all, top, samples, 20, env.draw) == Success(stats)
    ensures job' == job.(step := 6.0, statsSummary := Some(stats), status := Complete,
                         result := Some(JobResult(FetchedMessage(fetched, sku), sku, Some(stats), None)))
  {
    job' := job.(step := 5.0);
    var r := BuildStatsSummary(all, top, samples, 20, env.draw);
    assert r.Success?;
    stats := r.value;
    job' := job'.(statsSummary := Some(stats), step := 6.0);
    job' := job'.(status := Complete, result := Some(JobResult(FetchedMessage(fetched, sku), sku, job'.statsSummary, None)));
  }

  /**
   * What a complete job holds, given the scored text reviews and the
   * rating-only rows: step 6; the scored reviews with their labels rewritten
   * as cleaned reviews, followed by the scored rating-only rows as classified
   * reviews; the aspects extracted from the scored reviews and their summary;
   * the keywords and keyword samples of the cleaned reviews; the stats
   * summary of the classified reviews; and a result naming the number of
   * reviews fetched.
   */
  ghost predicate Completed(job: Job, sku: string, fetched: nat, scored: seq<Review>, ratingRows: seq<RawReview>, env: Services)
    requires ValidSampler(env.draw)
  {
    var normalized := NormalizedLabels(scored);
    var all := normalized + RatingOnlyScored(ratingRows);
    var top := TopKeywordsOf(normalized, env.keyBert);
    var results := AspectCall(scored, env);
    var stats := SummaryOf(all, top, AllSamples(normalized, top), 20, env.draw);
    results.Success? && TableUpTo(results.value, |results.value|, scored, 3).Success? && stats.Success? &&
    job.status == Complete && job.step == 6.0 &&
    job.cleanedReviews == Some(normalized) && job.classifiedReviews == Some(all) &&
    job.aspectResults == Some(results.value) &&
    job.aspectSummary == Some(Summary(TableUpTo(results.value, |results.value|, scored, 3).value, 10)) &&
    job.topKeywords == Some(top) && job.keywordMatchedSamples == Some(AllSamples(normalized, top)) &&
    job.statsSummary == Some(stats.value) &&
    job.result == Some(JobResult(FetchedMessage(fetched, sku), sku, Some(stats.value), None))
  }

  /**
   * In a complete job no label is left an integer, the stats count the
   * sentiments of the classified reviews, and the keywords of each
   * sentiment are those of its group of cleaned reviews.
   */
  lemma CompletedJobFacts(job: Job, sku: string, fetched: nat, scored: seq<Review>, ratingRows: seq<RawReview>, env: Services)
    requires ValidSampler(env.draw) && Completed(job, sku, fetched, scored, ratingRows, env)
    ensures job.cleanedReviews.Some? && |job.cleanedReviews.value| == |scored|
    ensures forall r :: r in job.cleanedReviews.value ==> !r.sentiment.IntLabel?
    ensures job.classifiedReviews == Some(job.cleanedReviews.value + RatingOnlyScored(ratingRows))
    ensures job.statsSummary.Some? && job.statsSummary.value.sentimentCounts == SentimentCounts(job.classifiedReviews.value)
    ensures job.topKeywords.Some? &&
      forall s :: job.topKeywords.value.Get(s) == GroupKeywords(Group(job.cleanedReviews.value, s), 25, env.keyBert)
  {
    var normalized := NormalizedLabels(scored);
    var all := normalized + RatingOnlyScored(ratingRows);
    var top := TopKeywordsOf(normalized, env.keyBert);
    var stats := SummaryOf(all, top, AllSamples(normalized, top), 20, env.draw);
    assert job.cleanedReviews == Some(normalized) && job.classifiedReviews == Some(all);
    assert job.topKeywords == Some(top) && job.statsSummary == Some(stats.value);
    assert stats.value.sentimentCounts == SentimentCounts(all);
    TopKeywordsOfGroups(normalized, env.keyBert);
    forall r | r in normalized ensures !r.sentiment.IntLabel? {
      var i :| 0 <= i < |normalized| && normalized[i] == r;
    }
  }

  /** The analysis from the scored text reviews on: rating-only scoring, aspects, keywords, stats. */
  method AnalyzeScored(job: Job, sku: string, fetched: nat, scored: seq<Review>, ratingRows: seq<RawReview>, env: Services)
    returns (job': Job, err: Option<PyError>)
    requires ServicesOk(env) && job.status == Processing
    ensures job'.reviews == job.reviews && IsStep(job'.step)
    ensures err.None? <==> job'.status == Complete
    ensures err.Some? ==> job'.status == Processing && job'.result == job.result
    ensures err == AfterScoringError(scored, env)
    ensures err.None? ==> Completed(job', sku, fetched, scored, ratingRows, env)
  {
    var ratingOnly := ScoreRatingOnly(ratingRows);
    assert ratingOnly == RatingOnlyScored(ratingRows);
    job' := job.(classifiedReviews := Some(scored + ratingOnly));
    var aspects;
    job', aspects := AspectStage(job', scored, env);
    if aspects.Failure? {
      return job', Some(aspects.error);
    }
    var normalized, top, samples;
    job', normalized, top, samples := KeywordStage(job', scored, ratingOnly, env);
    var stats;
    job', stats := StatsStage(job', sku, fetched, normalized + ratingOnly, top, samples, env);
    err := None;
  }

  /**
   * What the analysis of `sku` leaves in a job: the capped fetch as its
   * reviews, the error of the first stage that raises, and, when none
   * raises, the contents of a complete job built from that fetch.
   */
  ghost predicate Analysed(job: Job, err: Option<PyError>, sku: string, env: Services)
    requires ServicesOk(env)
  {
    var reviews := Take(env.fetch(sku), FetchCap);
    job.reviews == Some(reviews) && err == AnalysisError(reviews, env) &&
    (err.None? ==> Completed(job, sku, |reviews|, ScoredReviews(reviews, env).value, Partition(reviews).value.1, env))
  }

  /**
   * The whole background analysis of `sku` on a job. It completes exactly
   * when no stage raises; a stage that raises leaves the job processing at
   * that stage's step with its result untouched. Fetching nothing raises
   * KeyError at step 0, because the empty DataFrame has no review column.
   */
  method Analysis(job: Job, sku: string, env: Services) returns (job': Job, err: Option<PyError>)
    requires ServicesOk(env)
    ensures job'.reviews == Some(Take(env.fetch(sku), FetchCap)) && IsStep(job'.step)
    ensures err.None? <==> job'.status == Complete
    ensures err.None? ==> job'.result.Some?
    ensures err.Some? ==> job'.status == Processing && job'.result == job.result
    ensures env.fetch(sku) == [] ==> err == Some(KeyError("customer_review")) && job'.step == 0.0
    ensures err.None? ==> env.fetch(sku) != []
    ensures Analysed(job', err, sku, env)
  {
    var reviews;
    job', reviews := FetchStage(job, sku, env);
    var parts := Partition(reviews);
    if parts.Failure? {
      return job', Some(parts.error);
    }
    var (texts, ratingRows) := parts.value;
    var cleaned;
    job', cleaned := CleanStage(job', texts, env);
    if cleaned.Failure? {
      return job', Some(cleaned.error);
    }
    var scored;
    job', scored := ScoreStage(job', cleaned.value, env);
    if scored.Failure? {
      return job', Some(scored.error);
    }
    job', err := AnalyzeScored(job', sku, |reviews|, scored.value, ratingRows, env);
  }

  // ---------------------------------------------------------------------------
  // The job store

  class JobStore {
    var jobs: map<string, Job>

    /** Every complete job has its result. */
    ghost predicate Valid()
      reads this
    {
      forall id :: id in jobs && jobs[id].status == Complete ==> jobs[id].result.Some?
    }

    constructor ()
      ensures jobs == map[] && Valid()
    {
      jobs := map[];
    }

    /** `POST /analyze/{sku}`: registers a pending job under a fresh id (a uuid4) and returns the id. */
    method AnalyzeSku(sku: string, freshId: string) returns (jobId: string)
      requires Valid() && freshId !in jobs
      modifies this
      ensures Valid()
      ensures jobId == freshId && jobs == old(jobs)[freshId := NewJob]
    {
      jobs := jobs[freshId := NewJob];
      jobId := freshId;
    }

    /** `GET /status/{job_id}`: the sub-steps are shown only while the job is cleaning. */
    function GetStatus(id: string): (r: Result<StatusView, HttpError>)
      reads this
      ensures id !in jobs <==> r.Failure?
      ensures r.Failure? ==> r.error == HttpError(404, "Job not found")
      ensures r.Success? ==> r.value.status == jobs[id].status && r.value.step == jobs[id].step
      ensures r.Success? ==> (r.value.substeps.Some? <==> jobs[id].step == 1.0 && jobs[id].substeps.Some?)
      ensures r.Success? && r.value.substeps.Some? ==> r.value.substeps == jobs[id].substeps
    {
      if id !in jobs then Failure(HttpError(404, "Job not found"))
      else
        var job := jobs[id];
        Success(StatusView(job.status, job.step, if job.step == 1.0 then job.substeps else None))
    }

    /**
     * `GET /results/{job_id}`: a 404 unless the job is complete; otherwise the
     * aspect summary is written into the stored result, which is returned.
     */
    method GetResults(id: string) returns (r: Result<JobResult, HttpError>)
      requires Valid()
      modifies this
      ensures Valid()
      ensures (id !in old(jobs) || old(jobs)[id].status != Complete) ==>
        r == Failure(HttpError(404, "Results not available")) && jobs == old(jobs)
      ensures id in old(jobs) && old(jobs)[id].status == Complete ==>
        r == Success(WithAspectSummary(old(jobs)[id])) && jobs == old(jobs)[id := old(jobs)[id].(result := Some(r.value))]
    {
      if id !in jobs || jobs[id].status != Complete {
        return Failure(HttpError(404, "Results not available"));
      }
      var result := WithAspectSummary(jobs[id]);
      jobs := jobs[id := jobs[id].(result := Some(result))];
      return Success(result);
    }

    /**
     * `GET /summary/{job_id}`: a 404 without a stats summary; otherwise the
     * generated summary, or a 500 carrying it when it reports an error.
     */
    function GetSummary(id: string, gpt: StatsSummary -> string): (r: Result<SummaryView, HttpError>)
      reads this
      ensures (id !in jobs || jobs[id].statsSummary.None?) ==>
        r == Failure(HttpError(404, "Stats summary not available for this job."))
      ensures id in jobs && jobs[id].statsSummary.Some? ==>
        (r.Failure? <==> StartsWith(gpt(jobs[id].statsSummary.value), "[ERROR]"))
      ensures id in jobs && jobs[id].statsSummary.Some? && r.Failure? ==>
        r.error == HttpError(500, gpt(jobs[id].statsSummary.value))
      ensures r.Success? ==> (id in jobs && jobs[id].statsSummary == Some(r.value.stats) &&
                              r.value.summary == gpt(r.value.stats) && !StartsWith(r.value.summary, "[ERROR]"))
    {
      if id !in jobs || jobs[id].statsSummary.None? then Failure(HttpError(404, "Stats summary not available for this job."))
      else
        var stats := jobs[id].statsSummary.value;
        var summary := gpt(stats);
        if StartsWith(summary, "[ERROR]") then Failure(HttpError(500, summary))
        else Success(SummaryView(summary, stats))
    }

    /**
     * `run_analysis_async` for job `id`: the job is replaced by what the
     * analysis leaves, and no other job changes.
     */
    method RunAnalysis(sku: string, id: string, env: Services) returns (err: Option<PyError>)
      requires Valid() && id in jobs && ServicesOk(env)
      modifies this
      ensures Valid()
      ensures id in jobs && jobs == old(jobs)[id := jobs[id]]
      ensures err.None? <==> jobs[id].status == Complete
      ensures err.Some? ==> jobs[id].result == old(jobs)[id].result
      ensures Analysed(jobs[id], err, sku, env)
    {
      var job;
      job, err := Analysis(jobs[id], sku, env);
      Store(id, job);
    }

    /** Writes a job back under its id; a complete job carries its result, so the store stays valid. */
    method Store(id: string, job: Job)
      requires Valid() && (job.status == Complete ==> job.result.Some?)
      modifies this
      ensures Valid() && jobs == old(jobs)[id := job]
    {
      jobs := jobs[id := job];
    }
  }
}
