/**
 * The OpenAI-facing helpers: embedding in batches of 2048, classification of
 * embeddings by a probabilistic classifier, and the cleaning-step selection
 * call with its output check and fallback. The remote endpoints, the
 * tokenizer and the pickled classifier are parameters.
 */
module OpenAiClient {
  import opened Wrappers
  import opened Text
  import opened Assoc
  import opened Sentiments
  import opened Py
  import opened Reviews
  import opened Batching

  /** `if not api_key`: the key is unset or empty. */
  predicate KeyConfigured(apiKey: Option<string>) {
    apiKey.Some? && apiKey.value != []
  }

  const MissingKey: PyError := RuntimeError("OPENAI_API_KEY not set in environment")

  // ---------------------------------------------------------------------------
  // embed_texts

  const EmbedBatchSize: nat := 2048

  /** An embeddings endpoint: one vector per input on success. */
  type EmbeddingsApi = seq<string> -> Result<seq<Vector>, PyError>

  /** The inputs kept for embedding: strings (`Some`) that are not blank, in order. */
  function EmbeddableTexts(texts: seq<Option<string>>): (r: seq<string>)
    ensures |r| <= |texts|
    ensures forall i :: 0 <= i < |r| ==> !IsBlank(r[i])
    ensures forall t :: t in r <==> Some(t) in texts && !IsBlank(t)
  {
    if texts == [] then []
    else
      var rest := EmbeddableTexts(texts[1..]);
      assert texts == [texts[0]] + texts[1..];
      if texts[0].Some? && !IsBlank(texts[0].value) then [texts[0].value] + rest else rest
  }

  /** `acc + x` inside a result. */
  function Prepend<T>(acc: seq<T>, r: Result<seq<T>, PyError>): Result<seq<T>, PyError> {
    match r
    case Success(x) => Success(acc + x)
    case Failure(e) => Failure(e)
  }

  lemma PrependLaws<T>(a: seq<T>, b: seq<T>, r: Result<seq<T>, PyError>)
    ensures Prepend([], r) == r
    ensures Prepend(a, Prepend(b, r)) == Prepend(a + b, r)
  {
    if r.Success? {
      assert [] + r.value == r.value;
      assert a + (b + r.value) == (a + b) + r.value;
    }
  }

  /** The vectors of the batches from `i` on, concatenated; the first failing request fails it all. */
  function EmbedBatches(input: seq<string>, i: nat, api: EmbeddingsApi): Result<seq<Vector>, PyError>
    decreases |input| - i
  {
    if i >= |input| then Success([])
    else
      match api(Batch(input, i, EmbedBatchSize))
      case Failure(e) => Failure(e)
      case Success(v) => Prepend(v, EmbedBatches(input, i + EmbedBatchSize, api))
  }

  /** What `embed_texts` returns or raises. */
  function EmbedTextsResult(texts: seq<Option<string>>, apiKey: Option<string>, api: EmbeddingsApi): Result<seq<Vector>, PyError> {
    var input := EmbeddableTexts(texts);
    if input == [] then Failure(ValueError("No valid texts to embed: input is empty after filtering."))
    else if !KeyConfigured(apiKey) then Failure(MissingKey)
    else EmbedBatches(input, 0, api)
  }

  /**
   * `embed_texts`: filters the inputs, fails with ValueError when none is
   * left (before the key is read), then requests each batch of at most 2048
   * texts in order and extends the output with its vectors.
   */
  method EmbedTexts(texts: seq<Option<string>>, apiKey: Option<string>, api: EmbeddingsApi)
    returns (r: Result<seq<Vector>, PyError>)
    ensures r == EmbedTextsResult(texts, apiKey, api)
  {
    var input := EmbeddableTexts(texts);
    if input == [] {
      return Failure(ValueError("No valid texts to embed: input is empty after filtering."));
    }
    if !KeyConfigured(apiKey) {
      return Failure(MissingKey);
    }
    var all: seq<Vector> := [];
    var i := 0;
    PrependLaws(all, all, EmbedBatches(input, 0, api));
    while i < |input|
      invariant i <= |input| + EmbedBatchSize
      invariant EmbedBatches(input, 0, api) == Prepend(all, EmbedBatches(input, i, api))
      decreases |input| - i
    {
      var response := api(Batch(input, i, EmbedBatchSize));
      if response.Failure? {
        return Failure(response.error);
      }
      PrependLaws(all, response.value, EmbedBatches(input, i + EmbedBatchSize, api));
      all := all + response.value;
      i := i + EmbedBatchSize;
    }
    assert all + [] == all;
    return Success(all);
  }

  /** The endpoint answers every batch of the input with one vector per text. */
  predicate AnswersEachText(input: seq<string>, i: nat, api: EmbeddingsApi)
    decreases |input| - i
  {
    i >= |input| ||
    (api(Batch(input, i, EmbedBatchSize)).Success? &&
     |api(Batch(input, i, EmbedBatchSize)).value| == |Batch(input, i, EmbedBatchSize)| &&
     AnswersEachText(input, i + EmbedBatchSize, api))
  }

  lemma {:induction false} EmbedBatchesLength(input: seq<string>, i: nat, api: EmbeddingsApi)
    requires i <= |input| && AnswersEachText(input, i, api)
    ensures EmbedBatches(input, i, api).Success?
    ensures |EmbedBatches(input, i, api).value| == |input| - i
    decreases |input| - i
  {
    if i < |input| && i + EmbedBatchSize < |input| {
      EmbedBatchesLength(input, i + EmbedBatchSize, api);
    }
  }

  /**
   * With a key and an endpoint that answers each text, `embed_texts` returns
   * exactly one vector per non-blank input; with nothing to embed it raises
   * ValueError whatever the key.
   */
  lemma EmbedTextsOnePerText(texts: seq<Option<string>>, apiKey: Option<string>, api: EmbeddingsApi)
    ensures EmbeddableTexts(texts) == [] ==> EmbedTextsResult(texts, apiKey, api).Failure? && EmbedTextsResult(texts, apiKey, api).error.ValueError?
    ensures EmbeddableTexts(texts) != [] && KeyConfigured(apiKey) && AnswersEachText(EmbeddableTexts(texts), 0, api) ==>
      EmbedTextsResult(texts, apiKey, api).Success? && |EmbedTextsResult(texts, apiKey, api).value| == |EmbeddableTexts(texts)|
  {
    var input := EmbeddableTexts(texts);
    if input != [] && KeyConfigured(apiKey) && AnswersEachText(input, 0, api) {
      EmbedBatchesLength(input, 0, api);
    }
  }

  // ---------------------------------------------------------------------------
  // classify_embeddings

  /** A fitted probabilistic classifier: its `classes_` and its `predict_proba` on one row. */
  datatype Classifier = Classifier(classes: seq<Label>, proba: Vector -> seq<real>)

  /** `np.argmax(row)`: the first position of the largest value. */
  function ArgMax(row: seq<real>): (k: nat)
    requires row != []
    ensures k < |row|
    ensures forall j :: 0 <= j < |row| ==> row[j] <= row[k]
    ensures forall j :: 0 <= j < k ==> row[j] < row[k]
  {
    if |row| == 1 then 0
    else
      var k := ArgMax(row[..|row| - 1]);
      if row[|row| - 1] > row[k] then |row| - 1 else k
  }

  /** `{str(cls): prob for cls, prob in zip(classes, row)}`. */
  function ProbabilityDict(classes: seq<Label>, row: seq<real>): (d: Dict<string, real>)
    decreases |classes|
  {
    if classes == [] || row == [] then []
    else
      var n := Min(|classes|, |row|) - 1;
      Put(ProbabilityDict(classes[..n], row[..n]), Str(classes[n]), row[n])
  }

  lemma {:induction false} ProbabilityDictGet(classes: seq<Label>, row: seq<real>, i: nat)
    requires i < |classes| == |row|
    requires forall j :: i < j < |classes| ==> Str(classes[j]) != Str(classes[i])
    ensures Get(ProbabilityDict(classes, row), Str(classes[i])) == Some(row[i])
    decreases |classes|
  {
    var n := |classes| - 1;
    if i < n {
      ProbabilityDictGet(classes[..n], row[..n], i);
    }
  }

  /** The classifier's answer for one embedding. */
  function ClassifyOne(clf: Classifier, v: Vector): Classification
    requires |clf.proba(v)| == |clf.classes| > 0
  {
    var row := clf.proba(v);
    Classification(clf.classes[ArgMax(row)], ProbabilityDict(clf.classes, row))
  }

  /** The classifier returns one probability per class for every row. */
  ghost predicate WellFormed(clf: Classifier) {
    |clf.classes| > 0 && forall v :: |clf.proba(v)| == |clf.classes|
  }

  /**
   * `classify_embeddings`: one record per embedding, in order, whose label is
   * the class of highest probability (the first on a tie) and whose
   * probabilities are keyed by `str(class)`.
   */
  method ClassifyEmbeddings(embeddings: seq<Vector>, clf: Classifier) returns (results: seq<Classification>)
    requires WellFormed(clf)
    ensures |results| == |embeddings|
    ensures forall i :: 0 <= i < |embeddings| ==> results[i] == ClassifyOne(clf, embeddings[i])
  {
    results := [];
    for i := 0 to |embeddings|
      invariant |results| == i
      invariant forall j :: 0 <= j < i ==> results[j] == ClassifyOne(clf, embeddings[j])
    {
      results := results + [ClassifyOne(clf, embeddings[i])];
    }
  }

  /**
   * Each record's label has the highest probability, no earlier class has as
   * high a one, and, when the class names are distinct, the probability of
   * every class is found under its name.
   */
  lemma ClassifyOneSpec(clf: Classifier, v: Vector)
    requires WellFormed(clf)
    ensures var row := clf.proba(v);
            exists k :: 0 <= k < |row| && ClassifyOne(clf, v).predicted == clf.classes[k] &&
              (forall j :: 0 <= j < |row| ==> row[j] <= row[k]) &&
              (forall j :: 0 <= j < k ==> row[j] < row[k])
    ensures (forall i, j :: 0 <= i < j < |clf.classes| ==> Str(clf.classes[i]) != Str(clf.classes[j])) ==>
      forall i :: 0 <= i < |clf.classes| ==> Get(ClassifyOne(clf, v).probabilities, Str(clf.classes[i])) == Some(clf.proba(v)[i])
  {
    var row := clf.proba(v);
    var k := ArgMax(row);
    assert ClassifyOne(clf, v).predicted == clf.classes[k];
    if forall i, j :: 0 <= i < j < |clf.classes| ==> Str(clf.classes[i]) != Str(clf.classes[j]) {
      forall i | 0 <= i < |clf.classes|
        ensures Get(ClassifyOne(clf, v).probabilities, Str(clf.classes[i])) == Some(row[i])
      {
        ProbabilityDictGet(clf.classes, row, i);
      }
    }
  }

  // ---------------------------------------------------------------------------
  // get_cleaning_steps_batch

  /** The steps used when the model's answer is not a list of lists. */
  const DefaultSteps: seq<Json> :=
    [JStr("html"), JStr("encoding"), JStr("emoji"), JStr("control"), JStr("whitespace"), JStr("langdetect")]

  /** The step lists of a parsed answer, when it is a list whose every element is a list. */
  function StepLists(parsed: Option<Json>): (r: Option<seq<seq<Json>>>)
    ensures r.Some? <==> parsed.Some? && parsed.value.JList? && forall i :: 0 <= i < |parsed.value.items| ==> parsed.value.items[i].JList?
    ensures r.Some? ==> (|r.value| == |parsed.value.items| &&
      forall i :: 0 <= i < |r.value| ==> parsed.value.items[i] == JList(r.value[i]))
  {
    if parsed.Some? && parsed.value.JList? && forall i :: 0 <= i < |parsed.value.items| ==> parsed.value.items[i].JList?
    then Some(seq(|parsed.value.items|, i requires 0 <= i < |parsed.value.items| => parsed.value.items[i].items))
    else None
  }

  /**
   * `get_cleaning_steps_batch`: the model is asked once for the whole list;
   * its stripped answer is parsed (`parse` returns None where `json.loads`
   * raises) and returned when it is a list of lists, of any length; otherwise
   * every review gets the default six steps.
   */
  function GetCleaningStepsBatch(reviews: seq<string>, apiKey: Option<string>,
                                 llm: seq<string> -> Result<string, PyError>,
                                 parse: string -> Option<Json>): (r: Result<seq<seq<Json>>, PyError>)
    ensures !KeyConfigured(apiKey) ==> r == Failure(MissingKey)
    ensures KeyConfigured(apiKey) && llm(reviews).Failure? ==> r == Failure(llm(reviews).error)
    ensures r.Failure? ==> !KeyConfigured(apiKey) || llm(reviews).Failure?
    ensures r.Success? ==>
      (StepLists(parse(Strip(llm(reviews).value))) == Some(r.value)) ||
      (StepLists(parse(Strip(llm(reviews).value))).None? && |r.value| == |reviews| &&
       forall i :: 0 <= i < |r.value| ==> r.value[i] == DefaultSteps)
  {
    if !KeyConfigured(apiKey) then Failure(MissingKey)
    else
      match llm(reviews)
      case Failure(e) => Failure(e)
      case Success(text) =>
        match StepLists(parse(Strip(text)))
        case Some(lists) => Success(lists)
        case None => Success(seq(|reviews|, _ => DefaultSteps))
  }
}
