/**
 * `batch_llm_extract_aspects`: the reviews are cut into contiguous batches,
 * each batch is sent to the language model in one request, and the parsed
 * answer is written back over the batch's slots of a list pre-filled with
 * None. A batch whose request or parse fails, or whose answer is not a list,
 * gets one `{}` per review. Batches are run one after another in batch order.
 */
module AspectExtract {
  import opened Wrappers
  import opened Text
  import opened Py
  import opened Batching
  import opened OpenAiClient

  const DefaultBatchSize: int := 25

  /** The model's reply to the batch starting at the given index, or the exception its call raised. */
  type AspectLlm = (nat, seq<Option<string>>) -> Result<string, PyError>

  /** `json.loads`: the parsed document, or None where it raises. */
  type JsonParser = string -> Option<Json>

  const ReviewsWrapper: string := "{\"reviews\":"

  /** One `{}` per review of the batch. */
  function Sentinels(n: nat): (r: seq<Option<Json>>)
    ensures |r| == n && forall i :: 0 <= i < n ==> r[i] == Some(EmptyObject)
  {
    seq(n, _ => Some(EmptyObject))
  }

  /**
   * The list a successful reply yields: the stripped content is parsed, and
   * when it begins with `{"reviews":` its `reviews` field is taken instead
   * (None when the parse fails or the field is missing, as the exception
   * handler then takes over).
   */
  function ReplyResults(content: string, parse: JsonParser): Option<Json>
  {
    var c := Strip(content);
    if StartsWith(c, ReviewsWrapper) then
      match parse(c)
      case Some(JObject(fields)) => Field(fields, "reviews")
      case _ => None
    else parse(c)
  }

  /** The slots written for one batch of `n` reviews. */
  function BatchWrite(reply: Result<string, PyError>, parse: JsonParser, n: nat): (r: seq<Option<Json>>)
    ensures reply.Failure? ==> r == Sentinels(n)
    ensures reply.Success? && !(ReplyResults(reply.value, parse).Some? && ReplyResults(reply.value, parse).value.JList?) ==> r == Sentinels(n)
    ensures reply.Success? && ReplyResults(reply.value, parse).Some? && ReplyResults(reply.value, parse).value.JList? ==>
      |r| == |ReplyResults(reply.value, parse).value.items| &&
      forall i :: 0 <= i < |r| ==> r[i] == Some(ReplyResults(reply.value, parse).value.items[i])
  {
    match reply
    case Failure(_) => Sentinels(n)
    case Success(content) =>
      match ReplyResults(content, parse)
      case Some(JList(items)) => seq(|items|, i requires 0 <= i < |items| => Some(items[i]))
      case _ => Sentinels(n)
  }

  /** The per-batch worker: the batch's request, answer check and fallback. */
  function Worker(llm: AspectLlm, parse: JsonParser): (nat, seq<Option<string>>) -> seq<Option<Json>>
  {
    (start: nat, batch: seq<Option<string>>) => BatchWrite(llm(start, batch), parse, |batch|)
  }

  /** `[None] * n`. */
  function Nones<T>(n: nat): (r: seq<Option<T>>)
    ensures |r| == n && forall i :: 0 <= i < n ==> r[i] == None
  {
    seq(n, _ => None)
  }

  /**
   * The result of `batch_llm_extract_aspects`: RuntimeError without a key
   * (before any batch), ValueError for a zero batch size (from `range`), the
   * untouched None slots for a negative one (no batch at all), and otherwise
   * the slots after every batch has been written back in order.
   */
  method BatchLlmExtractAspects(reviews: seq<Option<string>>, batchSize: int, apiKey: Option<string>,
                                llm: AspectLlm, parse: JsonParser)
    returns (r: Result<seq<Option<Json>>, PyError>)
    ensures !KeyConfigured(apiKey) ==> r == Failure(MissingKey)
    ensures KeyConfigured(apiKey) && batchSize == 0 ==> r.Failure? && r.error.ValueError?
    ensures KeyConfigured(apiKey) && batchSize < 0 ==> r == Success(Nones(|reviews|))
    ensures KeyConfigured(apiKey) && batchSize > 0 ==>
      r == Success(RunBatchesByLength(Nones(|reviews|), reviews, batchSize, 0, Worker(llm, parse)))
  {
    if !KeyConfigured(apiKey) {
      return Failure(MissingKey);
    }
    var allResults: seq<Option<Json>> := Nones(|reviews|);
    if batchSize == 0 {
      return Failure(ValueError("range() arg 3 must not be zero"));
    }
    if batchSize < 0 {
      return Success(allResults);
    }
    allResults := WriteBackBatches(allResults, reviews, batchSize, Worker(llm, parse));
    return Success(allResults);
  }

  /** A failed request, a failed parse, a missing `reviews` field or a non-list answer all write exactly one `{}` per review. */
  lemma FallbackKeepsBatchSize(reply: Result<string, PyError>, parse: JsonParser, n: nat)
    requires reply.Failure? || !(ReplyResults(reply.value, parse).Some? && ReplyResults(reply.value, parse).value.JList?)
    ensures |BatchWrite(reply, parse, n)| == n
    ensures forall i :: 0 <= i < n ==> BatchWrite(reply, parse, n)[i] == Some(EmptyObject)
  {
  }

  /** A reply wrapped as `{"reviews": [...]}` contributes the wrapped list. */
  lemma WrappedReplyUnwrapped(content: string, parse: JsonParser, fields: seq<(string, Json)>, items: seq<Json>)
    requires StartsWith(Strip(content), ReviewsWrapper)
    requires parse(Strip(content)) == Some(JObject(fields))
    requires Field(fields, "reviews") == Some(JList(items))
    ensures BatchWrite(Success(content), parse, |items|) == seq(|items|, i requires 0 <= i < |items| => Some(items[i]))
  {
  }

  /** No review, no batch: the result is empty and the model is never asked. */
  lemma EmptyInputNoBatches(llm: AspectLlm, parse: JsonParser, batchSize: nat)
    requires batchSize > 0
    ensures RunBatchesByLength(Nones<Json>(0), [], batchSize, 0, Worker(llm, parse)) == []
  {
  }

  /**
   * When every batch writes back one slot per review (in particular when it
   * fell back to `{}`s), the result has one slot per review and slot `k`
   * comes from the batch holding review `k`, at its position in that batch.
   */
  lemma AlignedWhenWellSized(reviews: seq<Option<string>>, batchSize: nat, llm: AspectLlm, parse: JsonParser)
    requires batchSize > 0
    requires WellSized(reviews, batchSize, 0, Worker(llm, parse))
    ensures |RunBatchesByLength(Nones(|reviews|), reviews, batchSize, 0, Worker(llm, parse))| == |reviews|
    ensures RunBatchesByLength(Nones(|reviews|), reviews, batchSize, 0, Worker(llm, parse)) == BatchOutputs(reviews, batchSize, 0, Worker(llm, parse))
  {
    ByLengthWellSized(Nones(|reviews|), reviews, batchSize, 0, Worker(llm, parse));
    BatchOutputsLength(reviews, batchSize, 0, Worker(llm, parse));
  }
}
