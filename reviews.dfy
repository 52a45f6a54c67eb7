/**
 * The review records that flow through the pipeline: the rows the database
 * yields, and the dicts the route handler builds from them.
 */
module Reviews {
  import opened Wrappers
  import opened Text
  import opened Assoc
  import opened Sentiments

  /**
   * A `product_rating` value: None, an integer, or some other value that
   * `int()` rejects, carried with its `str()` form.
   */
  datatype Rating = NoRating | Whole(n: int) | Other(text: string)

  /** `str(rating)` of a present rating. */
  function RatingStr(r: Rating): (s: string)
    requires r != NoRating
    ensures r.Whole? ==> s == IntToString(r.n)
  {
    match r
    case Whole(n) => IntToString(n)
    case Other(t) => t
  }

  /** A `created_date` value: None, an ISO text, or a datetime. */
  datatype DateValue = NoDate | DateText(s: string) | DateTime(year: nat, month: nat, day: nat)

  /** One row of the review query: `{sku, customer_review, product_rating, created_date}`. */
  datatype RawReview = RawReview(sku: string, text: Option<string>, rating: Rating, createdDate: DateValue)

  type Vector = seq<real>

  /** The `sentiment_source` field. */
  datatype Source = FromText | RatingOnly

  /**
   * A review dict after cleaning and scoring: the raw fields, the fields the
   * cleaner adds (`clean`, `lang`, `hash`), the scoring fields (`embedding`,
   * `sentiment`, `sentiment_probabilities`) and `sentiment_source`.
   */
  datatype Review = Review(
    raw: RawReview,
    clean: Option<string>,
    lang: Option<string>,
    hash: Option<string>,
    embedding: Option<Vector>,
    sentiment: Label,
    probabilities: Option<Dict<string, real>>,
    source: Source)

  /** What a cleaner returns for one text: `{"clean", "lang", "hash"}`. */
  datatype Cleaned = Cleaned(clean: Option<string>, lang: string, hash: string)

  /** One classifier record: `{"label", "probabilities"}`. */
  datatype Classification = Classification(predicted: Label, probabilities: Dict<string, real>)

  /** `r.get("clean")` is truthy: present and non-empty. */
  predicate HasClean(r: Review) {
    r.clean.Some? && r.clean.value != []
  }
}
