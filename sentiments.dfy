/**
 * Sentiment names, per-sentiment triples, and the Python value a review's
 * `sentiment` field holds, with the `label_map.get(str(l), str(l))` lookup
 * every consumer applies to it.
 */
module Sentiments {
  import opened Wrappers
  import opened Text

  datatype Sentiment = Positive | Neutral | Negative

  function Name(s: Sentiment): string {
    match s
    case Positive => "positive"
    case Neutral => "neutral"
    case Negative => "negative"
  }

  /** Different sentiments have different names: they differ in their first or third letter. */
  lemma NameInjective(s: Sentiment, t: Sentiment)
    ensures Name(s) == Name(t) <==> s == t
  {
    assert Name(s)[0] == 'p' <==> s == Positive;
    assert Name(t)[0] == 'p' <==> t == Positive;
    assert s != Positive ==> (Name(s)[2] == 'u' <==> s == Neutral);
    assert t != Positive ==> (Name(t)[2] == 'u' <==> t == Neutral);
  }

  /** The iteration order `['positive', 'neutral', 'negative']` used throughout. */
  const AllSentiments: seq<Sentiment> := [Positive, Neutral, Negative]

  /** The sentiment whose name is `n`, if any. */
  function FromName(n: string): (r: Option<Sentiment>)
    ensures r.Some? ==> Name(r.value) == n
    ensures (exists s :: Name(s) == n) ==> r.Some?
  {
    if n == "positive" then Some(Positive)
    else if n == "neutral" then Some(Neutral)
    else if n == "negative" then Some(Negative)
    else None
  }

  /** A dictionary keyed by exactly the three sentiment names. */
  datatype PerSentiment<T> = PerSentiment(positive: T, neutral: T, negative: T)
  {
    function Get(s: Sentiment): T {
      match s
      case Positive => positive
      case Neutral => neutral
      case Negative => negative
    }

    function Set(s: Sentiment, v: T): (r: PerSentiment<T>)
      ensures r.Get(s) == v
      ensures forall t :: t != s ==> r.Get(t) == Get(t)
    {
      match s
      case Positive => this.(positive := v)
      case Neutral => this.(neutral := v)
      case Negative => this.(negative := v)
    }
  }

  function Uniform<T>(v: T): PerSentiment<T> { PerSentiment(v, v, v) }

  /** The Python value of a review's `sentiment` field: None, an int class label, or a string. */
  datatype Label = NoLabel | IntLabel(n: int) | StrLabel(s: string)

  /** Python's `str(l)`. */
  function Str(l: Label): string {
    match l
    case NoLabel => "None"
    case IntLabel(n) => IntToString(n)
    case StrLabel(s) => s
  }

  /** `{"0": "negative", "1": "neutral", "2": "positive"}.get(k, k)`. */
  function MapClassKey(k: string): string {
    if k == "0" then "negative"
    else if k == "1" then "neutral"
    else if k == "2" then "positive"
    else k
  }

  /** `label_map.get(str(l), str(l))`: the sentiment name a label is counted under. */
  function LabelName(l: Label): (r: string)
    ensures l == IntLabel(0) ==> r == "negative"
    ensures l == IntLabel(1) ==> r == "neutral"
    ensures l == IntLabel(2) ==> r == "positive"
    ensures l == NoLabel ==> r == "None"
    ensures forall s :: l == StrLabel(Name(s)) ==> r == Name(s)
  {
    MapClassKey(Str(l))
  }

  /** The sentiment a label is counted under, if it is one of the three. */
  function LabelSentiment(l: Label): (r: Option<Sentiment>)
    ensures r.Some? <==> exists s :: LabelName(l) == Name(s)
    ensures r.Some? ==> LabelName(l) == Name(r.value)
  {
    FromName(LabelName(l))
  }

  /** Class ids 0, 1, 2 of the classifier and their sentiment. */
  function ClassSentiment(n: int): Option<Sentiment> {
    if n == 0 then Some(Negative) else if n == 1 then Some(Neutral) else if n == 2 then Some(Positive) else None
  }

  /**
   * The rewrite applied to each text review's label before keyword matching:
   * an int becomes its sentiment name (0, 1, 2) or its decimal string; any
   * other value is left alone.
   */
  function NormalizeLabel(l: Label): (r: Label)
    ensures !r.IntLabel?
    ensures l.IntLabel? && ClassSentiment(l.n).Some? ==> r == StrLabel(Name(ClassSentiment(l.n).value))
    ensures l.IntLabel? && ClassSentiment(l.n).None? ==> r == StrLabel(IntToString(l.n))
    ensures !l.IntLabel? ==> r == l
  {
    match l
    case IntLabel(n) =>
      (match ClassSentiment(n)
       case Some(s) => StrLabel(Name(s))
       case None => StrLabel(IntToString(n)))
    case _ => l
  }

  lemma {:induction false} NatToStringNotClassKey(n: nat)
    requires n >= 3
    ensures MapClassKey(NatToString(n)) == NatToString(n)
  {
    if n >= 10 {
      assert |NatToString(n)| >= 2 by {
        assert NatToString(n) == NatToString(n / 10) + [DigitChar(n % 10)];
      }
    } else {
      assert NatToString(n) == [DigitChar(n)];
    }
  }

  /**
   * Normalising a label does not change the name it is counted under, so the
   * statistics over the merged review list are the same before and after.
   */
  lemma NormalizeKeepsLabelName(l: Label)
    ensures LabelName(NormalizeLabel(l)) == LabelName(l)
  {
    if l.IntLabel? {
      var n := l.n;
      if n < 0 {
        assert IntToString(n)[0] == '-';
      } else if n >= 3 {
        NatToStringNotClassKey(n);
      } else {
        assert NatToString(n) == [DigitChar(n)];
      }
    }
  }
}
