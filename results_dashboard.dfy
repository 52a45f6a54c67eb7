/**
 * The derived values the results page shows next to the statistics: the
 * one-line verdict on the sentiment split, the average star rating, the
 * keyword chips with their samples and sentiments, and the colour of each
 * aspect chip.
 */
module ResultsDashboard {
  import opened Wrappers
  import opened Assoc
  import opened Sentiments
  import AspectAggregate

  // ---------------------------------------------------------------------------
  // getSentimentVerdict

  /** `percentages.<name> || 0`: a missing share counts as zero. */
  function Share(percentages: Dict<string, real>, s: Sentiment): real {
    Get(percentages, Name(s)).GetOr(0.0)
  }

  /** `Math.max` of three numbers. */
  function Max3(a: real, b: real, c: real): (m: real)
    ensures m >= a && m >= b && m >= c
    ensures m == a || m == b || m == c
  {
    if a >= b && a >= c then a else if b >= c then b else c
  }

  /** The majority: the largest share, negative winning every tie it is in and neutral beating positive. */
  function Majority(pos: real, neu: real, neg: real): (m: Sentiment)
    ensures m == Negative <==> neg >= pos && neg >= neu
    ensures m == Neutral <==> neu > neg && neu >= pos
    ensures m == Positive <==> pos > neg && pos > neu
  {
    var max := Max3(pos, neu, neg);
    if max == neg then Negative else if max == neu then Neutral else Positive
  }

  /**
   * The headline. Each one in terms of the three shares: a positive
   * headline needs positive strictly ahead of both others, a negative one
   * needs negative at least level with both, a neutral majority is always
   * "Mixed or Neutral", and "Mixed" is a positive or negative majority
   * under 60.
   */
  function Verdict(percentages: Dict<string, real>): (v: string)
    ensures var pos, neu, neg := Share(percentages, Positive), Share(percentages, Neutral), Share(percentages, Negative);
      && (v == "Overwhelmingly Positive" <==> pos > neg && pos > neu && pos >= 80.0)
      && (v == "Mostly Positive" <==> pos > neg && pos > neu && 60.0 <= pos < 80.0)
      && (v == "Overwhelmingly Negative" <==> neg >= pos && neg >= neu && neg >= 80.0)
      && (v == "Mostly Negative" <==> neg >= pos && neg >= neu && 60.0 <= neg < 80.0)
      && (v == "Mixed or Neutral" <==> neu > neg && neu >= pos)
      && (v == "Mixed" <==> (pos > neg && pos > neu && pos < 60.0) || (neg >= pos && neg >= neu && neg < 60.0))
  {
    var pos, neu, neg := Share(percentages, Positive), Share(percentages, Neutral), Share(percentages, Negative);
    match Majority(pos, neu, neg)
    case Positive =>
      if pos >= 80.0 then "Overwhelmingly Positive"
      else if pos >= 60.0 then "Mostly Positive"
      else "Mixed"
    case Negative =>
      if neg >= 80.0 then "Overwhelmingly Negative"
      else if neg >= 60.0 then "Mostly Negative"
      else "Mixed"
    case Neutral => "Mixed or Neutral"
  }

  /** A share that is absent reads exactly as a share of zero. */
  lemma MissingShareIsZero(percentages: Dict<string, real>, s: Sentiment)
    requires Name(s) !in Keys(percentages)
    ensures Verdict(Put(percentages, Name(s), 0.0)) == Verdict(percentages)
  {
    var p' := Put(percentages, Name(s), 0.0);
    forall t ensures Share(p', t) == Share(percentages, t) {
      NameInjective(s, t);
    }
  }

  /**
   * For shares that are non-negative and add up to 100, a share of 60 or
   * more is the majority on its own, so the positive headlines are exactly
   * the splits with at least 60 positive.
   */
  lemma SixtyIsMajority(percentages: Dict<string, real>)
    requires Share(percentages, Positive) >= 0.0 && Share(percentages, Neutral) >= 0.0 && Share(percentages, Negative) >= 0.0
    requires Share(percentages, Positive) + Share(percentages, Neutral) + Share(percentages, Negative) == 100.0
    ensures Verdict(percentages) in {"Overwhelmingly Positive", "Mostly Positive"} <==> Share(percentages, Positive) >= 60.0
    ensures Verdict(percentages) in {"Overwhelmingly Negative", "Mostly Negative"} <==> Share(percentages, Negative) >= 60.0
  {
  }

  // ---------------------------------------------------------------------------
  // The average rating

  /** `starDist[star] || 0`. */
  function StarCount(dist: Dict<string, nat>, star: string): nat {
    Get(dist, star).GetOr(0)
  }

  /** The number of ratings with one of the keys "1" to "5". */
  function StarTotal(dist: Dict<string, nat>): nat {
    StarCount(dist, "5") + StarCount(dist, "4") + StarCount(dist, "3") + StarCount(dist, "2") + StarCount(dist, "1")
  }

  /** The sum of those ratings. */
  function StarSum(dist: Dict<string, nat>): nat {
    5 * StarCount(dist, "5") + 4 * StarCount(dist, "4") + 3 * StarCount(dist, "3") + 2 * StarCount(dist, "2") + StarCount(dist, "1")
  }

  /** The mean star rating of the distribution, or 0 when it has no ratings from 1 to 5. */
  function AverageRating(dist: Dict<string, nat>): real {
    if StarTotal(dist) == 0 then 0.0 else StarSum(dist) as real / StarTotal(dist) as real
  }

  /** The average is 0 exactly when there are no 1-5 ratings, and lies between 1 and 5 otherwise. */
  lemma AverageRatingBounds(dist: Dict<string, nat>)
    ensures AverageRating(dist) == 0.0 <==> StarTotal(dist) == 0
    ensures StarTotal(dist) > 0 ==> 1.0 <= AverageRating(dist) <= 5.0
  {
    var t, s := StarTotal(dist) as real, StarSum(dist) as real;
    if t > 0.0 {
      DivBetween(s, t, 1.0, 5.0);
    }
  }

  lemma DivBetween(s: real, t: real, lo: real, hi: real)
    requires t > 0.0 && lo * t <= s <= hi * t
    ensures lo <= s / t <= hi
  {
    assert lo * t / t == lo;
    assert hi * t / t == hi;
  }

  /** The key of a star: "1" to "5". */
  function StarKey(star: nat): string
    requires 1 <= star <= 5
  {
    if star == 1 then "1" else if star == 2 then "2" else if star == 3 then "3" else if star == 4 then "4" else "5"
  }

  /** When every rating has the same star, the average is that star. */
  lemma AverageOfOneStar(dist: Dict<string, nat>, star: nat)
    requires 1 <= star <= 5
    requires StarTotal(dist) > 0 && StarTotal(dist) == StarCount(dist, StarKey(star))
    ensures AverageRating(dist) == star as real
  {
    var c := StarCount(dist, StarKey(star));
    assert StarSum(dist) as real == star as real * c as real by {
      if star == 1 {
      } else if star == 2 {
      } else if star == 3 {
      } else if star == 4 {
      } else {
      }
    }
    ScaleCancels(star as real, c as real);
  }

  lemma ScaleCancels(k: real, c: real)
    requires c != 0.0
    ensures k * c / c == k
  {
  }

  /** Keys other than "1" to "5" (another rating, or text) take no part in the average. */
  lemma OtherKeysIgnored(dist: Dict<string, nat>, key: string, count: nat)
    requires key !in {"1", "2", "3", "4", "5"}
    ensures AverageRating(Put(dist, key, count)) == AverageRating(dist)
  {
    var d' := Put(dist, key, count);
    assert StarTotal(d') == StarTotal(dist) && StarSum(d') == StarSum(dist);
  }

  // ---------------------------------------------------------------------------
  // Keyword chips

  /** `Object.fromEntries`: a later entry for a key replaces an earlier one. */
  function FromEntries<V>(d: Dict<string, V>): (m: map<string, V>)
    ensures forall k :: k in m <==> k in Keys(d)
  {
    if d == [] then map[]
    else
      var n := |d| - 1;
      assert Keys(d) == Keys(d[..n]) + [d[n].0];
      FromEntries(d[..n])[d[n].0 := d[n].1]
  }

  /** For a dict with distinct keys the object holds each key's own value. */
  lemma {:induction false} FromEntriesGet<V>(d: Dict<string, V>, k: string)
    requires DistinctKeys(d) && k in Keys(d)
    ensures FromEntries(d)[k] == Get(d, k).value
  {
    var n := |d| - 1;
    var init := d[..n];
    if d[n].0 == k {
      GetIffEntry(d, k, d[n].1);
      assert d[n] in d;
    } else {
      assert k in Keys(init) by {
        var i :| 0 <= i < |Keys(d)| && Keys(d)[i] == k;
        assert i < n;
        assert Keys(init)[i] == k;
      }
      assert DistinctKeys(init) by {
        forall i, j | 0 <= i < j < |init| ensures init[i].0 != init[j].0 {
          assert init[i] == d[i] && init[j] == d[j];
        }
      }
      FromEntriesGet(init, k);
      var v := Get(init, k).value;
      GetIffEntry(init, k, v);
      assert (k, v) in d;
      GetIffEntry(d, k, v);
    }
  }

  /** The chip weight of a keyword: how many samples it has. */
  function SampleCount(e: (string, seq<string>)): int { |e.1| }

  /** The ten keywords with most samples, a stable sort keeping dict order among equals. */
  function TopEntries(samples: Dict<string, seq<string>>): Dict<string, seq<string>> {
    Take(SortDesc(samples, SampleCount), 10)
  }

  /**
   * At most ten entries, most samples first, all from the dict; an entry
   * left out means ten were shown, none with fewer samples than it.
   */
  lemma TopEntriesSpec(samples: Dict<string, seq<string>>, x: (string, seq<string>))
    ensures |TopEntries(samples)| <= 10
    ensures SortedDesc(TopEntries(samples), SampleCount)
    ensures forall e :: e in TopEntries(samples) ==> e in samples
    ensures x in samples && x !in TopEntries(samples) ==>
      |TopEntries(samples)| == 10 && forall j :: 0 <= j < 10 ==> |TopEntries(samples)[j].1| >= |x.1|
  {
    var sd := SortDesc(samples, SampleCount);
    SortDescSpec(samples, SampleCount);
    var top := TopEntries(samples);
    assert top == sd[..|top|];
    forall e | e in top ensures e in samples {
      assert e in multiset(sd);
    }
    if x in samples && x !in top {
      TakeSortedIsTop(samples, SampleCount, 10, x);
    }
  }

  /** The chip list handed to the chip component. */
  datatype Chips = Chips(keywords: seq<string>, sentiments: map<string, Sentiment>, samples: map<string, seq<string>>)

  /** Each key paired with the same sentiment. */
  function Tag(keys: seq<string>, s: Sentiment): (d: Dict<string, Sentiment>)
    ensures Keys(d) == keys && forall e :: e in d ==> e.1 == s
  {
    seq(|keys|, i requires 0 <= i < |keys| => (keys[i], s))
  }

  /**
   * The chips: the top positive keywords then the top negative ones, each
   * tagged with its sentiment (negative last, so it wins), with the samples
   * of both dicts merged, negative over positive.
   */
  function KeywordChips(matched: PerSentiment<Dict<string, seq<string>>>): Chips {
    var topPos, topNeg := Keys(TopEntries(matched.positive)), Keys(TopEntries(matched.negative));
    Chips(
      topPos + topNeg,
      FromEntries(Tag(topPos, Positive) + Tag(topNeg, Negative)),
      FromEntries(matched.positive) + FromEntries(matched.negative))
  }

  /**
   * The chip row: at most ten keywords of each sentiment; a keyword has a
   * sentiment exactly when it is a chip; and it is negative exactly when it
   * is among the top negative keywords, positive otherwise.
   */
  lemma KeywordChipTags(matched: PerSentiment<Dict<string, seq<string>>>)
    ensures |KeywordChips(matched).keywords| <= 20
    ensures forall k :: k in KeywordChips(matched).sentiments <==> k in KeywordChips(matched).keywords
    ensures forall k :: k in KeywordChips(matched).sentiments ==>
      (KeywordChips(matched).sentiments[k] == Negative <==> k in Keys(TopEntries(matched.negative)))
    ensures forall k :: k in KeywordChips(matched).sentiments ==>
      (KeywordChips(matched).sentiments[k] == Positive <==> k !in Keys(TopEntries(matched.negative)))
  {
    var topPos, topNeg := Keys(TopEntries(matched.positive)), Keys(TopEntries(matched.negative));
    var c := KeywordChips(matched);
    assert c.keywords == topPos + topNeg;
    assert c.sentiments == FromEntries(Tag(topPos, Positive) + Tag(topNeg, Negative));
    TopEntriesSpec(matched.positive, ("", []));
    TopEntriesSpec(matched.negative, ("", []));
    TagsMerge(topPos, topNeg);
  }

  /** Keys tagged positive, then keys tagged negative: the later, negative tag wins. */
  lemma TagsMerge(pos: seq<string>, neg: seq<string>)
    ensures forall k :: k in FromEntries(Tag(pos, Positive) + Tag(neg, Negative)) <==> k in pos + neg
    ensures forall k :: k in FromEntries(Tag(pos, Positive) + Tag(neg, Negative)) ==>
      (FromEntries(Tag(pos, Positive) + Tag(neg, Negative))[k] == Negative <==> k in neg)
    ensures forall k :: k in FromEntries(Tag(pos, Positive) + Tag(neg, Negative)) ==>
      (FromEntries(Tag(pos, Positive) + Tag(neg, Negative))[k] == Positive <==> k !in neg)
  {
    var a, b := Tag(pos, Positive), Tag(neg, Negative);
    var m := FromEntries(a + b);
    KeysAppend(a, b);
    TaggedLast(a, b);
    forall k | k in m ensures (m[k] == Negative <==> k in neg) && (m[k] == Positive <==> k !in neg) {
      FromEntriesValue(a + b, k);
      if k in neg {
        FromEntriesValue(b, k);
      }
    }
  }

  /**
   * The samples behind the chips: every keyword of either dict has some, a
   * keyword with negative samples shows those, and any other its positive
   * ones.
   */
  lemma KeywordChipSamples(matched: PerSentiment<Dict<string, seq<string>>>)
    requires DistinctKeys(matched.positive) && DistinctKeys(matched.negative)
    ensures forall k :: k in KeywordChips(matched).samples <==> k in Keys(matched.positive) || k in Keys(matched.negative)
    ensures forall k :: k in Keys(matched.negative) ==> KeywordChips(matched).samples[k] == Get(matched.negative, k).value
    ensures forall k :: k in Keys(matched.positive) && k !in Keys(matched.negative) ==>
      KeywordChips(matched).samples[k] == Get(matched.positive, k).value
  {
    forall k | k in Keys(matched.negative) ensures FromEntries(matched.negative)[k] == Get(matched.negative, k).value {
      FromEntriesGet(matched.negative, k);
    }
    forall k | k in Keys(matched.positive) ensures FromEntries(matched.positive)[k] == Get(matched.positive, k).value {
      FromEntriesGet(matched.positive, k);
    }
  }

  /** In `Object.fromEntries(a ++ b)` a key of `b` takes its value from `b`. */
  lemma {:induction false} TaggedLast<V>(a: Dict<string, V>, b: Dict<string, V>)
    ensures forall k :: k in Keys(b) ==> k in FromEntries(a + b) && FromEntries(a + b)[k] == FromEntries(b)[k]
    decreases |b|
  {
    if b != [] {
      var n := |b| - 1;
      assert (a + b)[..|a + b| - 1] == a + b[..n];
      TaggedLast(a, b[..n]);
      forall k | k in Keys(b) ensures k in FromEntries(a + b) && FromEntries(a + b)[k] == FromEntries(b)[k] {
        if k != b[n].0 {
          var i :| 0 <= i < |Keys(b)| && Keys(b)[i] == k;
          assert i < n && Keys(b[..n])[i] == k;
        }
      }
    }
  }

  /** Every value of `Object.fromEntries(d)` is the value of an entry of `d`. */
  lemma {:induction false} FromEntriesValue<V>(d: Dict<string, V>, k: string)
    requires k in FromEntries(d)
    ensures (k, FromEntries(d)[k]) in d
    decreases |d|
  {
    var n := |d| - 1;
    if d[n].0 != k {
      FromEntriesValue(d[..n], k);
      assert d[..n] <= d;
    }
  }

  // ---------------------------------------------------------------------------
  // Aspect chips

  /** The colour of an aspect chip: negative when its negative share exceeds its positive one. */
  function AspectChipSentiment(a: AspectAggregate.AspectRecord): (s: Sentiment)
    ensures s != Neutral
  {
    if a.negative > a.positive then Negative else Positive
  }

  /**
   * For a reported aspect the chip is negative exactly when it had more
   * negative than positive mentions; neutral mentions and ties leave it
   * positive.
   */
  lemma AspectChipFollowsCounts(aspect: string, st: AspectAggregate.AspectState)
    requires st.total >= 1
    ensures AspectChipSentiment(AspectAggregate.RecordOf(aspect, st)) == Negative <==>
      st.counts.negative > st.counts.positive
  {
    var t := st.total as real;
    var p, n := st.counts.positive as real, st.counts.negative as real;
    assert 100.0 * n / t > 100.0 * p / t <==> n > p;
  }
}
