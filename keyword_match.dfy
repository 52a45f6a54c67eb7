/**
 * Keyword-matched sample reviews: for each sentiment and each of its top
 * keywords, up to 20 of that sentiment's clean texts that mention the
 * keyword. Texts containing every word of the keyword are taken first; if
 * fewer than 20 are found, texts containing any of its words (and not
 * already taken) fill the rest.
 */
module KeywordMatch {
  import opened Wrappers
  import opened Text
  import opened Assoc
  import opened Sentiments
  import opened Reviews

  /** At most this many sample texts are kept per keyword. */
  const SamplesPerKeyword: nat := 20

  /** Lower-cases, then deletes every punctuation character. */
  function Normalize(t: string): string {
    RemovePunct(Lower(t))
  }

  /** The whitespace-separated words of the normalised keyword. */
  function KwWords(kw: string): seq<string> {
    Split(Normalize(kw))
  }

  predicate AllIn(words: seq<string>, norm: string) {
    forall w :: w in words ==> Contains(norm, w)
  }

  predicate AnyIn(words: seq<string>, norm: string) {
    exists w :: w in words && Contains(norm, w)
  }

  /** A review of sentiment `s` (by its label's exact value) with a non-empty clean text. */
  predicate IsCandidate(r: Review, s: Sentiment) {
    r.sentiment == StrLabel(Name(s)) && HasClean(r)
  }

  /** The clean texts the matcher searches for sentiment `s`, in review order. */
  function Candidates(reviews: seq<Review>, s: Sentiment): (c: seq<string>)
    ensures forall x :: x in c <==> exists r :: r in reviews && IsCandidate(r, s) && r.clean.value == x
    decreases |reviews|
  {
    if reviews == [] then []
    else
      assert forall r :: r in reviews <==> r == reviews[0] || r in reviews[1..];
      (if IsCandidate(reviews[0], s) then [reviews[0].clean.value] else []) + Candidates(reviews[1..], s)
  }

  /** Each candidate's normalised text, computed once per sentiment. */
  function Norms(cands: seq<string>): (n: seq<string>)
    ensures |n| == |cands| && forall i :: 0 <= i < |cands| ==> n[i] == Normalize(cands[i])
  {
    seq(|cands|, i requires 0 <= i < |cands| => Normalize(cands[i]))
  }

  // ---------------------------------------------------------------------------
  // The two passes over the candidates

  datatype Tier = AllWords | AnyWord

  /** Whether a pass takes candidate `c` when `m` has been gathered so far. */
  predicate Admits(tier: Tier, words: seq<string>, m: seq<string>, c: string) {
    match tier
    case AllWords => AllIn(words, Normalize(c))
    case AnyWord => AnyIn(words, Normalize(c)) && c !in m
  }

  /** One pass: append each admitted candidate, stopping right after the one that reaches 20. */
  function Gather(m: seq<string>, cands: seq<string>, words: seq<string>, tier: Tier): seq<string>
    decreases |cands|
  {
    if cands == [] then m
    else if Admits(tier, words, m, cands[0]) then
      if |m + [cands[0]]| >= SamplesPerKeyword then m + [cands[0]]
      else Gather(m + [cands[0]], cands[1..], words, tier)
    else Gather(m, cands[1..], words, tier)
  }

  /** The first pass, then the second pass when the first found fewer than 20. */
  function Matches(cands: seq<string>, words: seq<string>): seq<string> {
    var m1 := Gather([], cands, words, AllWords);
    if |m1| < SamplesPerKeyword then Gather(m1, cands, words, AnyWord) else m1
  }

  /** What the pass passes when it needs a word: all words for the first pass, any word for the second. */
  predicate Wanted(tier: Tier, words: seq<string>, c: string) {
    match tier
    case AllWords => AllIn(words, Normalize(c))
    case AnyWord => AnyIn(words, Normalize(c))
  }

  /**
   * A pass only appends, never past 20 when it starts below 20; what it
   * appends are candidates the pass admits (never one already gathered in
   * the second pass); and if it ends below 20, it has taken every wanted
   * candidate.
   */
  lemma {:induction false} GatherSpec(m: seq<string>, cands: seq<string>, words: seq<string>, tier: Tier, x: string)
    ensures var r := Gather(m, cands, words, tier);
      |m| <= |r| && r[..|m|] == m &&
      (|m| < SamplesPerKeyword ==> |r| <= SamplesPerKeyword) &&
      (x in r[|m|..] ==> x in cands && Wanted(tier, words, x) && (tier == AnyWord ==> x !in m)) &&
      (|r| < SamplesPerKeyword && x in cands && Wanted(tier, words, x) ==> x in r)
    decreases |cands|
  {
    var r := Gather(m, cands, words, tier);
    if cands != [] {
      var c := cands[0];
      assert cands == [c] + cands[1..];
      if Admits(tier, words, m, c) {
        var m' := m + [c];
        if |m'| < SamplesPerKeyword {
          GatherSpec(m', cands[1..], words, tier, x);
          assert r[..|m'|] == m';
          assert c in r by { assert r[|m|] == m'[|m|]; }
          assert r[..|m|] == m;
          assert r[|m|..] == [c] + r[|m'|..];
        } else {
          assert r[|m|..] == [c];
        }
      } else {
        GatherSpec(m, cands[1..], words, tier, x);
        if x == c && |r| < SamplesPerKeyword && Wanted(tier, words, x) {
          assert x in m;
          assert r[..|m|] == m;
        }
      }
    }
  }

  /**
   * The matches for a keyword: at most 20, all candidates, each containing
   * all or at least one of the keyword's words; fewer than 20 only when
   * every candidate containing a word of the keyword has been taken.
   */
  lemma MatchesSpec(cands: seq<string>, words: seq<string>, x: string)
    ensures |Matches(cands, words)| <= SamplesPerKeyword
    ensures x in Matches(cands, words) ==> x in cands && (AllIn(words, Normalize(x)) || AnyIn(words, Normalize(x)))
    ensures (|Matches(cands, words)| < SamplesPerKeyword && x in cands &&
             (AllIn(words, Normalize(x)) || AnyIn(words, Normalize(x)))) ==> x in Matches(cands, words)
  {
    var m1 := Gather([], cands, words, AllWords);
    GatherSpec([], cands, words, AllWords, x);
    assert m1[0..] == m1;
    if |m1| < SamplesPerKeyword {
      var m2 := Gather(m1, cands, words, AnyWord);
      GatherSpec(m1, cands, words, AnyWord, x);
      if x in m2 && x !in m1 {
        assert m2 == m2[..|m1|] + m2[|m1|..];
      }
      if x in m1 {
        assert x in m2[..|m1|];
      }
    }
  }

  /** The first `k` texts contain every word; each later one contains some word but not all. */
  predicate TieredAt(words: seq<string>, r: seq<string>, k: nat) {
    k <= |r| &&
    (forall i :: 0 <= i < k ==> AllIn(words, Normalize(r[i]))) &&
    (forall i :: k <= i < |r| ==> AnyIn(words, Normalize(r[i])) && !AllIn(words, Normalize(r[i])))
  }

  /**
   * The matches that contain all of the keyword's words come first; every
   * later one contains some word of the keyword but not all of them.
   */
  lemma MatchesTiers(cands: seq<string>, words: seq<string>)
    ensures exists k :: TieredAt(words, Matches(cands, words), k)
  {
    var m1 := Gather([], cands, words, AllWords);
    var r := Matches(cands, words);
    GatherSpec([], cands, words, AllWords, "");
    assert m1[0..] == m1;
    if |m1| < SamplesPerKeyword {
      GatherSpec(m1, cands, words, AnyWord, "");
      assert r[..|m1|] == m1;
      forall i | 0 <= i < |m1| ensures AllIn(words, Normalize(r[i])) {
        GatherSpec([], cands, words, AllWords, m1[i]);
        assert r[i] == m1[i];
      }
      forall i | |m1| <= i < |r| ensures AnyIn(words, Normalize(r[i])) && !AllIn(words, Normalize(r[i])) {
        var y := r[i];
        assert y in r[|m1|..] by { assert r[|m1|..][i - |m1|] == y; }
        GatherSpec(m1, cands, words, AnyWord, y);
        GatherSpec([], cands, words, AllWords, y);
      }
      assert TieredAt(words, r, |m1|);
    } else {
      forall i | 0 <= i < |m1| ensures AllIn(words, Normalize(r[i])) {
        GatherSpec([], cands, words, AllWords, m1[i]);
      }
      assert TieredAt(words, r, |m1|);
    }
  }

  lemma {:induction false} GatherAllWithoutWords(m: seq<string>, cands: seq<string>)
    requires |m| < SamplesPerKeyword
    ensures Gather(m, cands, [], AllWords) == m + cands[..Min(SamplesPerKeyword - |m|, |cands|)]
    decreases |cands|
  {
    if cands != [] {
      assert AllIn([], Normalize(cands[0]));
      if |m + [cands[0]]| < SamplesPerKeyword {
        GatherAllWithoutWords(m + [cands[0]], cands[1..]);
        assert cands[1..][..Min(SamplesPerKeyword - |m| - 1, |cands| - 1)] == cands[1..Min(SamplesPerKeyword - |m|, |cands|)];
      }
    }
  }

  lemma {:induction false} GatherAnyWithoutWords(m: seq<string>, cands: seq<string>)
    ensures Gather(m, cands, [], AnyWord) == m
    decreases |cands|
  {
    if cands != [] {
      assert !AnyIn([], Normalize(cands[0]));
      GatherAnyWithoutWords(m, cands[1..]);
    }
  }

  /** A keyword with no words (empty or all punctuation) matches the first 20 candidates. */
  lemma NoWordsTakesFirst(cands: seq<string>)
    ensures Matches(cands, []) == Take(cands, SamplesPerKeyword)
  {
    GatherAllWithoutWords([], cands);
    var m1 := Gather([], cands, [], AllWords);
    if |m1| < SamplesPerKeyword {
      GatherAnyWithoutWords(m1, cands);
    }
  }

  /** The two loops over the zipped candidates and their normalised texts, each with its `break` at 20. */
  method MatchKeyword(cands: seq<string>, norms: seq<string>, kw: string) returns (matches: seq<string>)
    requires |norms| == |cands| && forall i :: 0 <= i < |cands| ==> norms[i] == Normalize(cands[i])
    ensures matches == Found(cands, kw)
  {
    var words := KwWords(kw);
    matches := [];
    for j := 0 to |cands|
      invariant Gather([], cands, words, AllWords) == Gather(matches, cands[j..], words, AllWords)
      invariant |matches| < SamplesPerKeyword
    {
      assert cands[j..][1..] == cands[j + 1..];
      if AllIn(words, norms[j]) {
        matches := matches + [cands[j]];
        if |matches| >= SamplesPerKeyword {
          break;
        }
      }
    }
    assert cands[|cands|..] == [];
    var m1 := matches;
    if |matches| < SamplesPerKeyword {
      for j := 0 to |cands|
        invariant Gather(m1, cands, words, AnyWord) == Gather(matches, cands[j..], words, AnyWord)
        invariant |matches| < SamplesPerKeyword
      {
        assert cands[j..][1..] == cands[j + 1..];
        if AnyIn(words, norms[j]) && cands[j] !in matches {
          matches := matches + [cands[j]];
          if |matches| >= SamplesPerKeyword {
            break;
          }
        }
      }
    }
  }

  // ---------------------------------------------------------------------------
  // Per keyword and per sentiment

  /** `matches` for one keyword, as the dictionary entry for it. */
  function Found(cands: seq<string>, kw: string): seq<string> {
    Matches(cands, KwWords(kw))
  }

  /**
   * The dictionary built by entering each key `k` of `keys[..n]`, in order,
   * with value `f(k)` whenever that value is non-empty.
   */
  function CollectUpTo<V>(keys: seq<string>, n: nat, f: string -> seq<V>): Dict<string, seq<V>>
    requires n <= |keys|
  {
    if n == 0 then []
    else
      var d := CollectUpTo(keys, n - 1, f);
      if f(keys[n - 1]) != [] then Put(d, keys[n - 1], f(keys[n - 1])) else d
  }

  lemma {:induction false} CollectUpToDistinct<V>(keys: seq<string>, n: nat, f: string -> seq<V>)
    requires n <= |keys|
    ensures DistinctKeys(CollectUpTo(keys, n, f))
  {
    if n > 0 {
      CollectUpToDistinct(keys, n - 1, f);
      if f(keys[n - 1]) != [] {
        PutKeepsDistinct(CollectUpTo(keys, n - 1, f), keys[n - 1], f(keys[n - 1]));
      }
    }
  }

  lemma {:induction false} CollectUpToSpec<V>(keys: seq<string>, n: nat, f: string -> seq<V>, k: string)
    requires n <= |keys|
    ensures DistinctKeys(CollectUpTo(keys, n, f))
    ensures Get(CollectUpTo(keys, n, f), k) == if k in keys[..n] && f(k) != [] then Some(f(k)) else None
  {
    CollectUpToDistinct(keys, n, f);
    if n > 0 {
      CollectUpToSpec(keys, n - 1, f, k);
      var d := CollectUpTo(keys, n - 1, f);
      var key := keys[n - 1];
      assert keys[..n] == keys[..n - 1] + [key];
      assert k in keys[..n] <==> k in keys[..n - 1] || k == key;
      if f(key) != [] {
        assert CollectUpTo(keys, n, f) == Put(d, key, f(key));
        if k != key {
          assert Get(Put(d, key, f(key)), k) == Get(d, k);
        }
      } else {
        assert CollectUpTo(keys, n, f) == d;
      }
    }
  }

  /** Up to 20 matches for each keyword with any, keyed by keyword. */
  function KeywordSamples(keywords: seq<string>, cands: seq<string>): Dict<string, seq<string>> {
    CollectUpTo(keywords, |keywords|, kw => Found(cands, kw))
  }

  /**
   * The samples dictionary has one entry per distinct keyword that has
   * matches, and that entry holds the keyword's matches.
   */
  lemma KeywordSamplesSpec(keywords: seq<string>, cands: seq<string>, kw: string)
    ensures DistinctKeys(KeywordSamples(keywords, cands))
    ensures Get(KeywordSamples(keywords, cands), kw) ==
      if kw in keywords && Found(cands, kw) != [] then Some(Found(cands, kw)) else None
  {
    CollectUpToSpec(keywords, |keywords|, kw => Found(cands, kw), kw);
    assert keywords[..|keywords|] == keywords;
  }

  /** The loop over one sentiment's keywords. */
  method MatchKeywords(keywords: seq<string>, cands: seq<string>) returns (samples: Dict<string, seq<string>>)
    ensures samples == KeywordSamples(keywords, cands)
  {
    var norms := Norms(cands);
    samples := [];
    for n := 0 to |keywords|
      invariant samples == CollectUpTo(keywords, n, kw => Found(cands, kw))
    {
      var m := MatchKeyword(cands, norms, keywords[n]);
      if m != [] {
        samples := Put(samples, keywords[n], m);
      }
    }
  }

  /** The samples the matcher produces for sentiment `s`. */
  function SamplesOf(reviews: seq<Review>, topKeywords: PerSentiment<seq<string>>, s: Sentiment): Dict<string, seq<string>> {
    KeywordSamples(topKeywords.Get(s), Candidates(reviews, s))
  }

  /**
   * `keyword_matched_samples`: for each sentiment, the samples of each of its
   * top keywords among that sentiment's candidate texts.
   */
  method KeywordMatchedSamples(reviews: seq<Review>, topKeywords: PerSentiment<seq<string>>)
    returns (samples: PerSentiment<Dict<string, seq<string>>>)
    ensures forall s :: samples.Get(s) == SamplesOf(reviews, topKeywords, s)
  {
    samples := Uniform([]);
    for k := 0 to |AllSentiments|
      invariant forall s :: s in AllSentiments[..k] ==> samples.Get(s) == SamplesOf(reviews, topKeywords, s)
    {
      var s := AllSentiments[k];
      var d := MatchKeywords(topKeywords.Get(s), Candidates(reviews, s));
      assert AllSentiments[..k + 1] == AllSentiments[..k] + [s];
      samples := samples.Set(s, d);
    }
    assert AllSentiments[..3] == [Positive, Neutral, Negative];
    assert forall s :: s in AllSentiments[..3] by {
      forall s ensures s in AllSentiments[..3] {
        match s
        case Positive => assert AllSentiments[..3][0] == s;
        case Neutral => assert AllSentiments[..3][1] == s;
        case Negative => assert AllSentiments[..3][2] == s;
      }
    }
  }
}
