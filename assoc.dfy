/**
 * Insertion-ordered dictionaries (Python dicts and Counters, JavaScript
 * objects), a stable descending sort (Python's list.sort(reverse=True),
 * Counter.most_common and Array.prototype.sort with a numeric comparator are
 * all stable), and first-occurrence de-duplication (pandas drop_duplicates).
 */
module Assoc {
  import opened Wrappers

  /** A dictionary as the list of its entries in first-insertion order. */
  type Dict<K, V> = seq<(K, V)>

  function Keys<K, V>(d: Dict<K, V>): seq<K>
  {
    seq(|d|, i requires 0 <= i < |d| => d[i].0)
  }

  predicate DistinctKeys<K(==,!new), V>(d: Dict<K, V>) {
    forall i, j :: 0 <= i < j < |d| ==> d[i].0 != d[j].0
  }

  /** `d.get(k)`. */
  function Get<K(==,!new), V>(d: Dict<K, V>, k: K): (r: Option<V>)
    ensures r.Some? <==> k in Keys(d)
  {
    if d == [] then None
    else if d[0].0 == k then
      assert Keys(d)[0] == k;
      Some(d[0].1)
    else
      assert Keys(d) == [d[0].0] + Keys(d[1..]);
      Get(d[1..], k)
  }

  /** `d[k] = v`: an existing key keeps its position, a new key goes last. */
  function Put<K(==,!new), V>(d: Dict<K, V>, k: K, v: V): (r: Dict<K, V>)
    ensures Get(r, k) == Some(v)
    ensures forall k' :: k' != k ==> Get(r, k') == Get(d, k')
  {
    if d == [] then [(k, v)]
    else if d[0].0 == k then [(k, v)] + d[1..]
    else [d[0]] + Put(d[1..], k, v)
  }

  /** In a dictionary with distinct keys, `d.get(k) == v` exactly when `(k, v)` is one of its entries. */
  lemma {:induction false} GetIffEntry<K(!new), V>(d: Dict<K, V>, k: K, v: V)
    requires DistinctKeys(d)
    ensures Get(d, k) == Some(v) <==> (k, v) in d
  {
    if d != [] {
      assert DistinctKeys(d[1..]) by {
        forall i, j | 0 <= i < j < |d[1..]| ensures d[1..][i].0 != d[1..][j].0 {
          assert d[1..][i] == d[i + 1] && d[1..][j] == d[j + 1];
        }
      }
      GetIffEntry(d[1..], k, v);
      assert d == [d[0]] + d[1..];
    }
  }

  lemma KeysAppend<K, V>(a: Dict<K, V>, b: Dict<K, V>)
    ensures Keys(a + b) == Keys(a) + Keys(b)
  {
    assert forall i :: 0 <= i < |a + b| ==> Keys(a + b)[i] == (Keys(a) + Keys(b))[i];
  }

  lemma {:induction false} PutKeys<K(!new), V>(d: Dict<K, V>, k: K, v: V)
    ensures Keys(Put(d, k, v)) == if k in Keys(d) then Keys(d) else Keys(d) + [k]
  {
    if d == [] {
      assert Keys([(k, v)]) == [k];
    } else {
      KeysAppend([d[0]], d[1..]);
      assert d == [d[0]] + d[1..];
      assert Keys([d[0]]) == [d[0].0];
      if d[0].0 == k {
        KeysAppend([(k, v)], d[1..]);
        assert Keys([(k, v)]) == [k];
        assert Keys(d)[0] == k;
      } else {
        PutKeys(d[1..], k, v);
        KeysAppend([d[0]], Put(d[1..], k, v));
        assert k in Keys(d) <==> k in Keys(d[1..]);
      }
    }
  }

  lemma {:induction false} PutKeepsDistinct<K(!new), V>(d: Dict<K, V>, k: K, v: V)
    requires DistinctKeys(d)
    ensures DistinctKeys(Put(d, k, v))
  {
    var r := Put(d, k, v);
    PutKeys(d, k, v);
    assert Keys(r) == if k in Keys(d) then Keys(d) else Keys(d) + [k];
    forall i, j | 0 <= i < j < |r| ensures r[i].0 != r[j].0 {
      assert r[i].0 == Keys(r)[i] && r[j].0 == Keys(r)[j];
      if j < |d| {
        assert Keys(d)[i] == d[i].0 && Keys(d)[j] == d[j].0;
      } else {
        assert Keys(d)[i] == d[i].0;
      }
    }
  }

  // ---------------------------------------------------------------------------
  // Counters

  /** Sum of the counts of a Counter. */
  function Total<K>(d: Dict<K, nat>): nat
  {
    if d == [] then 0 else d[0].1 + Total(d[1..])
  }

  /** `counter[k] += 1`. */
  function Bump<K(==,!new)>(d: Dict<K, nat>, k: K): Dict<K, nat>
  {
    Put(d, k, Get(d, k).GetOr(0) + 1)
  }

  /** `Counter(xs)`: each distinct element with its number of occurrences, in first-seen order. */
  function Tally<K(==,!new)>(xs: seq<K>): Dict<K, nat>
    decreases |xs|
  {
    if xs == [] then [] else Bump(Tally(xs[..|xs| - 1]), xs[|xs| - 1])
  }

  lemma {:induction false} TotalPut<K(!new)>(d: Dict<K, nat>, k: K, v: nat)
    ensures Get(d, k).Some? ==> Total(Put(d, k, v)) + Get(d, k).value == Total(d) + v
    ensures Get(d, k).None? ==> Total(Put(d, k, v)) == Total(d) + v
  {
    if d != [] && d[0].0 != k {
      TotalPut(d[1..], k, v);
    }
  }

  /** The sum of `f` over the values of a dictionary. */
  function SumOf<K, V>(d: Dict<K, V>, f: V -> nat): nat
  {
    if d == [] then 0 else f(d[0].1) + SumOf(d[1..], f)
  }

  lemma {:induction false} SumOfPut<K(!new), V>(d: Dict<K, V>, k: K, v: V, f: V -> nat)
    ensures Get(d, k).Some? ==> SumOf(Put(d, k, v), f) + f(Get(d, k).value) == SumOf(d, f) + f(v)
    ensures Get(d, k).None? ==> SumOf(Put(d, k, v), f) == SumOf(d, f) + f(v)
  {
    if d != [] && d[0].0 != k {
      SumOfPut(d[1..], k, v, f);
    }
  }

  /** `d.get(k) == v` means `(k, v)` is an entry of `d`. */
  lemma {:induction false} GetIsEntry<K(!new), V>(d: Dict<K, V>, k: K)
    requires Get(d, k).Some?
    ensures (k, Get(d, k).value) in d
  {
    if d[0].0 != k {
      GetIsEntry(d[1..], k);
    }
  }

  /** Every entry after `d[k] = v` is `(k, v)` or an entry of `d`. */
  lemma {:induction false} PutEntries<K(!new), V>(d: Dict<K, V>, k: K, v: V)
    ensures forall e :: e in Put(d, k, v) ==> e == (k, v) || e in d
  {
    if d != [] && d[0].0 != k {
      PutEntries(d[1..], k, v);
    }
  }

  /** A Counter holds every element of its input with its exact multiplicity and nothing else. */
  lemma {:induction false} TallyCounts<K(!new)>(xs: seq<K>, k: K)
    ensures Get(Tally(xs), k) == if k in xs then Some(multiset(xs)[k]) else None
    decreases |xs|
  {
    if xs != [] {
      var init, x := xs[..|xs| - 1], xs[|xs| - 1];
      assert xs == init + [x];
      var t := Tally(init);
      assert Tally(xs) == Bump(t, x);
      assert multiset(xs) == multiset(init) + multiset{x};
      TallyCounts(init, k);
      BumpGet(t, x, k);
      assert Get(Tally(xs), k) == Get(Bump(t, x), k);
      if k == x {
        assert Get(t, x).GetOr(0) == multiset(init)[k];
        assert multiset(xs)[k] == multiset(init)[k] + 1;
        assert k in xs;
      } else {
        assert Get(Tally(xs), k) == Get(t, k);
        assert k in xs <==> k in init;
        assert multiset(xs)[k] == multiset(init)[k];
      }
    }
  }

  lemma BumpGet<K(!new)>(d: Dict<K, nat>, k: K, j: K)
    ensures Get(Bump(d, k), j) == if j == k then Some(Get(d, k).GetOr(0) + 1) else Get(d, j)
  {
    if j == k {
      BumpGetSame(d, k);
    } else {
      BumpGetOther(d, k, j);
    }
  }

  lemma BumpGetSame<K(!new)>(d: Dict<K, nat>, k: K)
    ensures Get(Bump(d, k), k) == Some(Get(d, k).GetOr(0) + 1)
  {
    var v := Get(d, k).GetOr(0) + 1;
    assert Bump(d, k) == Put(d, k, v);
  }

  lemma BumpGetOther<K(!new)>(d: Dict<K, nat>, k: K, j: K)
    requires j != k
    ensures Get(Bump(d, k), j) == Get(d, j)
  {
    var v := Get(d, k).GetOr(0) + 1;
    assert Bump(d, k) == Put(d, k, v);
  }

  lemma BumpTotal<K(!new)>(d: Dict<K, nat>, k: K)
    ensures Total(Bump(d, k)) == Total(d) + 1
  {
    TotalPut(d, k, Get(d, k).GetOr(0) + 1);
  }

  /** The counts of a Counter add up to the length of its input. */
  lemma {:induction false} TallyTotal<K(!new)>(xs: seq<K>)
    ensures Total(Tally(xs)) == |xs|
    decreases |xs|
  {
    if xs != [] {
      var init, x := xs[..|xs| - 1], xs[|xs| - 1];
      var t := Tally(init);
      assert Tally(xs) == Bump(t, x);
      TallyTotal(init);
      BumpTotal(t, x);
    }
  }

  lemma {:induction false} TallyDistinct<K(!new)>(xs: seq<K>)
    ensures DistinctKeys(Tally(xs))
    decreases |xs|
  {
    if xs != [] {
      var init, x := xs[..|xs| - 1], xs[|xs| - 1];
      TallyDistinct(init);
      PutKeepsDistinct(Tally(init), x, Get(Tally(init), x).GetOr(0) + 1);
    }
  }

  lemma {:induction false} TallyKeys<K(!new)>(xs: seq<K>, k: K)
    ensures k in Keys(Tally(xs)) <==> k in xs
  {
    TallyCounts(xs, k);
  }

  // ---------------------------------------------------------------------------
  // Percentages

  /** `100 * c / total`, with exact arithmetic. */
  function Share(c: nat, total: nat): real
    requires total > 0
  {
    100.0 * c as real / total as real
  }

  /** `{k: 100 * v / total for k, v in d.items()}`, with exact arithmetic. */
  function Percentages<K>(d: Dict<K, nat>, total: nat): (r: Dict<K, real>)
    requires d != [] ==> total > 0
    ensures Keys(r) == Keys(d)
  {
    if d == [] then []
    else
      var r := [(d[0].0, Share(d[0].1, total))] + Percentages(d[1..], total);
      assert Keys(d) == [d[0].0] + Keys(d[1..]);
      assert Keys(r) == [d[0].0] + Keys(Percentages(d[1..], total));
      r
  }

  /** Each key's percentage is its count's share of `total`, times 100. */
  lemma {:induction false} PercentagesGet<K(!new)>(d: Dict<K, nat>, total: nat, k: K)
    requires d != [] ==> total > 0
    ensures Get(Percentages(d, total), k) ==
      if Get(d, k).Some? then Some(Share(Get(d, k).value, total)) else None
  {
    if d != [] && d[0].0 != k {
      PercentagesGet(d[1..], total, k);
    }
  }

  function RealTotal<K>(d: Dict<K, real>): real
  {
    if d == [] then 0.0 else d[0].1 + RealTotal(d[1..])
  }

  lemma {:induction false} PercentagesScale<K>(d: Dict<K, nat>, total: nat)
    requires total > 0
    ensures RealTotal(Percentages(d, total)) == Share(Total(d), total)
  {
    if d != [] {
      PercentagesScale(d[1..], total);
      SharesAdd(d[0].1, Total(d[1..]), total);
    }
  }

  /** Percentages of a non-empty Counter of its own total add up to 100 (before rounding). */
  lemma PercentagesSumTo100<K>(d: Dict<K, nat>)
    requires Total(d) > 0
    ensures RealTotal(Percentages(d, Total(d))) == 100.0
  {
    PercentagesScale(d, Total(d));
    ShareOfWhole(Total(d));
  }

  lemma SharesAdd(a: nat, b: nat, total: nat)
    requires total > 0
    ensures Share(a, total) + Share(b, total) == Share(a + b, total)
  {
    var t := total as real;
    var x, y := 100.0 * a as real / t, 100.0 * b as real / t;
    assert x * t == 100.0 * a as real;
    assert y * t == 100.0 * b as real;
    assert (x + y) * t == 100.0 * (a + b) as real;
  }

  lemma ShareOfWhole(total: nat)
    requires total > 0
    ensures Share(total, total) == 100.0
  {
    var t := total as real;
    assert (100.0 * t / t) * t == 100.0 * t;
  }

  // ---------------------------------------------------------------------------
  // Stable descending sort and truncation

  predicate SortedDesc<T>(s: seq<T>, key: T -> int) {
    forall i, j :: 0 <= i < j < |s| ==> key(s[i]) >= key(s[j])
  }

  /** The elements of `s` whose key is `k`, in order. */
  function WithKey<T>(s: seq<T>, key: T -> int, k: int): seq<T>
  {
    if s == [] then [] else (if key(s[0]) == k then [s[0]] else []) + WithKey(s[1..], key, k)
  }

  /** Inserts `x` before the first element whose key does not exceed its own. */
  function Insert<T>(x: T, s: seq<T>, key: T -> int): seq<T>
  {
    if s == [] || key(s[0]) <= key(x) then [x] + s else [s[0]] + Insert(x, s[1..], key)
  }

  /** Stable sort by `key`, largest first. */
  function SortDesc<T>(xs: seq<T>, key: T -> int): seq<T>
  {
    if xs == [] then [] else Insert(xs[0], SortDesc(xs[1..], key), key)
  }

  lemma {:induction false} InsertMultiset<T>(x: T, s: seq<T>, key: T -> int)
    ensures multiset(Insert(x, s, key)) == multiset(s) + multiset{x}
  {
    if s != [] && key(s[0]) > key(x) {
      InsertMultiset(x, s[1..], key);
      assert s == [s[0]] + s[1..];
    }
  }

  lemma {:induction false} InsertSorted<T>(x: T, s: seq<T>, key: T -> int)
    requires SortedDesc(s, key)
    ensures SortedDesc(Insert(x, s, key), key)
  {
    if s != [] && key(s[0]) > key(x) {
      var t := Insert(x, s[1..], key);
      InsertSorted(x, s[1..], key);
      InsertMultiset(x, s[1..], key);
      var r := [s[0]] + t;
      forall j | 0 <= j < |t| ensures key(s[0]) >= key(t[j]) {
        assert t[j] in multiset(t);
        if t[j] != x {
          assert t[j] in multiset(s[1..]);
          var m :| 0 <= m < |s[1..]| && s[1..][m] == t[j];
          assert s[m + 1] == t[j];
        }
      }
      forall i, j | 0 <= i < j < |r| ensures key(r[i]) >= key(r[j]) {
        assert r[j] == t[j - 1];
        if i > 0 {
          assert r[i] == t[i - 1];
        }
      }
    }
  }

  lemma {:induction false} InsertWithKey<T>(x: T, s: seq<T>, key: T -> int, k: int)
    ensures WithKey(Insert(x, s, key), key, k) == (if key(x) == k then [x] else []) + WithKey(s, key, k)
  {
    if s == [] || key(s[0]) <= key(x) {
      WithKeyCons(x, s, key, k);
    } else {
      var rest := Insert(x, s[1..], key);
      InsertWithKey(x, s[1..], key, k);
      WithKeyCons(s[0], rest, key, k);
      WithKeyCons(s[0], s[1..], key, k);
      assert s == [s[0]] + s[1..];
      assert key(s[0]) != k || key(x) != k;
    }
  }

  lemma WithKeyCons<T>(y: T, s: seq<T>, key: T -> int, k: int)
    ensures WithKey([y] + s, key, k) == (if key(y) == k then [y] else []) + WithKey(s, key, k)
  {
    assert ([y] + s)[1..] == s;
  }

  /** The sort is ordered, a permutation, and stable: equal keys keep their input order. */
  lemma {:induction false} SortDescSpec<T>(xs: seq<T>, key: T -> int)
    ensures SortedDesc(SortDesc(xs, key), key)
    ensures multiset(SortDesc(xs, key)) == multiset(xs)
    ensures forall k :: WithKey(SortDesc(xs, key), key, k) == WithKey(xs, key, k)
  {
    if xs != [] {
      SortDescSpec(xs[1..], key);
      InsertSorted(xs[0], SortDesc(xs[1..], key), key);
      InsertMultiset(xs[0], SortDesc(xs[1..], key), key);
      forall k ensures WithKey(SortDesc(xs, key), key, k) == WithKey(xs, key, k) {
        InsertWithKey(xs[0], SortDesc(xs[1..], key), key, k);
      }
      assert xs == [xs[0]] + xs[1..];
    }
  }

  /** `xs[:n]`. */
  function Take<T>(xs: seq<T>, n: nat): (r: seq<T>)
    ensures |r| == Min(n, |xs|) && r == xs[..|r|]
  {
    xs[..Min(n, |xs|)]
  }

  /** Python's `xs[:n]` for any integer `n`: a negative `n` drops the last `-n` elements. */
  function PySliceTo<T>(xs: seq<T>, n: int): (r: seq<T>)
    ensures |r| <= |xs| && r == xs[..|r|]
    ensures n >= 0 ==> |r| == Min(n, |xs|)
    ensures n < 0 ==> |r| == Max(0, |xs| + n)
  {
    if n >= 0 then Take(xs, n) else xs[..Max(0, |xs| + n)]
  }

  /**
   * The first `n` elements of the descending sort are a top `n`: an element
   * left out means `n` were kept, each with a key at least as large.
   */
  lemma TakeSortedIsTop<T>(xs: seq<T>, key: T -> int, n: nat, x: T)
    requires x in xs && x !in Take(SortDesc(xs, key), n)
    ensures |Take(SortDesc(xs, key), n)| == n
    ensures forall j :: 0 <= j < n ==> key(Take(SortDesc(xs, key), n)[j]) >= key(x)
  {
    var sd := SortDesc(xs, key);
    SortDescSpec(xs, key);
    assert x in multiset(sd);
    var p :| 0 <= p < |sd| && sd[p] == x;
    assert p >= |Take(sd, n)|;
  }

  /** `Counter(xs).most_common(n)`: the `n` largest counts, ties in first-seen order. */
  function MostCommon<K(==,!new)>(xs: seq<K>, n: nat): seq<(K, nat)> {
    Take(SortDesc(Tally(xs), CountOf), n)
  }

  /** The sort key of a Counter entry. */
  function CountOf<K>(e: (K, nat)): int { e.1 }

  /** A dictionary with distinct keys holds each entry at most once. */
  lemma {:induction false} DistinctKeysOnce<K(!new), V>(d: Dict<K, V>, e: (K, V))
    requires DistinctKeys(d)
    ensures multiset(d)[e] <= 1
  {
    if d != [] {
      assert d == [d[0]] + d[1..];
      assert DistinctKeys(d[1..]) by {
        forall i, j | 0 <= i < j < |d[1..]| ensures d[1..][i].0 != d[1..][j].0 {
          assert d[1..][i] == d[i + 1] && d[1..][j] == d[j + 1];
        }
      }
      DistinctKeysOnce(d[1..], e);
    }
  }

  /** An element found at two positions occurs at least twice. */
  lemma TwiceInSeq<T>(s: seq<T>, i: nat, j: nat)
    requires i < j < |s| && s[i] == s[j]
    ensures multiset(s)[s[i]] >= 2
  {
    assert s == s[..j] + s[j..];
    assert s[i] in s[..j];
    assert s[j..][0] == s[i];
  }

  /** Every entry of `most_common` is an element of the input with its exact count. */
  lemma MostCommonEntries<K(!new)>(xs: seq<K>, n: nat)
    ensures forall j :: 0 <= j < |MostCommon(xs, n)| ==>
      MostCommon(xs, n)[j].0 in xs && MostCommon(xs, n)[j].1 == multiset(xs)[MostCommon(xs, n)[j].0]
  {
    var t := Tally(xs);
    var sd := SortDesc(t, CountOf);
    var r := MostCommon(xs, n);
    SortDescSpec(t, CountOf);
    TallyDistinct(xs);
    forall j | 0 <= j < |r| ensures r[j].0 in xs && r[j].1 == multiset(xs)[r[j].0] {
      assert r[j] == sd[j];
      assert r[j] in multiset(sd);
      assert r[j] in t;
      GetIffEntry(t, r[j].0, r[j].1);
      TallyCounts(xs, r[j].0);
    }
  }

  /** No element has two entries in `most_common`. */
  lemma MostCommonDistinct<K(!new)>(xs: seq<K>, n: nat)
    ensures forall i, j :: 0 <= i < j < |MostCommon(xs, n)| ==> MostCommon(xs, n)[i].0 != MostCommon(xs, n)[j].0
  {
    var t := Tally(xs);
    var sd := SortDesc(t, CountOf);
    var r := MostCommon(xs, n);
    SortDescSpec(t, CountOf);
    TallyDistinct(xs);
    MostCommonEntries(xs, n);
    forall i, j | 0 <= i < j < |r| ensures r[i].0 != r[j].0 {
      if r[i].0 == r[j].0 {
        assert r[i] == sd[i] && r[j] == sd[j];
        TwiceInSeq(sd, i, j);
        DistinctKeysOnce(t, r[i]);
      }
    }
  }

  /** An element left out of `most_common(n)` means `n` entries were kept, each counted at least as often. */
  lemma MostCommonTop<K(!new)>(xs: seq<K>, n: nat, x: K)
    requires x in xs && x !in Keys(MostCommon(xs, n))
    ensures |MostCommon(xs, n)| == n
    ensures forall j :: 0 <= j < n ==> MostCommon(xs, n)[j].1 >= multiset(xs)[x]
  {
    var t := Tally(xs);
    var e := (x, multiset(xs)[x]);
    TallyDistinct(xs);
    TallyCounts(xs, x);
    GetIffEntry(t, x, multiset(xs)[x]);
    var r := MostCommon(xs, n);
    assert e !in r by {
      forall j | 0 <= j < |r| ensures r[j] != e {
        assert Keys(r)[j] == r[j].0;
      }
    }
    TakeSortedIsTop(t, CountOf, n, e);
  }

  /**
   * `most_common(n)` is a top `n`: at most `n` entries, each an element with
   * its exact count, no element twice, counts non-increasing, and an element
   * left out means `n` entries were kept, each counted at least as often.
   */
  lemma MostCommonSpec<K(!new)>(xs: seq<K>, n: nat, x: K)
    ensures |MostCommon(xs, n)| <= n
    ensures forall j :: 0 <= j < |MostCommon(xs, n)| ==>
      MostCommon(xs, n)[j].0 in xs && MostCommon(xs, n)[j].1 == multiset(xs)[MostCommon(xs, n)[j].0]
    ensures forall i, j :: 0 <= i < j < |MostCommon(xs, n)| ==> MostCommon(xs, n)[i].0 != MostCommon(xs, n)[j].0
    ensures forall i, j :: 0 <= i < j < |MostCommon(xs, n)| ==> MostCommon(xs, n)[i].1 >= MostCommon(xs, n)[j].1
    ensures x in xs && x !in Keys(MostCommon(xs, n)) ==>
      |MostCommon(xs, n)| == n && forall j :: 0 <= j < n ==> MostCommon(xs, n)[j].1 >= multiset(xs)[x]
  {
    var sd := SortDesc(Tally(xs), CountOf);
    var r := MostCommon(xs, n);
    SortDescSpec(Tally(xs), CountOf);
    MostCommonEntries(xs, n);
    MostCommonDistinct(xs, n);
    forall i, j | 0 <= i < j < |r| ensures r[i].1 >= r[j].1 {
      assert CountOf(sd[i]) >= CountOf(sd[j]);
    }
    if x in xs && x !in Keys(r) {
      MostCommonTop(xs, n, x);
    }
  }

  /** The elements of `most_common(n)`, read as a top `n` of the elements themselves. */
  lemma MostCommonKeysSpec<K(!new)>(xs: seq<K>, n: nat, x: K)
    ensures |Keys(MostCommon(xs, n))| <= n
    ensures forall j :: 0 <= j < |Keys(MostCommon(xs, n))| ==> Keys(MostCommon(xs, n))[j] in xs
    ensures forall i, j :: 0 <= i < j < |Keys(MostCommon(xs, n))| ==> Keys(MostCommon(xs, n))[i] != Keys(MostCommon(xs, n))[j]
    ensures forall i, j :: 0 <= i < j < |Keys(MostCommon(xs, n))| ==>
      multiset(xs)[Keys(MostCommon(xs, n))[i]] >= multiset(xs)[Keys(MostCommon(xs, n))[j]]
    ensures x in xs && x !in Keys(MostCommon(xs, n)) ==>
      |Keys(MostCommon(xs, n))| == n && forall j :: 0 <= j < n ==> multiset(xs)[Keys(MostCommon(xs, n))[j]] >= multiset(xs)[x]
  {
    var mc := MostCommon(xs, n);
    MostCommonSpec(xs, n, x);
    assert forall j :: 0 <= j < |mc| ==> Keys(mc)[j] == mc[j].0;
  }

  /** The positions holding `true`, in increasing order. */
  function Positions(flags: seq<bool>): (idx: seq<nat>)
    ensures forall j :: 0 <= j < |idx| ==> idx[j] < |flags| && flags[idx[j]]
    ensures forall j, j' :: 0 <= j < j' < |idx| ==> idx[j] < idx[j']
    ensures forall i :: 0 <= i < |flags| && flags[i] ==> i in idx
  {
    if flags == [] then []
    else
      var n := |flags| - 1;
      var init := Positions(flags[..n]);
      assert forall j :: 0 <= j < |init| ==> flags[init[j]] == flags[..n][init[j]];
      init + (if flags[n] then [n] else [])
  }

  /** The elements whose flag is set, in order. */
  function Select<T>(xs: seq<T>, flags: seq<bool>): seq<T>
    requires |xs| == |flags|
  {
    if xs == [] then []
    else
      var n := |xs| - 1;
      Select(xs[..n], flags[..n]) + (if flags[n] then [xs[n]] else [])
  }

  /** The last element is kept exactly when its flag is set. */
  lemma SelectLast<T>(xs: seq<T>, flags: seq<bool>)
    requires |xs| == |flags| > 0
    ensures Select(xs, flags) == Select(xs[..|xs| - 1], flags[..|xs| - 1]) + (if flags[|xs| - 1] then [xs[|xs| - 1]] else [])
  {
  }

  /** The `j`-th selected element is the element at the `j`-th set position. */
  lemma {:induction false} SelectAtPositions<T>(xs: seq<T>, flags: seq<bool>)
    requires |xs| == |flags|
    ensures |Select(xs, flags)| == |Positions(flags)|
    ensures forall j :: 0 <= j < |Select(xs, flags)| ==> Select(xs, flags)[j] == xs[Positions(flags)[j]]
  {
    if xs != [] {
      var n := |xs| - 1;
      SelectAtPositions(xs[..n], flags[..n]);
      var p := Positions(flags[..n]);
      var r := Select(xs, flags);
      var q := Positions(flags);
      assert q == p + (if flags[n] then [n] else []);
      forall j | 0 <= j < |r| ensures r[j] == xs[q[j]] {
        if j < |p| {
          assert r[j] == Select(xs[..n], flags[..n])[j];
          assert xs[..n][p[j]] == xs[p[j]];
        }
      }
    }
  }

  /**
   * Counting the selected elements: the counts add up to the number of set
   * flags, every selected element is a key, and every key was selected.
   */
  lemma SelectTally<K(!new)>(xs: seq<K>, flags: seq<bool>)
    requires |xs| == |flags|
    ensures Total(Tally(Select(xs, flags))) == |Positions(flags)|
    ensures forall i :: 0 <= i < |xs| && flags[i] ==> xs[i] in Keys(Tally(Select(xs, flags)))
    ensures forall k :: k in Keys(Tally(Select(xs, flags))) ==> exists i :: 0 <= i < |xs| && flags[i] && xs[i] == k
  {
    var sel := Select(xs, flags);
    var p := Positions(flags);
    SelectAtPositions(xs, flags);
    TallyTotal(sel);
    forall i | 0 <= i < |xs| && flags[i] ensures xs[i] in Keys(Tally(sel)) {
      var j :| 0 <= j < |p| && p[j] == i;
      TallyKeys(sel, sel[j]);
    }
    forall k | k in Keys(Tally(sel)) ensures exists i :: 0 <= i < |xs| && flags[i] && xs[i] == k {
      TallyKeys(sel, k);
      var j :| 0 <= j < |sel| && sel[j] == k;
      assert flags[p[j]] && xs[p[j]] == k;
    }
  }

  // ---------------------------------------------------------------------------
  // First-occurrence de-duplication

  /** No element before position `i` has the same key as `xs[i]`. */
  predicate FirstOfKey<T, K(==)>(xs: seq<T>, i: nat, key: T -> K)
    requires i < |xs|
  {
    forall j :: 0 <= j < i ==> key(xs[j]) != key(xs[i])
  }

  /** `drop_duplicates(subset=key, keep="first")`: the first element of each key, in order. */
  function DistinctBy<T, K(==)>(xs: seq<T>, key: T -> K): seq<T>
    decreases |xs|
  {
    if xs == [] then []
    else
      var n := |xs| - 1;
      DistinctBy(xs[..n], key) + (if FirstOfKey(xs, n, key) then [xs[n]] else [])
  }

  /**
   * The de-duplicated list holds one element per key, each one the first of
   * its key, and misses no key of the input.
   */
  lemma {:induction false} DistinctBySpec<T, K>(xs: seq<T>, key: T -> K)
    ensures forall i, j :: 0 <= i < j < |DistinctBy(xs, key)| ==>
      key(DistinctBy(xs, key)[i]) != key(DistinctBy(xs, key)[j])
    ensures forall y :: y in DistinctBy(xs, key) ==> y in xs
    ensures forall i :: 0 <= i < |xs| ==> exists j :: 0 <= j < |DistinctBy(xs, key)| && key(DistinctBy(xs, key)[j]) == key(xs[i])
    ensures forall j :: 0 <= j < |DistinctBy(xs, key)| ==>
      exists i :: 0 <= i < |xs| && DistinctBy(xs, key)[j] == xs[i] && FirstOfKey(xs, i, key)
  {
    DistinctByFirstOfKey(xs, key);
    DistinctByKeys(xs, key);
    var r := DistinctBy(xs, key);
    forall i | 0 <= i < |xs| ensures exists j :: 0 <= j < |r| && key(r[j]) == key(xs[i]) {
      var j :| 0 <= j < |r| && key(r[j]) == key(xs[i]);
    }
  }

  /** One element per key, drawn from the input, and no key of the input missed. */
  lemma {:induction false} DistinctByKeys<T, K>(xs: seq<T>, key: T -> K)
    ensures forall i, j :: 0 <= i < j < |DistinctBy(xs, key)| ==>
      key(DistinctBy(xs, key)[i]) != key(DistinctBy(xs, key)[j])
    ensures forall y :: y in DistinctBy(xs, key) ==> y in xs
    ensures forall i :: 0 <= i < |xs| ==> exists j :: 0 <= j < |DistinctBy(xs, key)| && key(DistinctBy(xs, key)[j]) == key(xs[i])
    decreases |xs|
  {
    if xs != [] {
      var n := |xs| - 1;
      var init := xs[..n];
      var p := DistinctBy(init, key);
      var r := DistinctBy(xs, key);
      DistinctByKeys(init, key);
      assert r == p + (if FirstOfKey(xs, n, key) then [xs[n]] else []);
      forall i, j | 0 <= i < j < |r| ensures key(r[i]) != key(r[j]) {
        if j >= |p| {
          assert r[j] == xs[n] && r[i] == p[i];
          assert r[i] in init;
          var m :| 0 <= m < n && init[m] == r[i];
          assert xs[m] == init[m];
        }
      }
      forall i | 0 <= i < |xs| ensures exists j :: 0 <= j < |r| && key(r[j]) == key(xs[i]) {
        if i < n {
          assert xs[i] == init[i];
          var j :| 0 <= j < |p| && key(p[j]) == key(init[i]);
          assert r[j] == p[j];
        } else if FirstOfKey(xs, n, key) {
          assert r[|p|] == xs[n];
        } else {
          var m :| 0 <= m < n && key(xs[m]) == key(xs[n]);
          assert xs[m] == init[m];
          var j :| 0 <= j < |p| && key(p[j]) == key(init[m]);
          assert r[j] == p[j];
        }
      }
    }
  }
  /** The flags of the elements that come first among their key. */
  function FirstFlags<T, K(==)>(xs: seq<T>, key: T -> K): (f: seq<bool>)
    ensures |f| == |xs| && forall i :: 0 <= i < |xs| ==> f[i] == FirstOfKey(xs, i, key)
  {
    seq(|xs|, i requires 0 <= i < |xs| => FirstOfKey(xs, i, key))
  }

  /**
   * `keep="first"` in input order: the de-duplicated list is the subsequence
   * of the elements that come first among their key, so its j-th element is
   * the input element at the j-th such position, and these positions
   * increase.
   */
  lemma {:induction false} DistinctByKeepsFirsts<T, K>(xs: seq<T>, key: T -> K)
    ensures DistinctBy(xs, key) == Select(xs, FirstFlags(xs, key))
    ensures |DistinctBy(xs, key)| == |Positions(FirstFlags(xs, key))|
    ensures forall j :: 0 <= j < |DistinctBy(xs, key)| ==>
      Positions(FirstFlags(xs, key))[j] < |xs| &&
      DistinctBy(xs, key)[j] == xs[Positions(FirstFlags(xs, key))[j]] &&
      FirstOfKey(xs, Positions(FirstFlags(xs, key))[j], key)
    decreases |xs|
  {
    if xs != [] {
      var n := |xs| - 1;
      DistinctByKeepsFirsts(xs[..n], key);
      var f := FirstFlags(xs, key);
      forall i | 0 <= i < n ensures FirstFlags(xs[..n], key)[i] == f[i] {
        assert forall j :: 0 <= j < i ==> xs[..n][j] == xs[j];
        assert xs[..n][i] == xs[i];
      }
      assert FirstFlags(xs[..n], key) == f[..n];
      assert f[n] == FirstOfKey(xs, n, key);
      SelectLast(xs, f);
    }
    SelectAtPositions(xs, FirstFlags(xs, key));
  }

  /** Each kept element is an input element that comes first among its key. */
  lemma DistinctByFirstOfKey<T, K>(xs: seq<T>, key: T -> K)
    ensures forall j :: 0 <= j < |DistinctBy(xs, key)| ==>
      exists i :: 0 <= i < |xs| && DistinctBy(xs, key)[j] == xs[i] && FirstOfKey(xs, i, key)
  {
    DistinctByKeepsFirsts(xs, key);
  }

  /**
   * `ys` lists, in input order, the present values of `g` over `xs`, and
   * `idx` says which input each one came from.
   */
  ghost predicate Extracts<A, T>(xs: seq<A>, ys: seq<T>, idx: seq<nat>, g: A -> Option<T>) {
    |idx| == |ys|
    && (forall m :: 0 <= m < |idx| ==> idx[m] < |xs| && g(xs[idx[m]]) == Some(ys[m]))
    && (forall m, m' :: 0 <= m < m' < |idx| ==> idx[m] < idx[m'])
    && (forall i :: 0 <= i < |xs| && g(xs[i]).Some? ==> i in idx)
  }

  /** Two outputs appear in the order of inputs whose `g` value they are. */
  ghost predicate InInputOrder<A, T>(xs: seq<A>, out: seq<T>, g: A -> Option<T>) {
    forall j, j' :: 0 <= j < j' < |out| ==>
      exists i, i' :: 0 <= i < i' < |xs| && g(xs[i]) == Some(out[j]) && g(xs[i']) == Some(out[j'])
  }

  /** A selection by flags extracts the flagged inputs, when `g` keeps exactly those. */
  lemma SelectExtracts<T>(xs: seq<T>, flags: seq<bool>, g: T -> Option<T>)
    requires |xs| == |flags|
    requires forall i :: 0 <= i < |xs| ==> (flags[i] <==> g(xs[i]).Some?) && (flags[i] ==> g(xs[i]) == Some(xs[i]))
    ensures Extracts(xs, Select(xs, flags), Positions(flags), g)
  {
    SelectAtPositions(xs, flags);
  }

  /**
   * De-duplicating an extraction keeps, for each key, the value of the first
   * input that yields that key.
   */
  lemma DistinctByFirstInputs<A, T, K>(xs: seq<A>, ys: seq<T>, idx: seq<nat>, g: A -> Option<T>, key: T -> K)
    requires Extracts(xs, ys, idx, g)
    ensures forall j :: 0 <= j < |DistinctBy(ys, key)| ==>
      exists i :: 0 <= i < |xs| && g(xs[i]) == Some(DistinctBy(ys, key)[j]) && (forall k :: 0 <= k < i && g(xs[k]).Some? ==> key(g(xs[k]).value) != key(DistinctBy(ys, key)[j]))
  {
    var r := DistinctBy(ys, key);
    var p := Positions(FirstFlags(ys, key));
    DistinctByKeepsFirsts(ys, key);
    forall j | 0 <= j < |r|
      ensures exists i :: 0 <= i < |xs| && g(xs[i]) == Some(r[j]) && (forall k :: 0 <= k < i && g(xs[k]).Some? ==> key(g(xs[k]).value) != key(r[j]))
    {
      FirstInputOf(xs, ys, idx, g, key, p[j]);
      assert r[j] == ys[p[j]];
    }
  }

  /** The input behind the first output of a key is the first input that yields that key. */
  lemma FirstInputOf<A, T, K>(xs: seq<A>, ys: seq<T>, idx: seq<nat>, g: A -> Option<T>, key: T -> K, m: nat)
    requires Extracts(xs, ys, idx, g) && m < |ys| && FirstOfKey(ys, m, key)
    ensures idx[m] < |xs| && g(xs[idx[m]]) == Some(ys[m])
    ensures forall k :: 0 <= k < idx[m] && g(xs[k]).Some? ==> key(g(xs[k]).value) != key(ys[m])
  {
    forall k | 0 <= k < idx[m] && g(xs[k]).Some? ensures key(g(xs[k]).value) != key(ys[m]) {
      var m' :| 0 <= m' < |idx| && idx[m'] == k;
      assert m' < m;
      assert key(ys[m']) != key(ys[m]);
    }
  }

  /** De-duplicating an extraction keeps the inputs' order. */
  lemma DistinctByInputOrder<A, T, K>(xs: seq<A>, ys: seq<T>, idx: seq<nat>, g: A -> Option<T>, key: T -> K)
    requires Extracts(xs, ys, idx, g)
    ensures InInputOrder(xs, DistinctBy(ys, key), g)
  {
    var r := DistinctBy(ys, key);
    var p := Positions(FirstFlags(ys, key));
    DistinctByKeepsFirsts(ys, key);
    forall j, j' | 0 <= j < j' < |r|
      ensures exists i, i' :: 0 <= i < i' < |xs| && g(xs[i]) == Some(r[j]) && g(xs[i']) == Some(r[j'])
    {
      assert p[j] < p[j'];
      assert idx[p[j]] < idx[p[j']];
    }
  }
}
