/**
 * Contiguous batches and Python slice assignment: the shape shared by the
 * batch executors, which cut a list into `xs[i:i+size]` for
 * i = 0, size, 2*size, ... and write each batch's results back by slice,
 * either to `out[i:i+size]` or to `out[i:i+len(batch)]`.
 */
module Batching {
  import opened Wrappers

  /** `xs[i:i+size]`: the batch starting at `i` (the last one may be short). */
  function Batch<T>(xs: seq<T>, i: nat, size: nat): (b: seq<T>)
    requires i <= |xs|
    ensures |b| == Min(size, |xs| - i)
  {
    xs[i..Min(i + size, |xs|)]
  }

  /**
   * Python's `a[lo:hi] = v` for non-negative bounds: both bounds are clamped
   * to the length, an upper bound below the lower one is raised to it, and
   * the slice is replaced by `v` whatever its length.
   */
  function SliceAssign<T>(a: seq<T>, lo: nat, hi: nat, v: seq<T>): (r: seq<T>)
    ensures lo <= hi <= |a| ==> r == a[..lo] + v + a[hi..]
  {
    var l := Min(lo, |a|);
    var h := Max(l, Min(hi, |a|));
    a[..l] + v + a[h..]
  }

  /** A slice replaced by a list of its own length: same length, the slice holds `v`, nothing else moves. */
  lemma SliceAssignSameSize<T>(a: seq<T>, lo: nat, hi: nat, v: seq<T>)
    requires lo <= hi <= |a| && |v| == hi - lo
    ensures |SliceAssign(a, lo, hi, v)| == |a|
    ensures SliceAssign(a, lo, hi, v)[lo..hi] == v
    ensures forall i :: 0 <= i < |a| && !(lo <= i < hi) ==> SliceAssign(a, lo, hi, v)[i] == a[i]
  {
    var r := SliceAssign(a, lo, hi, v);
    assert r[lo..hi] == v;
  }

  /** A slice replaced by a list of another length resizes the list and shifts every later slot. */
  lemma SliceAssignResizes<T>(a: seq<T>, lo: nat, hi: nat, v: seq<T>)
    requires lo <= hi <= |a|
    ensures |SliceAssign(a, lo, hi, v)| == |a| - (hi - lo) + |v|
    ensures forall i :: hi <= i < |a| ==> SliceAssign(a, lo, hi, v)[i - (hi - lo) + |v|] == a[i]
  {
  }

  /** `[f(j, x) for j, x in enumerate(xs)]`: one result per element, in order. */
  function MapIndexed<T, U>(xs: seq<T>, f: (nat, T) -> U): (r: seq<U>)
    ensures |r| == |xs|
    decreases |xs|
  {
    if xs == [] then []
    else
      var n := |xs| - 1;
      MapIndexed(xs[..n], f) + [f(n, xs[n])]
  }

  /** Extending the input by its next element appends that element's result. */
  lemma MapIndexedSnoc<T, U>(xs: seq<T>, f: (nat, T) -> U, j: nat)
    requires j < |xs|
    ensures MapIndexed(xs[..j + 1], f) == MapIndexed(xs[..j], f) + [f(j, xs[j])]
  {
    var next := xs[..j + 1];
    assert next[..j] == xs[..j] && next[j] == xs[j];
  }

  /** Slot `j` of the result is `f` applied to `j` and element `j`. */
  lemma {:induction false} MapIndexedAt<T, U>(xs: seq<T>, f: (nat, T) -> U, j: nat)
    requires j < |xs|
    ensures MapIndexed(xs, f)[j] == f(j, xs[j])
    decreases |xs|
  {
    var n := |xs| - 1;
    if j < n {
      MapIndexedAt(xs[..n], f, j);
      assert xs[..n][j] == xs[j];
    }
  }

  // ---------------------------------------------------------------------------
  // Sequential batch execution with write-back by slice

  /**
   * Runs the batches starting at `i`, `i + size`, ... in order; batch `s`
   * produces `f(s, xs[s:s+size])`, which is written to `out[s:s+size]`.
   */
  function RunBatches<T, U>(out: seq<U>, xs: seq<T>, size: nat, i: nat, f: (nat, seq<T>) -> seq<U>): seq<U>
    requires size > 0
    decreases |xs| - i
  {
    if i >= |xs| then out
    else RunBatches(SliceAssign(out, i, i + size, f(i, Batch(xs, i, size))), xs, size, i + size, f)
  }

  /**
   * The same run with each batch's output written to `out[s:s+len(batch)]`:
   * the bound is the batch's own length rather than the step.
   */
  function RunBatchesByLength<T, U>(out: seq<U>, xs: seq<T>, size: nat, i: nat, f: (nat, seq<T>) -> seq<U>): seq<U>
    requires size > 0
    decreases |xs| - i
  {
    if i >= |xs| then out
    else
      var batch := Batch(xs, i, size);
      RunBatchesByLength(SliceAssign(out, i, i + |batch|, f(i, batch)), xs, size, i + size, f)
  }

  /**
   * The write-back loop: for each start `0, size, 2*size, ...` below the
   * length, the batch's output replaces `out[start:start+len(batch)]`.
   */
  method WriteBackBatches<T, U>(out: seq<U>, xs: seq<T>, size: nat, f: (nat, seq<T>) -> seq<U>) returns (r: seq<U>)
    requires size > 0
    ensures r == RunBatchesByLength(out, xs, size, 0, f)
  {
    r := out;
    var i: nat := 0;
    while i < |xs|
      invariant RunBatchesByLength(r, xs, size, i, f) == RunBatchesByLength(out, xs, size, 0, f)
      decreases |xs| - i
    {
      var batch := Batch(xs, i, size);
      r := SliceAssign(r, i, i + |batch|, f(i, batch));
      i := i + size;
    }
  }

  /** The batch outputs from `i` on, concatenated in batch order. */
  function BatchOutputs<T, U>(xs: seq<T>, size: nat, i: nat, f: (nat, seq<T>) -> seq<U>): seq<U>
    requires size > 0
    decreases |xs| - i
  {
    if i >= |xs| then [] else f(i, Batch(xs, i, size)) + BatchOutputs(xs, size, i + size, f)
  }

  /** Every batch from `i` on yields exactly one result per input. */
  predicate WellSized<T, U>(xs: seq<T>, size: nat, i: nat, f: (nat, seq<T>) -> seq<U>)
    requires size > 0
    decreases |xs| - i
  {
    i >= |xs| || (|f(i, Batch(xs, i, size))| == |Batch(xs, i, size)| && WellSized(xs, size, i + size, f))
  }

  /**
   * When every batch is well sized, the write-backs leave the prefix alone
   * and fill the rest with the batch outputs in order.
   */
  lemma {:induction false} RunBatchesWellSized<T, U>(out: seq<U>, xs: seq<T>, size: nat, i: nat, f: (nat, seq<T>) -> seq<U>)
    requires size > 0 && i <= |xs| && |out| == |xs|
    requires WellSized(xs, size, i, f)
    ensures RunBatches(out, xs, size, i, f) == out[..i] + BatchOutputs(xs, size, i, f)
    decreases |xs| - i
  {
    if i < |xs| {
      var h := Min(i + size, |xs|);
      var v := f(i, Batch(xs, i, size));
      var out' := SliceAssign(out, i, i + size, v);
      assert out' == out[..i] + v + out[h..];
      if i + size >= |xs| {
        assert out' == out[..i] + v;
        assert RunBatches(out', xs, size, i + size, f) == out';
      } else {
        RunBatchesWellSized(out', xs, size, i + size, f);
        assert out'[..i + size] == out[..i] + v;
      }
    }
  }

  lemma {:induction false} BatchOutputsLength<T, U>(xs: seq<T>, size: nat, i: nat, f: (nat, seq<T>) -> seq<U>)
    requires size > 0 && i <= |xs|
    requires WellSized(xs, size, i, f)
    ensures |BatchOutputs(xs, size, i, f)| == |xs| - i
    decreases |xs| - i
  {
    if i < |xs| && i + size < |xs| {
      BatchOutputsLength(xs, size, i + size, f);
    }
  }

  /**
   * The batch executors' guarantee: a pre-filled list of `|xs|` slots ends
   * with `|xs|` slots, holding the batch outputs in input order, exactly when
   * every batch answers with one result per input.
   */
  lemma BatchedWriteBack<T, U>(out: seq<U>, xs: seq<T>, size: nat, f: (nat, seq<T>) -> seq<U>)
    requires size > 0 && |out| == |xs|
    requires WellSized(xs, size, 0, f)
    ensures RunBatches(out, xs, size, 0, f) == BatchOutputs(xs, size, 0, f)
    ensures |RunBatches(out, xs, size, 0, f)| == |xs|
  {
    RunBatchesWellSized(out, xs, size, 0, f);
    BatchOutputsLength(xs, size, 0, f);
  }

  /**
   * While the list keeps one slot per input, the two bounds clamp to the same
   * slice, so with well-sized answers both runs write the same list.
   */
  lemma {:induction false} ByLengthWellSized<T, U>(out: seq<U>, xs: seq<T>, size: nat, i: nat, f: (nat, seq<T>) -> seq<U>)
    requires size > 0 && i <= |xs| && |out| == |xs|
    requires WellSized(xs, size, i, f)
    ensures RunBatchesByLength(out, xs, size, i, f) == RunBatches(out, xs, size, i, f)
    ensures RunBatchesByLength(out, xs, size, i, f) == out[..i] + BatchOutputs(xs, size, i, f)
  {
    ByLengthMatches(out, xs, size, i, f);
    RunBatchesWellSized(out, xs, size, i, f);
  }

  lemma {:induction false} ByLengthMatches<T, U>(out: seq<U>, xs: seq<T>, size: nat, i: nat, f: (nat, seq<T>) -> seq<U>)
    requires size > 0 && i <= |xs| && |out| == |xs|
    requires WellSized(xs, size, i, f)
    ensures RunBatchesByLength(out, xs, size, i, f) == RunBatches(out, xs, size, i, f)
    decreases |xs| - i
  {
    if i < |xs| {
      var batch := Batch(xs, i, size);
      var v := f(i, batch);
      var out' := SliceAssign(out, i, i + |batch|, v);
      assert out' == SliceAssign(out, i, i + size, v);
      assert |out'| == |xs|;
      if i + size < |xs| {
        ByLengthMatches(out', xs, size, i + size, f);
      }
    }
  }

  /**
   * Slot `k` of the concatenated outputs is the output for `xs[k]` of the
   * batch `s` that holds it.
   */
  lemma {:induction false} BatchOutputsAt<T, U>(xs: seq<T>, size: nat, i: nat, f: (nat, seq<T>) -> seq<U>, m: nat, s: nat, k: nat)
    requires size > 0 && i <= |xs| && WellSized(xs, size, i, f)
    requires s == i + m * size && s <= k < s + size && k < |xs|
    ensures |BatchOutputs(xs, size, i, f)| == |xs| - i
    ensures |f(s, Batch(xs, s, size))| == Min(size, |xs| - s)
    ensures BatchOutputs(xs, size, i, f)[k - i] == f(s, Batch(xs, s, size))[k - s]
    decreases m
  {
    BatchOutputsLength(xs, size, i, f);
    if m > 0 {
      assert s == (i + size) + (m - 1) * size;
      BatchOutputsAt(xs, size, i + size, f, m - 1, s, k);
      var v := f(i, Batch(xs, i, size));
      assert BatchOutputs(xs, size, i, f) == v + BatchOutputs(xs, size, i + size, f);
      assert |v| == size;
    }
  }

  /** Slot `k` of the written-back list holds the output for `xs[k]` of the batch `s` that holds it. */
  lemma BatchedSlot<T, U>(out: seq<U>, xs: seq<T>, size: nat, f: (nat, seq<T>) -> seq<U>, m: nat, s: nat, k: nat)
    requires size > 0 && |out| == |xs| && WellSized(xs, size, 0, f)
    requires s == m * size && s <= k < s + size && k < |xs|
    ensures |RunBatches(out, xs, size, 0, f)| == |xs|
    ensures |f(s, Batch(xs, s, size))| == Min(size, |xs| - s)
    ensures RunBatches(out, xs, size, 0, f)[k] == f(s, Batch(xs, s, size))[k - s]
  {
    BatchedWriteBack(out, xs, size, f);
    BatchOutputsAt(xs, size, 0, f, m, s, k);
  }

  /** A worker that answers its first batch with one result too many. */
  function OneExtraFirst(start: nat, batch: seq<int>): seq<int> {
    if start == 0 then batch + [-1] else batch
  }

  /**
   * Four inputs in batches of two, with `None` slots written as 0: the
   * oversized first answer pushes the list to five slots, the second batch
   * overwrites the extra result, and the last slot is left as `None`.
   */
  lemma OversizedBatchResizes()
    ensures RunBatchesByLength([0, 0, 0, 0], [1, 2, 3, 4], 2, 0, OneExtraFirst) == [1, 2, 3, 4, 0]
  {
    var xs := [1, 2, 3, 4];
    assert Batch(xs, 0, 2) == [1, 2];
    var o1 := SliceAssign([0, 0, 0, 0], 0, 2, [1, 2, -1]);
    assert o1 == [1, 2, -1, 0, 0];
    assert Batch(xs, 2, 2) == [3, 4];
    var o2 := SliceAssign(o1, 2, 4, [3, 4]);
    assert o2 == [1, 2, 3, 4, 0];
    assert RunBatchesByLength(o2, xs, 2, 4, OneExtraFirst) == o2;
  }

  /**
   * Three inputs in batches of two after the same oversized first answer:
   * the short last batch is written to `[2:3]`, which keeps the trailing
   * `None`, while a write to `[2:4]` would have overwritten it.
   */
  lemma ShortLastBatchAfterResize()
    ensures RunBatchesByLength([0, 0, 0], [1, 2, 3], 2, 0, OneExtraFirst) == [1, 2, 3, 0]
    ensures RunBatches([0, 0, 0], [1, 2, 3], 2, 0, OneExtraFirst) == [1, 2, 3]
  {
    var xs := [1, 2, 3];
    assert Batch(xs, 0, 2) == [1, 2];
    var o1 := SliceAssign([0, 0, 0], 0, 2, [1, 2, -1]);
    assert o1 == [1, 2, -1, 0];
    assert Batch(xs, 2, 2) == [3];
    var o2 := SliceAssign(o1, 2, 3, [3]);
    assert o2 == [1, 2, 3, 0];
    assert RunBatchesByLength(o2, xs, 2, 4, OneExtraFirst) == o2;
    var o2' := SliceAssign(o1, 2, 4, [3]);
    assert o2' == [1, 2, 3];
    assert RunBatches(o2', xs, 2, 4, OneExtraFirst) == o2';
  }
}
