/** The batching shared by every resolver (`for i in range(0, len(xs), 999)` with the slice
    `xs[i:i + 999]`) and by the dispatcher (the same walk with 100), together with the
    number of `?` parameters each batched query binds. */
module Batches {

  /** Batch size of the resolvers' `IN (...)` queries. */
  const QueryBatch: nat := 999
  /** Number of ids handed to one enrichment task. */
  const DispatchChunk: nat := 100
  /** The per-statement parameter ceiling the resolvers' comments cite. */
  const ParamLimit: nat := 999

  function Min(a: int, b: int): int { if a <= b then a else b }

  /** The slices `s[i:i + size]` for `i` in `range(0, len(s), size)`, in that order. */
  function Chunks<T>(s: seq<T>, size: nat): (cs: seq<seq<T>>)
    requires size >= 1
    ensures forall k :: 0 <= k < |cs| ==> 1 <= |cs[k]| <= size
    decreases |s|
  {
    if s == [] then []
    else
      var n := Min(size, |s|);
      [s[..n]] + Chunks(s[n..], size)
  }

  function Flatten<T>(cs: seq<seq<T>>): seq<T>
  {
    if cs == [] then [] else cs[0] + Flatten(cs[1..])
  }

  /** Putting the batches back together in order gives the input exactly. */
  lemma {:induction false} ChunksFlatten<T>(s: seq<T>, size: nat)
    requires size >= 1
    ensures Flatten(Chunks(s, size)) == s
    decreases |s|
  {
    if s != [] {
      var n := Min(size, |s|);
      ChunksFlatten(s[n..], size);
      assert s[..n] + s[n..] == s;
    }
  }

  /** There are ceil(|s| / size) batches: the last one is reached only after all but at
      most `size` elements are used up, and together they have room for all of them. */
  lemma {:induction false} ChunksCount<T>(s: seq<T>, size: nat)
    requires size >= 1
    ensures s == [] <==> |Chunks(s, size)| == 0
    ensures (|Chunks(s, size)| - 1) * size < |s| <= |Chunks(s, size)| * size || s == []
    decreases |s|
  {
    if s != [] {
      var n := Min(size, |s|);
      ChunksCount(s[n..], size);
      var c := |Chunks(s[n..], size)|;
      assert |Chunks(s, size)| == c + 1;
      assert (c + 1) * size == c * size + size;
      assert c * size == (c - 1) * size + size;
    }
  }

  /** Batch `k` is the slice `s[k*size : k*size + size]`, clipped at the end of `s`. */
  lemma {:induction false} ChunkAt<T>(s: seq<T>, size: nat, k: nat)
    requires size >= 1 && k < |Chunks(s, size)|
    ensures k * size < |s|
    ensures Chunks(s, size)[k] == s[k * size..Min(k * size + size, |s|)]
    decreases |s|
  {
    var n := Min(size, |s|);
    var t := s[n..];
    assert Chunks(s, size) == [s[..n]] + Chunks(t, size);
    if k > 0 {
      assert Chunks(s, size)[k] == Chunks(t, size)[k - 1];
      ChunkAt(t, size, k - 1);
      assert n == size;
      MulStep(k, size);
      var a: nat := (k - 1) * size;
      var b := Min(a + size, |t|);
      SliceOfSuffix(s, size, a, b);
      assert Min(k * size + size, |s|) == size + b;
    }
  }

  lemma SliceOfSuffix<T>(s: seq<T>, n: nat, i: nat, j: nat)
    requires n <= |s| && i <= j <= |s| - n
    ensures s[n..][i..j] == s[n + i..n + j]
  {
  }

  lemma MulStep(k: nat, size: nat)
    requires k >= 1
    ensures (k - 1) * size >= 0
    ensures k * size == (k - 1) * size + size
  {
  }

  /** An element occurs in the input exactly when it occurs in some batch. */
  lemma {:induction false} InSomeChunk<T>(s: seq<T>, size: nat, x: T)
    requires size >= 1
    ensures x in s <==> exists c :: c in Chunks(s, size) && x in c
    decreases |s|
  {
    if s != [] {
      var n := Min(size, |s|);
      InSomeChunk(s[n..], size, x);
      assert s == s[..n] + s[n..];
      var cs := Chunks(s, size);
      assert cs == [s[..n]] + Chunks(s[n..], size);
      if x in s[n..] {
        var c :| c in Chunks(s[n..], size) && x in c;
        assert c in cs;
      }
    }
  }

  /** Number of `?` placeholders a query binds for one batch plus `extra` further
      parameters (the income band, the UF, the occupation codes). */
  function BoundParams<T>(batch: seq<T>, extra: nat): (n: nat)
    ensures n >= extra
  {
    |batch| + extra
  }

  /** A query that binds only the batch, as the age resolver's does, stays within the
      999-parameter ceiling on every batch. */
  lemma BatchOnlyWithinLimit<T>(s: seq<T>, k: nat)
    requires k < |Chunks(s, QueryBatch)|
    ensures BoundParams(Chunks(s, QueryBatch)[k], 0) <= ParamLimit
  {
  }

  /** A query that binds the batch and at least one more parameter exceeds the ceiling as
      soon as the input fills a whole batch: the names query (`batch + [uf]`), the income
      and risk queries (`batch + [band]`) and the occupation query (`batch + codes`) all
      bind more than 999 parameters on a full first batch. */
  lemma FullBatchOverflows<T>(s: seq<T>, extra: nat)
    requires |s| >= QueryBatch && extra >= 1
    ensures |Chunks(s, QueryBatch)| >= 1
    ensures BoundParams(Chunks(s, QueryBatch)[0], extra) > ParamLimit
  {
    assert Chunks(s, QueryBatch)[0] == s[..QueryBatch];
  }

  /** The largest batch binds exactly min(|s|, 999) + extra parameters: the ceiling is
      respected precisely when the input is short enough to leave room for the extras. */
  lemma {:induction false} MaxBoundParams<T>(s: seq<T>, extra: nat)
    requires s != []
    ensures forall k :: 0 <= k < |Chunks(s, QueryBatch)| ==>
      BoundParams(Chunks(s, QueryBatch)[k], extra) <= BoundParams(Chunks(s, QueryBatch)[0], extra)
    ensures BoundParams(Chunks(s, QueryBatch)[0], extra) == Min(|s|, QueryBatch) + extra
  {
    var cs := Chunks(s, QueryBatch);
    assert cs[0] == s[..Min(QueryBatch, |s|)];
    forall k | 0 <= k < |cs|
      ensures |cs[k]| <= |cs[0]|
    {
      if k > 0 {
        ChunkAt(s, QueryBatch, k);
      }
    }
  }
}
