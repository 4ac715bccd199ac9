/** Mapping a list over forked network contexts: by contiguous chunks, or round-robin. */
module Forks {
  import opened Arith
  import opened Wrappers
  import opened FlatRows

  /** The network context an item is processed with. */
  datatype Ctx = Main | Fork(i: nat)

  lemma CeilCovers(a: nat, b: nat)
    requires 0 < b
    ensures 0 <= CeilDiv(a, b) * b && a <= CeilDiv(a, b) * b
  {
    var q := CeilDiv(a, b);
    assert a + b - 1 == b * q + (a + b - 1) % b;
    Commute(b, q);
    MulMono(0, q, b);
  }

  lemma CeilAtMost(a: nat, b: nat, m: nat)
    requires 0 < b && a <= m * b
    ensures CeilDiv(a, b) <= m
  {
    var q := CeilDiv(a, b);
    assert a + b - 1 == b * q + (a + b - 1) % b;
    if q > m {
      MulMono(m + 1, q, b);
      Distribute(m, 1, b);
      Commute(b, q);
    }
  }

  /** Forks needed for chunks that are large enough for `max` forks: no more than that. */
  lemma ForksWithinLimit(len: nat, max: nat)
    requires 0 < max && 0 < len
    ensures 0 < CeilDiv(len, max) && CeilDiv(len, CeilDiv(len, max)) <= max
  {
    var chunk := CeilDiv(len, max);
    CeilCovers(len, max);
    assert chunk == 0 ==> chunk * max == 0;
    Commute(chunk, max);
    CeilAtMost(len, chunk, max);
  }

  /** Contiguous chunks of a given size, the last one possibly shorter. */
  function Chunks<T>(xs: seq<T>, size: nat): seq<seq<T>>
    requires 0 < size
    decreases |xs|
  {
    if xs == [] then [] else [xs[..Min(size, |xs|)]] + Chunks(xs[Min(size, |xs|)..], size)
  }

  lemma {:induction false} ChunksFlatten<T>(xs: seq<T>, size: nat)
    requires 0 < size
    ensures Flatten(Chunks(xs, size)) == xs
    decreases |xs|
  {
    if xs != [] {
      var k := Min(size, |xs|);
      ChunksFlatten(xs[k..], size);
      FlattenFirst(xs[..k], Chunks(xs[k..], size));
      assert xs[..k] + xs[k..] == xs;
    }
  }

  lemma FlattenFirst<T>(first: seq<T>, rest: seq<seq<T>>)
    ensures Flatten([first] + rest) == first + Flatten(rest)
  {
    assert ([first] + rest)[1..] == rest;
  }

  lemma {:induction false} ChunksCount<T>(xs: seq<T>, size: nat)
    requires 0 < size
    ensures |Chunks(xs, size)| == CeilDiv(|xs|, size)
    decreases |xs|
  {
    if xs == [] {
      CeilAtMost(0, size, 0);
    } else {
      ChunksCount(xs[Min(size, |xs|)..], size);
      CeilStep(|xs|, size);
    }
  }

  lemma CeilStep(n: nat, size: nat)
    requires 0 < size && 0 < n
    ensures CeilDiv(n, size) == 1 + CeilDiv(n - Min(size, n), size)
  {
    if n <= size {
      CeilAtMost(0, size, 0);
      CeilAtMost(n, size, 1);
      CeilCovers(n, size);
      var q := CeilDiv(n, size);
      assert q == 0 ==> q * size == 0;
    } else {
      var x := n - size + size - 1;
      assert x == size * (x / size) + x % size;
      assert x + size == size * ((x + size) / size) + (x + size) % size;
      Distribute(x / size, 1, size);
      Commute(size, x / size + 1);
      Commute(size, x / size);
      DivModUnique(size, (x + size) / size, (x + size) % size, x / size + 1, x % size);
    }
  }

  /** The context of item `i` among `len`. */
  function ContextOf(i: nat, len: nat, max: nat): Ctx {
    if max == 0 || len <= 1 || CeilDiv(len, max) == 0 then Main else Fork(i / CeilDiv(len, max))
  }

  /** Maps one chunk with one context. */
  method MapChunk<T, R>(chunk: seq<T>, ctx: Ctx, map_: (T, Ctx) -> R) returns (out: seq<R>)
    ensures |out| == |chunk| && forall i :: 0 <= i < |chunk| ==> out[i] == map_(chunk[i], ctx)
  {
    out := [];
    for i := 0 to |chunk|
      invariant |out| == i && forall j :: 0 <= j < i ==> out[j] == map_(chunk[j], ctx)
    {
      out := out + [map_(chunk[i], ctx)];
    }
  }

  /** All results up to position `n` are those of the sequential map, each with the context of its chunk. */
  ghost predicate Mapped<T, R>(inputs: seq<T>, size: nat, map_: (T, Ctx) -> R, out: seq<R>)
    requires 0 < size
  {
    |out| <= |inputs| && forall i: nat :: i < |out| ==> out[i] == map_(inputs[i], Fork(i / size))
  }

  /** Positions `start .. start + len` all belong to chunk `f`. */
  ghost predicate InChunk(start: nat, len: nat, size: nat, f: nat)
    requires 0 < size
  {
    forall i: nat :: start <= i < start + len ==> i / size == f
  }

  lemma ChunkStarts(f: nat, size: nat, start: nat, len: nat)
    requires 0 < size && start == f * size && len <= size
    ensures InChunk(start, len, size, f)
  {
    forall i: nat | start <= i < start + len
      ensures i / size == f
    {
      RowOf(f, i - start, size);
    }
  }

  lemma MappedMore<T, R>(inputs: seq<T>, size: nat, map_: (T, Ctx) -> R, out: seq<R>, f: nat, part: seq<R>)
    requires 0 < size && Mapped(inputs, size, map_, out) && InChunk(|out|, |part|, size, f)
    requires |out| + |part| <= |inputs|
    requires forall i :: 0 <= i < |part| ==> part[i] == map_(inputs[|out| + i], Fork(f))
    ensures Mapped(inputs, size, map_, out + part)
  {
    forall i: nat | i < |out + part|
      ensures (out + part)[i] == map_(inputs[i], Fork(i / size))
    {
      if i < |out| {
        assert (out + part)[i] == out[i];
      } else {
        assert (out + part)[i] == part[i - |out|];
      }
    }
  }

  /** Every chunk with its own fork, the results joined in order. */
  method MapChunks<T, R>(inputs: seq<T>, size: nat, map_: (T, Ctx) -> R) returns (out: seq<R>)
    requires 0 < size
    ensures |out| == |inputs| && Mapped(inputs, size, map_, out)
  {
    out := [];
    var f: nat := 0;
    while |out| < |inputs|
      invariant |out| <= |inputs| && Mapped(inputs, size, map_, out)
      invariant |out| < |inputs| ==> |out| == f * size
    {
      var k := Min(size, |inputs| - |out|);
      var part := MapChunk(inputs[|out|..|out| + k], Fork(f), map_);
      ChunkStarts(f, size, |out|, k);
      MappedMore(inputs, size, map_, out, f, part);
      Distribute(f, 1, size);
      out, f := out + part, f + 1;
    }
  }

  /** The limit a caller gives, which is not checked against the pool, or all its forks. */
  function ForkLimit(limit: Option<nat>, available: nat): nat {
    if limit.Some? then limit.value else available
  }

  /** How many forks a chunked map over `len` inputs takes. */
  function ForksNeeded(len: nat, max: nat): nat {
    if len <= 1 || max == 0 || CeilDiv(len, max) == 0 then 0 else CeilDiv(len, CeilDiv(len, max))
  }

  /**
    Chunked parallel map.  It agrees with the sequential map in order and uses
    one fork per chunk, never more than the limit.  It aborts exactly when it may
    fork but has no inputs, or when it needs more forks than the pool has; the
    latter cannot happen to a caller who gives no limit.
   */
  method ParIter<T, R>(inputs: seq<T>, limit: Option<nat>, available: nat, map_: (T, Ctx) -> R)
    returns (r: Option<seq<R>>, forks: nat)
    ensures var max := ForkLimit(limit, available);
            && (r.None? <==> (inputs == [] && max > 0) || ForksNeeded(|inputs|, max) > available)
            && forks <= max && (r.Some? ==> forks == ForksNeeded(|inputs|, max) <= available)
            && (|inputs| > 1 && max > 0 ==>
                  0 < CeilDiv(|inputs|, max) && ForksNeeded(|inputs|, max) == |Chunks(inputs, CeilDiv(|inputs|, max))|)
    ensures limit.None? ==> (r.None? <==> inputs == [] && available > 0)
    ensures r.Some? ==>
      && |r.value| == |inputs|
      && forall i: nat :: i < |inputs| ==>
           r.value[i] == map_(inputs[i], ContextOf(i, |inputs|, ForkLimit(limit, available)))
  {
    var max := ForkLimit(limit, available);
    forks := 0;
    if max == 0 {
      var all := MapChunk(inputs, Main, map_);
      return Some(all), 0;
    }
    if |inputs| == 1 {
      return Some([map_(inputs[0], Main)]), 0;
    }
    if inputs == [] {
      // the chunk size is zero, which the code asserts against
      return None, 0;
    }
    ForksWithinLimit(|inputs|, max);
    var size := CeilDiv(|inputs|, max);
    ChunksCount(inputs, size);
    forks := CeilDiv(|inputs|, size);
    if forks > available {
      // the pool is sliced beyond its end
      return None, forks;
    }
    var out := MapChunks(inputs, size, map_);
    r := Some(out);
  }

  /** A limit of four over four inputs slices a pool of two forks beyond its end. */
  lemma LimitCanExceedPool()
    ensures ForksNeeded(4, ForkLimit(Some(4), 2)) > 2 && ForksNeeded(4, ForkLimit(None, 2)) == 2
  {
  }

  // -------------------------------------------------------------------------
  // Round-robin
  // -------------------------------------------------------------------------

  lemma ProductOf(n: int, d: int)
    requires 0 < n
    ensures (d <= 0 ==> n * d <= 0) && (1 <= d ==> n <= n * d)
  {
    if 1 <= d {
      MulGrows(n, d);
    }
  }

  /** Within a round no other index falls to the same fork. */
  lemma NextOwn(i: nat, j: nat, n: nat)
    requires 0 < n && i < j < i + n
    ensures j % n != i % n
  {
    var a, b := i / n, j / n;
    assert i == n * a + i % n && j == n * b + j % n;
    assert n * (b - a) == n * b - n * a;
    ProductOf(n, b - a);
  }

  /** The cells that are set once forks below `f` are done and fork `f` has come to index `i`. */
  predicate Done(j: nat, f: nat, i: nat, n: nat)
    requires 0 < n
  {
    j % n < f || (j % n == f && j < i)
  }

  ghost predicate CellsSet<T, R>(items: seq<T>, cells: seq<Option<R>>, map_: (T, Ctx) -> R, f: nat, i: nat, n: nat)
    requires 0 < n
  {
    |cells| == |items| && forall j: nat :: j < |items| ==>
      cells[j] == if Done(j, f, i, n) then Some(map_(items[j], Fork(j % n))) else None
  }

  lemma CellsStep<T, R>(items: seq<T>, cells: seq<Option<R>>, map_: (T, Ctx) -> R, f: nat, i: nat, n: nat)
    requires 0 < n && i < |items| && i % n == f && CellsSet(items, cells, map_, f, i, n)
    ensures cells[i] == None && (i + n) % n == f
    ensures CellsSet(items, cells[i := Some(map_(items[i], Fork(f)))], map_, f, i + n, n)
  {
    forall j: nat | j < |items| && j != i
      ensures Done(j, f, i, n) == Done(j, f, i + n, n)
    {
      if i < j < i + n {
        NextOwn(i, j, n);
      }
    }
    OwnNext(i, n);
  }

  lemma OwnNext(i: nat, n: nat)
    requires 0 < n
    ensures (i + n) % n == i % n
  {
    var a := i / n;
    assert i == n * a + i % n;
    assert i + n == n * ((i + n) / n) + (i + n) % n;
    assert n * (a + 1) == n * a + n;
    DivModUnique(n, (i + n) / n, (i + n) % n, a + 1, i % n);
  }

  lemma NextFork<T, R>(items: seq<T>, cells: seq<Option<R>>, map_: (T, Ctx) -> R, f: nat, i: nat, n: nat)
    requires 0 < n && |items| <= i && CellsSet(items, cells, map_, f, i, n)
    ensures CellsSet(items, cells, map_, f + 1, f + 1, n)
  {
    forall j: nat | j < |items|
      ensures Done(j, f, i, n) == Done(j, f + 1, f + 1, n)
    {
      ModAtMost(j, n);
    }
  }

  lemma ModAtMost(j: nat, n: nat)
    requires 0 < n
    ensures j % n <= j && j % n < n
  {
    assert j == n * (j / n) + j % n;
    MulMono(0, j / n, n);
    Commute(n, j / n);
  }

  /**
    Round-robin parallel map: every result cell is set exactly once, by the fork
    that owns its index, and the output order is the input order.
   */
  method ParIterCyclic<T, R>(items: seq<T>, available: nat, map_: (T, Ctx) -> R) returns (out: seq<R>)
    ensures |out| == |items|
    ensures forall i: nat :: i < |items| ==>
              out[i] == map_(items[i], if |items| <= 1 || available == 0 then Main
                                       else Fork(i % Min(available, |items|)))
  {
    var m := |items|;
    if m == 0 {
      return [];
    }
    var forks := Min(available, m);
    if forks == 0 {
      out := MapChunk(items, Main, map_);
      return;
    }
    if m == 1 {
      return [map_(items[0], Main)];
    }
    var cells: seq<Option<R>> := seq(m, _ => None);
    for f := 0 to forks
      invariant CellsSet(items, cells, map_, f, f, forks)
    {
      var i: nat := f;
      while i < m
        invariant i % forks == f && CellsSet(items, cells, map_, f, i, forks)
      {
        CellsStep(items, cells, map_, f, i, forks);
        assert cells[i].None?;
        cells := cells[i := Some(map_(items[i], Fork(f)))];
        i := i + forks;
      }
      NextFork(items, cells, map_, f, i, forks);
    }
    out := [];
    for i := 0 to m
      invariant |out| == i && forall j: nat :: j < i ==> out[j] == map_(items[j], Fork(j % forks))
    {
      ModAtMost(i, forks);
      out := out + [cells[i].value];
    }
  }
}
