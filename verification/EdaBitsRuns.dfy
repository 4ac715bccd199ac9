/**
  Whole runs of an edaBits pool: any sequence of takes, cached windows,
  extensions, saves and reloads hands out what a pool that only counts would.

  P2 is counted exactly as well: an extension appends to its file, a reload goes
  back to the saved total but keeps the file.  So its items can end up in the
  wrong places, and the three parties stay correlated in exactly the runs that
  never hand out such a place.
 */
module EdaBitsRuns {
  import opened Arith
  import opened Wrappers
  import opened Bytes
  import opened Field
  import opened EdaBitsSpec
  import opened EdaBits
  import opened EdaBitsPool
  import opened Positions

  datatype Op = Take(n: nat) | Precache(n: nat) | Extend(n: nat) | SavePool | LoadPool

  /** Where rows come from: regenerated, or from a store that holds these items, in memory or in a file. */
  datatype Rows = Regenerated | Stored(items: seq<nat>, inFile: bool)

  /** A pool reduced to its counters and, at P2, to the places of its items. */
  datatype Counters = Counters(total: nat, cursor: nat, savedTotal: Option<nat>, rows: Rows) {
    function Held(): seq<nat> {
      if rows.Stored? then rows.items else []
    }

    /** A take of `n` positions succeeds. */
    predicate Enough(n: nat) {
      cursor + n <= total
    }
  }

  /** New items go to the end of P2's file; a store in memory does not receive them. */
  function Appended(rows: Rows, total: nat, n: nat): Rows {
    if rows.Stored? && rows.inFile && n > 0 then rows.(items := rows.items + Range(total, n)) else rows
  }

  /** Loading takes P2's file as it is, or nothing if nothing was saved in it. */
  function Reopened(rows: Rows, total: nat): Rows {
    if rows.Regenerated? then rows else if total > 0 then rows.(inFile := true) else Stored([], false)
  }

  /** An operation on the counters alone: caching does nothing, loading forgets an unsaved extension. */
  function Step(c: Counters, op: Op): Counters {
    match op
    case Take(n) => if c.Enough(n) then c.(cursor := c.cursor + n) else c
    case Precache(n) => c
    case Extend(n) => c.(total := c.total + n, rows := Appended(c.rows, c.total, n))
    case SavePool => c.(savedTotal := Some(c.total))
    case LoadPool =>
      if c.savedTotal.Some? then c.(total := c.savedTotal.value, rows := Reopened(c.rows, c.savedTotal.value)) else c
  }

  /** What an operation hands out. */
  function Output(src: Source, c: Counters, op: Op): Option<Result<Batch>> {
    if !op.Take? then None
    else Some(if c.Enough(op.n) then Ok(Served(src, c.Held(), c.cursor, op.n)) else Err)
  }

  /** The batches a run hands out, from the eager definition. */
  function Outputs(src: Source, c: Counters, ops: seq<Op>): seq<Result<Batch>>
    decreases |ops|
  {
    if ops == [] then []
    else
      var rest := Outputs(src, Step(c, ops[0]), ops[1..]);
      var out := Output(src, c, ops[0]);
      if out.Some? then [out.value] + rest else rest
  }

  function Extensions(ops: seq<Op>): nat {
    if ops == [] then 0 else (if ops[0].Extend? then ops[0].n else 0) + Extensions(ops[1..])
  }

  /** The sizes of a run stay within what the machine can hold. */
  ghost predicate Fits(c: Counters, ops: seq<Op>) {
    && (forall op :: op in ops && op.Precache? ==> op.n < LIMIT)
    && c.total + Extensions(ops) < LIMIT
    && (c.savedTotal.Some? ==> c.savedTotal.value + Extensions(ops) < LIMIT)
  }

  /** Whenever the run extends P2's pool, its store is the file: any other store loses the new items. */
  ghost predicate Backed(c: Counters, ops: seq<Op>)
    decreases |ops|
  {
    ops != [] ==>
      && (ops[0].Extend? && ops[0].n > 0 && c.rows.Stored? ==> c.rows.inFile)
      && Backed(Step(c, ops[0]), ops[1..])
  }

  ghost function CountersOf(pool: LazyEdaBits): Counters
    reads pool, pool.dir
  {
    Counters(pool.total, pool.cursor, pool.SavedTotal(),
             if pool.src.party == ID2 then Stored(pool.held, pool.alphaStore.Alpha2File?) else Regenerated)
  }

  ghost predicate Runs(pool: LazyEdaBits, ops: seq<Op>)
    reads pool, pool.dir
  {
    pool.Valid() && Fits(CountersOf(pool), ops) && Backed(CountersOf(pool), ops)
  }

  /** An extension delivers to P2 the rows of the new items. */
  method ExtendPool(pool: LazyEdaBits, n: nat)
    requires pool.Valid() && pool.total + n < LIMIT
    requires pool.src.party == ID2 && n > 0 ==> pool.alphaStore.Alpha2File?
    modifies pool, pool.dir
    ensures pool.Valid() && CountersOf(pool) == Step(old(CountersOf(pool)), Extend(n))
  {
    if pool.src.party != ID2 {
      pool.ApplyExtension(n);
    } else if n > 0 {
      pool.ExtendAuthoritative(n, pool.src.EagerRows(pool.total, n));
    }
  }

  /** One operation on the real pool moves the counters as `Step` says and hands out what `Output` says. */
  method Apply(pool: LazyEdaBits, op: Op) returns (next: LazyEdaBits, out: Option<Result<Batch>>)
    requires Runs(pool, [op])
    modifies pool, pool.dir
    ensures next.Valid() && next.src == pool.src && next.dir == pool.dir && (next == pool || fresh(next))
    ensures CountersOf(next) == Step(old(CountersOf(pool)), op)
    ensures out == old(Output(pool.src, CountersOf(pool), op))
  {
    next, out := pool, None;
    assert Extensions([op]) == if op.Extend? then op.n else 0;
    if op.Take? {
      var r := pool.TakeBatch(op.n);
      out := Some(r);
    } else if op.Precache? {
      var _ := pool.PreparePrecache(op.n);
    } else if op.Extend? {
      ExtendPool(pool, op.n);
    } else if op.SavePool? {
      pool.Save();
    } else if pool.saved {
      next := new LazyEdaBits.Load(pool.dir, pool.src, pool);
    }
  }

  lemma FitsStep(c: Counters, ops: seq<Op>)
    requires ops != [] && Fits(c, ops) && Backed(c, ops)
    ensures Fits(c, [ops[0]]) && Backed(c, [ops[0]])
    ensures Fits(Step(c, ops[0]), ops[1..]) && Backed(Step(c, ops[0]), ops[1..])
  {
    assert [ops[0]][1..] == [];
  }

  /**
    Runs the operations on the real pool.  Its batches are those of the counters
    and the eager definition: neither windows nor reloads can be seen in them.
   */
  method Run(pool0: LazyEdaBits, ops: seq<Op>) returns (outs: seq<Result<Batch>>, pool: LazyEdaBits)
    requires Runs(pool0, ops)
    modifies pool0, pool0.dir
    ensures outs == Outputs(pool0.src, old(CountersOf(pool0)), ops)
    ensures pool.Valid() && pool.src == pool0.src && pool.dir == pool0.dir
    ensures CountersOf(pool) == Final(old(CountersOf(pool0)), ops)
  {
    pool, outs := pool0, [];
    ghost var src, all := pool0.src, Outputs(pool0.src, CountersOf(pool0), ops);
    ghost var last := Final(CountersOf(pool0), ops);
    assert ops[0..] == ops;
    for i := 0 to |ops|
      invariant Runs(pool, ops[i..]) && pool.src == src && pool.dir == pool0.dir && (pool == pool0 || fresh(pool))
      invariant all == outs + Outputs(src, CountersOf(pool), ops[i..])
      invariant last == Final(CountersOf(pool), ops[i..])
    {
      assert ops[i..][1..] == ops[i + 1..];
      FitsStep(CountersOf(pool), ops[i..]);
      var out;
      pool, out := Apply(pool, ops[i]);
      if out.Some? {
        outs := outs + [out.value];
      }
    }
  }

  function Final(c: Counters, ops: seq<Op>): Counters
    decreases |ops|
  {
    if ops == [] then c else Final(Step(c, ops[0]), ops[1..])
  }

  /** A pool in its file that saved something can be extended at any point of any run. */
  lemma {:induction false} FilesAreBacked(c: Counters, ops: seq<Op>)
    requires c.rows.Stored? ==> c.rows.inFile && c.total > 0 && (c.savedTotal.Some? ==> c.savedTotal.value > 0)
    ensures Backed(c, ops)
    decreases |ops|
  {
    if ops != [] {
      FilesAreBacked(Step(c, ops[0]), ops[1..]);
    }
  }

  // -------------------------------------------------------------------------
  // Cached windows cannot be seen
  // -------------------------------------------------------------------------

  function WithoutPrecache(ops: seq<Op>): seq<Op> {
    if ops == [] then []
    else if ops[0].Precache? then WithoutPrecache(ops[1..])
    else [ops[0]] + WithoutPrecache(ops[1..])
  }

  lemma {:induction false} PrecacheCountsNothing(src: Source, c: Counters, ops: seq<Op>)
    ensures Outputs(src, c, ops) == Outputs(src, c, WithoutPrecache(ops))
    ensures Extensions(ops) == Extensions(WithoutPrecache(ops))
    ensures forall op :: op in WithoutPrecache(ops) ==> !op.Precache?
    ensures Backed(c, ops) ==> Backed(c, WithoutPrecache(ops))
    decreases |ops|
  {
    if ops != [] {
      PrecacheCountsNothing(src, Step(c, ops[0]), ops[1..]);
      if !ops[0].Precache? {
        assert WithoutPrecache(ops)[1..] == WithoutPrecache(ops[1..]);
      }
    }
  }

  /**
    Two pools in the same state, in two directories: one caches windows on disk
    whenever the run says so, the other never does.  They hand out the same
    batches.
   */
  method PrecacheIsInvisible(caching: LazyEdaBits, plain: LazyEdaBits, ops: seq<Op>)
    returns (outs: seq<Result<Batch>>, plainOuts: seq<Result<Batch>>)
    requires Runs(caching, ops) && plain.Valid() && caching != plain && caching.dir != plain.dir
    requires plain.src == caching.src && CountersOf(plain) == CountersOf(caching)
    modifies caching, caching.dir, plain, plain.dir
    ensures outs == plainOuts
  {
    PrecacheCountsNothing(caching.src, CountersOf(caching), ops);
    var a, _ := Run(caching, ops);
    var b, _ := Run(plain, WithoutPrecache(ops));
    outs, plainOuts := a, b;
  }

  // -------------------------------------------------------------------------
  // Items in their places
  // -------------------------------------------------------------------------

  /** The run hands out only positions that hold their own items: a condition on the operations alone. */
  predicate Aligned(c: Counters, ops: seq<Op>)
    decreases |ops|
  {
    ops != [] ==>
      && (ops[0].Take? && c.Enough(ops[0].n) ==> InPlace(c.Held(), c.cursor, ops[0].n))
      && Aligned(Step(c, ops[0]), ops[1..])
  }

  /** A store holds its items in their places, at least `total` of them. */
  predicate AllInPlace(c: Counters) {
    c.rows.Stored? ==> c.total <= |c.rows.items| && Straight(c.rows.items)
  }

  /** P2's file has no rows behind the total when it is extended. */
  predicate Flush(c: Counters, ops: seq<Op>)
    decreases |ops|
  {
    ops != [] ==>
      && (ops[0].Extend? && ops[0].n > 0 && c.rows.Stored? ==> c.rows.inFile && |c.rows.items| == c.total)
      && Flush(Step(c, ops[0]), ops[1..])
  }

  /** P0 and P1 are always aligned; P2 is if every extension was saved before the reload that precedes the next. */
  lemma {:induction false} FlushRunsAreAligned(c: Counters, ops: seq<Op>)
    requires AllInPlace(c) && Flush(c, ops)
    requires c.savedTotal.Some? && c.rows.Stored? ==> c.savedTotal.value <= c.total
    ensures Aligned(c, ops)
    decreases |ops|
  {
    if ops != [] {
      FlushRunsAreAligned(Step(c, ops[0]), ops[1..]);
    }
  }

  /** A run without reloads extends a file that starts without surplus rows only at its end. */
  lemma {:induction false} UnloadedRunsAreFlush(c: Counters, ops: seq<Op>)
    requires c.rows.Stored? ==> c.rows.inFile && |c.rows.items| == c.total
    requires LoadPool !in ops
    ensures Flush(c, ops)
    decreases |ops|
  {
    if ops != [] {
      assert LoadPool !in ops[1..];
      UnloadedRunsAreFlush(Step(c, ops[0]), ops[1..]);
    }
  }

  /**
    Save, extend, reload, extend further: from where the lost extension ended
    P2 hands out the shares of items that lie that far back.
   */
  lemma ReloadShiftsItems(src: Source, total: nat, a: nat, b: nat)
    requires 0 < total && 0 < a < b
    ensures var c := Counters(total, 0, None, Stored(Range(0, total), true));
            var ops := [SavePool, Extend(a), LoadPool, Extend(b), Take(total + b)];
            Backed(c, ops) && !Aligned(c, ops)
            && Outputs(src, c, ops) == [Ok(Served(src, Shifted(total, a, b), 0, total + b))]
  {
    var c := Counters(total, 0, None, Stored(Range(0, total), true));
    var ops := [SavePool, Extend(a), LoadPool, Extend(b), Take(total + b)];
    var c1 := Step(c, ops[0]);
    var c2 := Step(c1, ops[1]);
    var c3 := Step(c2, ops[2]);
    var c4 := Step(c3, ops[3]);
    assert c4.Held() == Shifted(total, a, b) && c4.total == total + b && c4.cursor == 0;
    FilesAreBacked(c, ops);
    Unfold(src, c, ops);
    Unfold(src, c1, ops[1..]);
    Unfold(src, c2, ops[2..]);
    Unfold(src, c3, ops[3..]);
    Unfold(src, c4, ops[4..]);
    assert ItemAt(c4.Held(), total + a) == total;
  }

  lemma Unfold(src: Source, c: Counters, ops: seq<Op>)
    requires ops != []
    ensures Outputs(src, c, ops) == (if ops[0].Take? then [Output(src, c, ops[0]).value] else [])
                                    + Outputs(src, Step(c, ops[0]), ops[1..])
    ensures Aligned(c, ops) <==>
      && (ops[0].Take? && c.Enough(ops[0].n) ==> InPlace(c.Held(), c.cursor, ops[0].n))
      && Aligned(Step(c, ops[0]), ops[1..])
  {
  }

  // -------------------------------------------------------------------------
  // Consequences for every run
  // -------------------------------------------------------------------------

  /** The batches handed out, joined in order. */
  function Joined(outs: seq<Result<Batch>>): Batch {
    if outs == [] then Batch([], [])
    else if outs[0].Ok? then Append(outs[0].value, Joined(outs[1..]))
    else Joined(outs[1..])
  }

  /**
    Over a whole aligned run the batches join to one gapless stretch of the
    eager sequence: no item is handed out twice, none is skipped.
   */
  lemma {:induction false} EveryItemOnce(src: Source, c: Counters, ops: seq<Op>)
    requires Aligned(c, ops)
    ensures c.cursor <= Final(c, ops).cursor
    ensures Joined(Outputs(src, c, ops)) == src.Eager(c.cursor, Final(c, ops).cursor - c.cursor)
    decreases |ops|
  {
    if ops != [] {
      var d := Step(c, ops[0]);
      EveryItemOnce(src, d, ops[1..]);
      if ops[0].Take? {
        var outs := Outputs(src, c, ops);
        assert outs[1..] == Outputs(src, d, ops[1..]);
        if c.Enough(ops[0].n) {
          ServedInPlace(src, c.Held(), c.cursor, ops[0].n);
          EagerJoin(src, c.cursor, ops[0].n, Final(c, ops).cursor - d.cursor);
        }
      }
    } else {
      assert src.Eager(c.cursor, 0) == Batch([], []);
    }
  }

  // -------------------------------------------------------------------------
  // The three parties
  // -------------------------------------------------------------------------

  /** Each pair of parties shares a snapshot, and P2 holds the second shares P0 computed. */
  ghost predicate Correlated(p0: Source, p1: Source, p2: Source) {
    && p0.Faithful() && p1.Faithful() && p2.Faithful()
    && p0.party == ID0 && p1.party == ID1 && p2.party == ID2
    && p0.ks == p1.ks && p0.layout == p1.layout == p2.layout
    && p0.s1 == p1.s2
    && forall i: nat :: p2.rowAt(i) == Alpha2Row(p0.ks, p0.layout, p0.s1, p0.s2, i)
  }

  /**
    One item across the parties: P0 and P1 agree, and opening their bits against
    P2's spells, as far as `k` bits go, the number that P0 knows.
   */
  ghost predicate SharedItem(k: nat, gamma: nat, row0: Row, row1: Row, row2: Row) {
    |row0| == k && |row2| == k && row0 == row1 && Spells(Opened(row0, row2), gamma % Pow2(k))
  }

  lemma ItemsCorrelate(p0: Source, p1: Source, p2: Source, i: nat)
    requires Correlated(p0, p1, p2)
    ensures SharedItem(p0.layout.k, p0.gammaAt(i), p0.rowAt(i), p1.rowAt(i), p2.rowAt(i))
  {
    var ks, l := p0.ks, p0.layout;
    assert p0.rowAt(i) == Alpha1Row(ks, l, p0.Interleaved(), i);
    assert p1.rowAt(i) == Alpha1Row(p1.ks, p1.layout, p1.Interleaved(), i);
    assert p0.gammaAt(i) == GammaOf(ks, l, p0.s1, p0.s2, i);
    SharesSpell(ks, l, p0.s1, p0.s2, i);
  }

  /** The first two rows and the number determine the third. */
  lemma ThirdRowIsUnique(k: nat, gamma: nat, row0: Row, row1: Row, row2: Row, other: Row)
    requires SharedItem(k, gamma, row0, row1, row2) && SharedItem(k, gamma, row0, row1, other)
    ensures row2 == other
  {
    SpellingUnique(Opened(row0, row2), Opened(row0, other));
    forall j | 0 <= j < k
      ensures row2[j] == other[j]
    {
      assert Opened(row0, row2)[j] == Opened(row0, other)[j];
      SubAdd(row0[j], row2[j]);
      SubAdd(row0[j], other[j]);
    }
  }

  ghost predicate SharedBatch(k: nat, b0: Batch, b1: Batch, b2: Batch) {
    && |b0.gammas| == |b0.rows| == |b1.rows| == |b2.rows|
    && forall i :: 0 <= i < |b0.rows| ==> SharedItem(k, b0.gammas[i], b0.rows[i], b1.rows[i], b2.rows[i])
  }

  /** P2's rows in these positions are those of the items that belong there. */
  ghost predicate RowsInPlace(p2: Source, held: seq<nat>, start: nat, n: nat) {
    forall i :: start <= i < start + n ==> p2.rowAt(ItemAt(held, i)) == p2.rowAt(i)
  }

  /** A batch of P0 and P1 together with P2's positions is correctly shared exactly if P2's rows are in place. */
  lemma BatchesCorrelate(p0: Source, p1: Source, p2: Source, held: seq<nat>, start: nat, n: nat)
    requires Correlated(p0, p1, p2)
    ensures SharedBatch(p0.layout.k, p0.Eager(start, n), p1.Eager(start, n), Served(p2, held, start, n))
       <==> RowsInPlace(p2, held, start, n)
  {
    var b0, b1, b2 := p0.Eager(start, n), p1.Eager(start, n), Served(p2, held, start, n);
    forall i | 0 <= i < n
      ensures SharedItem(p0.layout.k, b0.gammas[i], b0.rows[i], b1.rows[i], b2.rows[i])
         <==> p2.rowAt(ItemAt(held, start + i)) == p2.rowAt(start + i)
    {
      ItemsCorrelate(p0, p1, p2, start + i);
      var k := p0.layout.k;
      if SharedItem(k, b0.gammas[i], b0.rows[i], b1.rows[i], b2.rows[i]) {
        ThirdRowIsUnique(k, b0.gammas[i], b0.rows[i], b1.rows[i], b2.rows[i], p2.rowAt(start + i));
      }
    }
    if SharedBatch(p0.layout.k, b0, b1, b2) {
      forall i | start <= i < start + n
        ensures p2.rowAt(ItemAt(held, i)) == p2.rowAt(i)
      {
        var j := i - start;
        assert SharedItem(p0.layout.k, b0.gammas[j], b0.rows[j], b1.rows[j], b2.rows[j]);
      }
    }
  }

  /** The run hands out only rows that are those of the items that belong there. */
  ghost predicate RowsAligned(p2: Source, c: Counters, ops: seq<Op>)
    decreases |ops|
  {
    ops != [] ==>
      && (ops[0].Take? && c.Enough(ops[0].n) ==> RowsInPlace(p2, c.Held(), c.cursor, ops[0].n))
      && RowsAligned(p2, Step(c, ops[0]), ops[1..])
  }

  /** What the three parties hand out at one take. */
  ghost predicate SharedOutcome(k: nat, b0: Result<Batch>, b1: Result<Batch>, b2: Result<Batch>) {
    b0.Ok? && b1.Ok? && b2.Ok? ==> SharedBatch(k, b0.value, b1.value, b2.value)
  }

  ghost predicate AllShared(k: nat, o0: seq<Result<Batch>>, o1: seq<Result<Batch>>, o2: seq<Result<Batch>>) {
    |o0| == |o1| == |o2| && forall t :: 0 <= t < |o0| ==> SharedOutcome(k, o0[t], o1[t], o2[t])
  }

  lemma AllSharedParts(k: nat, o0: seq<Result<Batch>>, o1: seq<Result<Batch>>, o2: seq<Result<Batch>>)
    requires o0 != [] && AllShared(k, o0, o1, o2)
    ensures SharedOutcome(k, o0[0], o1[0], o2[0]) && AllShared(k, o0[1..], o1[1..], o2[1..])
  {
    forall t | 0 <= t < |o0| - 1
      ensures SharedOutcome(k, o0[1..][t], o1[1..][t], o2[1..][t])
    {
      assert SharedOutcome(k, o0[t + 1], o1[t + 1], o2[t + 1]);
    }
  }

  lemma AllSharedWhole(k: nat, o0: seq<Result<Batch>>, o1: seq<Result<Batch>>, o2: seq<Result<Batch>>)
    requires o0 != [] && o1 != [] && o2 != []
    requires SharedOutcome(k, o0[0], o1[0], o2[0]) && AllShared(k, o0[1..], o1[1..], o2[1..])
    ensures AllShared(k, o0, o1, o2)
  {
    forall t | 0 <= t < |o0|
      ensures SharedOutcome(k, o0[t], o1[t], o2[t])
    {
      if t > 0 {
        assert SharedOutcome(k, o0[1..][t - 1], o1[1..][t - 1], o2[1..][t - 1]);
      }
    }
  }

  lemma AllSharedCons(k: nat, o0: seq<Result<Batch>>, o1: seq<Result<Batch>>, o2: seq<Result<Batch>>,
                      b0: Result<Batch>, b1: Result<Batch>, b2: Result<Batch>)
    requires |o0| == |o1| == |o2|
    ensures AllShared(k, [b0] + o0, [b1] + o1, [b2] + o2) <==>
      SharedOutcome(k, b0, b1, b2) && AllShared(k, o0, o1, o2)
  {
    var a0, a1, a2 := [b0] + o0, [b1] + o1, [b2] + o2;
    assert a0[1..] == o0 && a1[1..] == o1 && a2[1..] == o2;
    if AllShared(k, a0, a1, a2) {
      AllSharedParts(k, a0, a1, a2);
    } else if SharedOutcome(k, b0, b1, b2) && AllShared(k, o0, o1, o2) {
      AllSharedWhole(k, a0, a1, a2);
    }
  }

  /** In every common run a take succeeds at all parties or at none. */
  lemma {:induction false} RunsAgree(p: Source, q: Source, c: Counters, rows: Rows, ops: seq<Op>)
    ensures var o, o' := Outputs(p, c, ops), Outputs(q, c.(rows := rows), ops);
            |o| == |o'| && forall t :: 0 <= t < |o| ==> (o[t].Ok? <==> o'[t].Ok?)
    decreases |ops|
  {
    if ops != [] {
      var d, d2 := Step(c, ops[0]), Step(c.(rows := rows), ops[0]);
      assert d2 == d.(rows := d2.rows);
      RunsAgree(p, q, d, d2.rows, ops[1..]);
    }
  }

  /**
    In every common run of the three parties every item handed out is correctly
    shared if and only if P2's rows were in place whenever it handed them out.
   */
  lemma {:induction false} RunsCorrelate(p0: Source, p1: Source, p2: Source, c: Counters, rows: Rows, ops: seq<Op>)
    requires Correlated(p0, p1, p2) && c.rows.Regenerated?
    ensures AllShared(p0.layout.k, Outputs(p0, c, ops), Outputs(p1, c, ops), Outputs(p2, c.(rows := rows), ops))
       <==> RowsAligned(p2, c.(rows := rows), ops)
    decreases |ops|
  {
    if ops != [] {
      var c2, k := c.(rows := rows), p0.layout.k;
      var d, d2 := Step(c, ops[0]), Step(c2, ops[0]);
      assert d2 == d.(rows := d2.rows);
      RunsCorrelate(p0, p1, p2, d, d2.rows, ops[1..]);
      if ops[0].Take? {
        RunsAgree(p0, p1, d, d.rows, ops[1..]);
        RunsAgree(p0, p2, d, d2.rows, ops[1..]);
        BatchesCorrelate(p0, p1, p2, c2.Held(), c.cursor, ops[0].n);
        AllSharedCons(k, Outputs(p0, d, ops[1..]), Outputs(p1, d, ops[1..]), Outputs(p2, d2, ops[1..]),
                      Output(p0, c, ops[0]).value, Output(p1, c, ops[0]).value, Output(p2, c2, ops[0]).value);
      }
    }
  }

  /** No two items below `n` have the same row. */
  ghost predicate DistinctBelow(p2: Source, n: nat) {
    forall i: nat, j: nat :: i < n && j < n && p2.rowAt(i) == p2.rowAt(j) ==> i == j
  }

  ghost predicate ItemsBelow(c: Counters, ops: seq<Op>, n: nat) {
    && c.total + Extensions(ops) <= n && (c.savedTotal.Some? ==> c.savedTotal.value + Extensions(ops) <= n)
    && forall i :: 0 <= i < |c.Held()| ==> c.Held()[i] < n
  }

  lemma ItemsStayBelow(c: Counters, ops: seq<Op>, n: nat)
    requires ops != [] && ItemsBelow(c, ops, n)
    ensures ItemsBelow(Step(c, ops[0]), ops[1..], n)
  {
    var d := Step(c, ops[0]);
    forall i | 0 <= i < |d.Held()|
      ensures d.Held()[i] < n
    {
      if ops[0].Extend? && i >= |c.Held()| {
        assert d.Held()[i] == c.total + (i - |c.Held()|);
      } else {
        assert d.Held()[i] == c.Held()[i];
      }
    }
  }

  /** The operations decide: an aligned run is in place, and among distinct rows no other run is. */
  lemma {:induction false} AlignedDecides(p2: Source, c: Counters, ops: seq<Op>, n: nat)
    requires DistinctBelow(p2, n) && ItemsBelow(c, ops, n)
    ensures RowsAligned(p2, c, ops) <==> Aligned(c, ops)
    decreases |ops|
  {
    if ops != [] {
      ItemsStayBelow(c, ops, n);
      AlignedDecides(p2, Step(c, ops[0]), ops[1..], n);
    }
  }

  lemma {:induction false} AlignedSuffices(p2: Source, c: Counters, ops: seq<Op>)
    requires Aligned(c, ops)
    ensures RowsAligned(p2, c, ops)
    decreases |ops|
  {
    if ops != [] {
      AlignedSuffices(p2, Step(c, ops[0]), ops[1..]);
    }
  }

  /** The numbers handed out have no more than `k` bits, so their shares spell them completely. */
  ghost predicate AllWhole(k: nat, outs: seq<Result<Batch>>) {
    forall t, i :: 0 <= t < |outs| && outs[t].Ok? && 0 <= i < |outs[t].value.gammas| ==>
      outs[t].value.gammas[i] < Pow2(k)
  }

  lemma {:induction false} RunWhole(p0: Source, c: Counters, ops: seq<Op>)
    requires p0.Faithful() && p0.party == ID0 && p0.layout.k == 8 * p0.layout.tBytes
    ensures AllWhole(p0.layout.k, Outputs(p0, c, ops))
    decreases |ops|
  {
    if ops != [] {
      RunWhole(p0, Step(c, ops[0]), ops[1..]);
      forall i: nat
        ensures p0.gammaAt(i) < Pow2(p0.layout.k)
      {
        assert p0.gammaAt(i) == GammaOf(p0.ks, p0.layout, p0.s1, p0.s2, i);
        GammaFits(p0.ks, p0.layout, p0.s1, p0.s2, i);
      }
    }
  }

  lemma CommonOutputs(p0: Source, p1: Source, p2: Source, c: Counters, c2: Counters, ops: seq<Op>)
    requires Correlated(p0, p1, p2) && c == c2.(rows := Regenerated)
    ensures var o0, o1, o2 := Outputs(p0, c, ops), Outputs(p1, c, ops), Outputs(p2, c2, ops);
            && |o0| == |o1| == |o2|
            && (forall t :: 0 <= t < |o0| ==> (o0[t].Ok? <==> o1[t].Ok?) && (o0[t].Ok? <==> o2[t].Ok?))
            && (AllShared(p0.layout.k, o0, o1, o2) <==> RowsAligned(p2, c2, ops))
            && (Aligned(c2, ops) ==> AllShared(p0.layout.k, o0, o1, o2))
            && (p0.layout.k == 8 * p0.layout.tBytes ==> AllWhole(p0.layout.k, o0))
  {
    if p0.layout.k == 8 * p0.layout.tBytes {
      RunWhole(p0, c, ops);
    }
    assert c.(rows := c.rows) == c && c.(rows := c2.rows) == c2;
    RunsAgree(p0, p1, c, c.rows, ops);
    RunsAgree(p0, p2, c, c2.rows, ops);
    RunsCorrelate(p0, p1, p2, c, c2.rows, ops);
    if Aligned(c2, ops) {
      AlignedSuffices(p2, c2, ops);
    }
  }

  /**
    The three real pools in a common run: whatever the operations, a take
    succeeds at all parties or at none, and everything handed out is correctly
    shared if and only if P2's rows were in place.
   */
  method CommonRun(p0: LazyEdaBits, p1: LazyEdaBits, p2: LazyEdaBits, ops: seq<Op>)
    returns (o0: seq<Result<Batch>>, o1: seq<Result<Batch>>, o2: seq<Result<Batch>>)
    requires p0 != p1 && p1 != p2 && p0 != p2 && p0.dir != p1.dir && p1.dir != p2.dir && p0.dir != p2.dir
    requires Runs(p0, ops) && Runs(p1, ops) && Runs(p2, ops) && Correlated(p0.src, p1.src, p2.src)
    requires CountersOf(p0) == CountersOf(p1) == CountersOf(p2).(rows := Regenerated)
    modifies p0, p0.dir, p1, p1.dir, p2, p2.dir
    ensures |o0| == |o1| == |o2|
    ensures forall t :: 0 <= t < |o0| ==> (o0[t].Ok? <==> o1[t].Ok?) && (o0[t].Ok? <==> o2[t].Ok?)
    ensures AllShared(p0.src.layout.k, o0, o1, o2) <==> RowsAligned(p2.src, old(CountersOf(p2)), ops)
    ensures Aligned(old(CountersOf(p2)), ops) ==> AllShared(p0.src.layout.k, o0, o1, o2)
    ensures p0.src.layout.k == 8 * p0.src.layout.tBytes ==> AllWhole(p0.src.layout.k, o0)
  {
    CommonOutputs(p0.src, p1.src, p2.src, CountersOf(p0), CountersOf(p2), ops);
    var a, _ := Run(p0, ops);
    var b, _ := Run(p1, ops);
    var d, _ := Run(p2, ops);
    o0, o1, o2 := a, b, d;
  }
}
