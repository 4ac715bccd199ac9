/**
  Whole runs of the three daBit pools: takes, extensions, saves and reloads in
  any order, with or without a crash before a reload.

  A pool is counted with the places of its items.  The three parties stay
  correlated in exactly the runs in which P0 and P2 never hand out a place that
  holds another item's row, as long as no crash makes P1 forget its cursor.
 */
module DaBitsRuns {
  import opened Wrappers
  import opened Field
  import opened EdaBitsSpec
  import opened DaBitsSpec
  import opened DaBits
  import opened Positions

  /** A reload is clean if the pool object was dropped before it, otherwise it follows a crash. */
  datatype Op = Take(n: nat) | Extend(n: nat) | SavePool | LoadPool(clean: bool)

  /** P1 regenerates; the others have rows in memory or on file, and perhaps an older file beside the memory. */
  datatype Rows = Regenerated | Stored(own: seq<nat>, onFile: bool, file: seq<nat>)

  /** A pool reduced to its counters and the places of its items. */
  datatype Counters = Counters(total: nat, cursor: nat, saved: Option<Meta>, rows: Rows) {
    function Held(): seq<nat> {
      if rows.Regenerated? then [] else if rows.onFile then rows.file else rows.own
    }

    /** A take of `n` positions succeeds. */
    predicate Enough(n: nat) {
      cursor + n <= total
    }
  }

  /** New items go to the end of the store, in memory or on file. */
  function Appended(rows: Rows, total: nat, n: nat): Rows {
    if rows.Regenerated? then rows
    else if rows.onFile then rows.(file := rows.file + Range(total, n))
    else rows.(own := rows.own + Range(total, n))
  }

  function Written(rows: Rows): Rows {
    if rows.Stored? && !rows.onFile && rows.own != [] then rows.(file := rows.own) else rows
  }

  /** Loading takes the file as it is. */
  function Reopened(rows: Rows, total: nat): Rows {
    if rows.Regenerated? then rows else Stored([], total > 0, rows.file)
  }

  function Reloaded(c: Counters, m: Meta): Counters {
    Counters(m.total, m.cursor, Some(m), Reopened(c.rows, m.total))
  }

  /** P0 and P2 persist the cursor at every take, P1 only when it saves or is dropped. */
  function Step(c: Counters, op: Op): Counters {
    match op
    case Take(n) =>
      if !c.Enough(n) then c
      else if c.rows.Regenerated? || c.saved.None? then c.(cursor := c.cursor + n)
      else c.(cursor := c.cursor + n, saved := Some(c.saved.value.(cursor := c.cursor + n)))
    case Extend(n) => c.(total := c.total + n, rows := Appended(c.rows, c.total, n))
    case SavePool => c.(saved := Some(Meta(c.total, c.cursor)), rows := Written(c.rows))
    case LoadPool(clean) =>
      if c.saved.None? then c
      else Reloaded(c, if clean then c.saved.value.(cursor := c.cursor) else c.saved.value)
  }

  /** What a party hands out, by the items it holds, first position and length. */
  type Batches = (seq<nat>, nat, nat) -> Batch

  function ServedBy(d: Items, party: PartyId): Batches {
    (held: seq<nat>, start: nat, n: nat) => Served(d, party, held, start, n)
  }

  /** What one operation hands out. */
  function Output(e: Batches, c: Counters, op: Op): seq<Result<Batch>> {
    if !op.Take? then [] else [if c.Enough(op.n) then Ok(e(c.Held(), c.cursor, op.n)) else Err]
  }

  function Outputs(e: Batches, c: Counters, ops: seq<Op>): seq<Result<Batch>>
    decreases |ops|
  {
    if ops == [] then [] else Output(e, c, ops[0]) + Outputs(e, Step(c, ops[0]), ops[1..])
  }

  function Final(c: Counters, ops: seq<Op>): Counters
    decreases |ops|
  {
    if ops == [] then c else Final(Step(c, ops[0]), ops[1..])
  }

  // -------------------------------------------------------------------------
  // The real pools
  // -------------------------------------------------------------------------

  ghost function CountersOf(pool: LazyDaBits): Counters
    reads pool, pool.dir
  {
    Counters(pool.total, pool.cursor, pool.SavedMeta(),
             if pool.party == ID1 then Regenerated else Stored(pool.own, pool.store.OnFile?, pool.dir.held))
  }

  method ApplyLoad(pool: LazyDaBits, clean: bool) returns (next: LazyDaBits)
    requires pool.Valid() && pool.saved
    modifies pool.dir
    ensures next.Valid() && next.d == pool.d && next.party == pool.party && next.dir == pool.dir && fresh(next)
    ensures CountersOf(next) == Step(old(CountersOf(pool)), LoadPool(clean))
  {
    if clean {
      pool.Drop();
    }
    next := new LazyDaBits.Load(pool.dir, pool.d, pool.party, pool);
  }

  /** One operation on the real pool; an extension delivers what generation delivers. */
  method Apply(pool: LazyDaBits, op: Op) returns (next: LazyDaBits, out: seq<Result<Batch>>)
    requires pool.Valid()
    modifies pool, pool.dir
    ensures next.Valid() && next.d == pool.d && next.party == pool.party && next.dir == pool.dir
    ensures (next == pool || fresh(next)) && CountersOf(next) == Step(old(CountersOf(pool)), op)
    ensures out == Output(ServedBy(pool.d, pool.party), old(CountersOf(pool)), op)
  {
    next, out := pool, [];
    if op.Take? {
      var r := pool.TakeBatch(op.n);
      out := [r];
    } else if op.Extend? {
      pool.ApplyExtension(op.n, if pool.party == ID1 then [] else StoredRows(pool.d, pool.party, pool.total, op.n));
    } else if op.SavePool? {
      pool.Save();
    } else if pool.saved {
      next := ApplyLoad(pool, op.clean);
    }
  }

  lemma OutputsFirst(e: Batches, c: Counters, ops: seq<Op>, i: nat, front: seq<Result<Batch>>)
    requires i < |ops|
    ensures front + Outputs(e, c, ops[i..]) == front + Output(e, c, ops[i]) + Outputs(e, Step(c, ops[i]), ops[i + 1..])
  {
    assert ops[i..][1..] == ops[i + 1..];
  }

  /** Runs the operations on the real pool; its batches are those of the counters and the eager definition. */
  method Run(pool0: LazyDaBits, ops: seq<Op>) returns (outs: seq<Result<Batch>>, pool: LazyDaBits)
    requires pool0.Valid()
    modifies pool0, pool0.dir
    ensures pool.Valid() && outs == Outputs(ServedBy(pool0.d, pool0.party), old(CountersOf(pool0)), ops)
  {
    pool, outs := pool0, [];
    ghost var e := ServedBy(pool0.d, pool0.party);
    ghost var all := Outputs(e, CountersOf(pool), ops);
    assert ops[0..] == ops;
    for i := 0 to |ops|
      invariant pool.Valid() && pool.d == pool0.d && pool.party == pool0.party && pool.dir == pool0.dir
      invariant (pool == pool0 || fresh(pool)) && all == outs + Outputs(e, CountersOf(pool), ops[i..])
    {
      OutputsFirst(e, CountersOf(pool), ops, i, outs);
      var out;
      pool, out := Apply(pool, ops[i]);
      outs := outs + out;
    }
  }

  // -------------------------------------------------------------------------
  // Items in their places
  // -------------------------------------------------------------------------

  /** The run hands out only positions that hold their own items: a condition on the operations alone. */
  predicate Aligned(c: Counters, ops: seq<Op>)
    decreases |ops|
  {
    ops != [] ==>
      && (ops[0].Take? && c.Enough(ops[0].n) ==> InPlace(c.Held(), c.cursor, ops[0].n))
      && Aligned(Step(c, ops[0]), ops[1..])
  }

  /** The store has no rows behind the total when it is extended. */
  predicate Flush(c: Counters, ops: seq<Op>)
    decreases |ops|
  {
    ops != [] ==>
      && (ops[0].Extend? && c.rows.Stored? ==> |c.Held()| == c.total)
      && Flush(Step(c, ops[0]), ops[1..])
  }

  /** P1 is always aligned; the others are if every extension was saved before the reload that precedes the next. */
  lemma {:induction false} FlushRunsAreAligned(c: Counters, ops: seq<Op>)
    requires c.rows.Stored? ==> Straight(c.rows.own) && Straight(c.rows.file)
    requires Flush(c, ops)
    ensures Aligned(c, ops)
    decreases |ops|
  {
    if ops != [] {
      FlushRunsAreAligned(Step(c, ops[0]), ops[1..]);
    }
  }

  /** Save, extend, reload, extend further: the rows handed out from there on lie that far back. */
  lemma ReloadShiftsItems(e: Batches, total: nat, a: nat, b: nat)
    requires 0 < total && 0 < a < b
    ensures var c := Counters(total, 0, None, Stored([], true, Range(0, total)));
            var ops := [SavePool, Extend(a), LoadPool(true), Extend(b), Take(total + b)];
            !Aligned(c, ops) && Outputs(e, c, ops) == [Ok(e(Shifted(total, a, b), 0, total + b))]
  {
    var c := Counters(total, 0, None, Stored([], true, Range(0, total)));
    var ops := [SavePool, Extend(a), LoadPool(true), Extend(b), Take(total + b)];
    var c1 := Step(c, ops[0]);
    var c2 := Step(c1, ops[1]);
    var c3 := Step(c2, ops[2]);
    var c4 := Step(c3, ops[3]);
    assert c4.Held() == Shifted(total, a, b) && c4.total == total + b && c4.cursor == 0;
    Unfold(e, c, ops);
    Unfold(e, c1, ops[1..]);
    Unfold(e, c2, ops[2..]);
    Unfold(e, c3, ops[3..]);
    Unfold(e, c4, ops[4..]);
    assert ItemAt(c4.Held(), total + a) == total;
  }

  lemma Unfold(e: Batches, c: Counters, ops: seq<Op>)
    requires ops != []
    ensures Outputs(e, c, ops) == Output(e, c, ops[0]) + Outputs(e, Step(c, ops[0]), ops[1..])
    ensures Aligned(c, ops) <==>
      && (ops[0].Take? && c.Enough(ops[0].n) ==> InPlace(c.Held(), c.cursor, ops[0].n))
      && Aligned(Step(c, ops[0]), ops[1..])
  {
  }

  // -------------------------------------------------------------------------
  // Parties in step
  // -------------------------------------------------------------------------

  /** Two parties agree on what is there and what is next, now and in what they saved. */
  predicate InStep(a: Counters, b: Counters) {
    && a.total == b.total && a.cursor == b.cursor && (a.saved.Some? <==> b.saved.Some?)
    && (a.saved.Some? ==> a.saved.value.total == b.saved.value.total)
  }

  /** The cursor a crash would bring back is the current one. */
  predicate Current(c: Counters) {
    c.saved.Some? ==> c.saved.value.cursor == c.cursor
  }

  /** Whenever the run crashes, the party has its cursor on disk. */
  predicate Steady(c: Counters, ops: seq<Op>)
    decreases |ops|
  {
    ops != [] ==>
      && (ops[0].LoadPool? && !ops[0].clean ==> Current(c)) && Steady(Step(c, ops[0]), ops[1..])
  }

  /** P0 and P2 always have. */
  lemma {:induction false} StoringIsSteady(c: Counters, ops: seq<Op>)
    requires c.rows.Stored? && Current(c)
    ensures Steady(c, ops)
    decreases |ops|
  {
    if ops != [] {
      StoringIsSteady(Step(c, ops[0]), ops[1..]);
    }
  }

  /** A crash brings P1 back in step with the others if and only if it had its cursor on disk. */
  lemma CrashKeepsStep(a: Counters, b: Counters)
    requires InStep(a, b) && Current(a) && a.saved.Some?
    ensures InStep(Step(a, LoadPool(false)), Step(b, LoadPool(false))) <==> Current(b)
  {
  }

  /** A take since the last save, then a crash: P1 hands out again what the others have handed out. */
  lemma CrashRepeatsAtP1(d: Items, total: nat, rows: Rows)
    requires 2 <= total && rows.Stored?
    ensures var ops := [SavePool, Take(1), LoadPool(false), Take(1)];
            var c0, c1 := Counters(total, 0, None, rows), Counters(total, 0, None, Regenerated);
            && !Steady(c1, ops) && Final(c0, ops).cursor == 2 && Final(c1, ops).cursor == 1
            && Outputs(ServedBy(d, ID1), c1, ops)
               == [Ok(Served(d, ID1, [], 0, 1)), Ok(Served(d, ID1, [], 0, 1))]
  {
    var ops := [SavePool, Take(1), LoadPool(false), Take(1)];
    var e := ServedBy(d, ID1);
    var c1 := Counters(total, 0, None, Regenerated);
    var c2 := Step(c1, ops[0]);
    var c3 := Step(c2, ops[1]);
    var c4 := Step(c3, ops[2]);
    Unfold(e, c1, ops);
    Unfold(e, c2, ops[1..]);
    Unfold(e, c3, ops[2..]);
    Unfold(e, c4, ops[3..]);
    var a1 := Counters(total, 0, None, rows);
    var a2 := Step(a1, ops[0]);
    var a3 := Step(a2, ops[1]);
    var a4 := Step(a3, ops[2]);
    assert a4.total == total && a4.cursor == 1;
    FinalUnfold(a1, ops);
    FinalUnfold(a2, ops[1..]);
    FinalUnfold(a3, ops[2..]);
    FinalUnfold(a4, ops[3..]);
    FinalUnfold(c1, ops);
    FinalUnfold(c2, ops[1..]);
    FinalUnfold(c3, ops[2..]);
    FinalUnfold(c4, ops[3..]);
  }

  lemma FinalUnfold(c: Counters, ops: seq<Op>)
    requires ops != []
    ensures Final(c, ops) == Final(Step(c, ops[0]), ops[1..])
    ensures Steady(c, ops) <==>
      (ops[0].LoadPool? && !ops[0].clean ==> Current(c)) && Steady(Step(c, ops[0]), ops[1..])
  {
  }

  lemma StepInStep(a: Counters, b: Counters, op: Op)
    requires InStep(a, b) && (op.LoadPool? && !op.clean ==> Current(a) && Current(b))
    ensures InStep(Step(a, op), Step(b, op))
  {
  }

  // -------------------------------------------------------------------------
  // The three parties
  // -------------------------------------------------------------------------

  /** The party's rows in these positions are those of the items that belong there. */
  ghost predicate RowsInPlace(d: Items, party: PartyId, held: seq<nat>, start: nat, n: nat) {
    forall i :: start <= i < start + n ==> RowInPlace(d, party, held, i)
  }

  ghost predicate RowInPlace(d: Items, party: PartyId, held: seq<nat>, i: nat) {
    StoredRow(d, party, ItemAt(held, i)) == StoredRow(d, party, i)
  }

  /** A position is correctly shared exactly if P0's and P2's rows are in place. */
  lemma ItemCorrelates(d: Items, h0: seq<nat>, h2: seq<nat>, i: nat)
    requires d.Faithful()
    ensures SharesItem(d.gamma(i), d.theta(i), ServedShare(d, ID0, i, ItemAt(h0, i)), d.ShareOf(ID1, i),
                       ServedShare(d, ID2, i, ItemAt(h2, i)))
       <==> RowInPlace(d, ID0, h0, i) && RowInPlace(d, ID2, h2, i)
  {
    ItemRecombines(d, i);
    var s := Add(d.r1(i), d.s12(i));
    SubAdd(s, d.s20(ItemAt(h2, i)));
    SubAdd(s, d.s20(i));
  }

  /** One position of a party's batch. */
  lemma ServedItem(d: Items, party: PartyId, held: seq<nat>, start: nat, n: nat, i: nat)
    requires i < n
    ensures var b := Served(d, party, held, start, n);
            && b.shares[i] == ServedShare(d, party, start + i, ItemAt(held, start + i))
            && (party == ID0 ==> b.gammas[i] == d.gamma(start + i))
            && (party == ID1 ==> b.thetas[i] == d.theta(start + i) && b.shares[i] == d.ShareOf(ID1, start + i))
  {
  }

  /** One position of the three batches. */
  lemma BatchItem(d: Items, h0: seq<nat>, h2: seq<nat>, start: nat, n: nat, i: nat)
    requires d.Faithful() && i < n
    ensures var b0, b1, b2 := Served(d, ID0, h0, start, n), Served(d, ID1, [], start, n), Served(d, ID2, h2, start, n);
            SharesItem(b0.gammas[i], b1.thetas[i], b0.shares[i], b1.shares[i], b2.shares[i])
            <==> RowInPlace(d, ID0, h0, start + i) && RowInPlace(d, ID2, h2, start + i)
  {
    ServedItem(d, ID0, h0, start, n, i);
    ServedItem(d, ID1, [], start, n, i);
    ServedItem(d, ID2, h2, start, n, i);
    ItemCorrelates(d, h0, h2, start + i);
  }

  lemma CorrelatedInPlace(d: Items, h0: seq<nat>, h2: seq<nat>, start: nat, n: nat, i: nat)
    requires d.Faithful() && start <= i < start + n
    requires Correlated(Served(d, ID0, h0, start, n), Served(d, ID1, [], start, n), Served(d, ID2, h2, start, n))
    ensures RowInPlace(d, ID0, h0, i) && RowInPlace(d, ID2, h2, i)
  {
    BatchItem(d, h0, h2, start, n, i - start);
  }

  lemma InPlaceCorrelated(d: Items, h0: seq<nat>, h2: seq<nat>, start: nat, n: nat)
    requires d.Faithful() && RowsInPlace(d, ID0, h0, start, n) && RowsInPlace(d, ID2, h2, start, n)
    ensures Correlated(Served(d, ID0, h0, start, n), Served(d, ID1, [], start, n), Served(d, ID2, h2, start, n))
  {
    var b0, b1, b2 := Served(d, ID0, h0, start, n), Served(d, ID1, [], start, n), Served(d, ID2, h2, start, n);
    assert b1.thetas == b2.thetas;
    forall i | 0 <= i < n
      ensures SharesItem(b0.gammas[i], b1.thetas[i], b0.shares[i], b1.shares[i], b2.shares[i])
    {
      BatchItem(d, h0, h2, start, n, i);
      assert RowInPlace(d, ID0, h0, start + i) && RowInPlace(d, ID2, h2, start + i);
    }
  }

  lemma BatchesCorrelate(d: Items, h0: seq<nat>, h2: seq<nat>, start: nat, n: nat)
    requires d.Faithful()
    ensures Correlated(Served(d, ID0, h0, start, n), Served(d, ID1, [], start, n), Served(d, ID2, h2, start, n))
       <==> RowsInPlace(d, ID0, h0, start, n) && RowsInPlace(d, ID2, h2, start, n)
  {
    if Correlated(Served(d, ID0, h0, start, n), Served(d, ID1, [], start, n), Served(d, ID2, h2, start, n)) {
      forall i | start <= i < start + n
        ensures RowInPlace(d, ID0, h0, i) && RowInPlace(d, ID2, h2, i)
      {
        CorrelatedInPlace(d, h0, h2, start, n, i);
      }
    } else if RowsInPlace(d, ID0, h0, start, n) && RowsInPlace(d, ID2, h2, start, n) {
      InPlaceCorrelated(d, h0, h2, start, n);
    }
  }

  /** The run hands out only rows that are those of the items that belong there. */
  ghost predicate RowsAligned(d: Items, party: PartyId, c: Counters, ops: seq<Op>)
    decreases |ops|
  {
    ops != [] ==>
      && (ops[0].Take? && c.Enough(ops[0].n) ==> RowsInPlace(d, party, c.Held(), c.cursor, ops[0].n))
      && RowsAligned(d, party, Step(c, ops[0]), ops[1..])
  }

  lemma {:induction false} AlignedSuffices(d: Items, party: PartyId, c: Counters, ops: seq<Op>)
    requires Aligned(c, ops)
    ensures RowsAligned(d, party, c, ops)
    decreases |ops|
  {
    if ops != [] {
      AlignedSuffices(d, party, Step(c, ops[0]), ops[1..]);
    }
  }

  /** What the three parties hand out at one take: all succeed or none, and batches fit together. */
  ghost predicate Together(b0: Result<Batch>, b1: Result<Batch>, b2: Result<Batch>) {
    && (b0.Ok? <==> b1.Ok?) && (b0.Ok? <==> b2.Ok?)
    && (b0.Ok? ==> Correlated(b0.value, b1.value, b2.value))
  }

  ghost predicate AllTogether(o0: seq<Result<Batch>>, o1: seq<Result<Batch>>, o2: seq<Result<Batch>>) {
    |o0| == |o1| == |o2| && forall t :: 0 <= t < |o0| ==> Together(o0[t], o1[t], o2[t])
  }

  lemma TogetherParts(o0: seq<Result<Batch>>, o1: seq<Result<Batch>>, o2: seq<Result<Batch>>)
    requires o0 != [] && AllTogether(o0, o1, o2)
    ensures Together(o0[0], o1[0], o2[0]) && AllTogether(o0[1..], o1[1..], o2[1..])
  {
    forall t | 0 <= t < |o0| - 1
      ensures Together(o0[1..][t], o1[1..][t], o2[1..][t])
    {
      assert Together(o0[t + 1], o1[t + 1], o2[t + 1]);
    }
  }

  lemma TogetherWhole(o0: seq<Result<Batch>>, o1: seq<Result<Batch>>, o2: seq<Result<Batch>>)
    requires o0 != [] && o1 != [] && o2 != []
    requires Together(o0[0], o1[0], o2[0]) && AllTogether(o0[1..], o1[1..], o2[1..])
    ensures AllTogether(o0, o1, o2)
  {
    forall t | 0 <= t < |o0|
      ensures Together(o0[t], o1[t], o2[t])
    {
      if t > 0 {
        assert Together(o0[1..][t - 1], o1[1..][t - 1], o2[1..][t - 1]);
      }
    }
  }

  lemma TogetherCons(o0: seq<Result<Batch>>, o1: seq<Result<Batch>>, o2: seq<Result<Batch>>,
                     b0: Result<Batch>, b1: Result<Batch>, b2: Result<Batch>)
    ensures AllTogether([b0] + o0, [b1] + o1, [b2] + o2) <==> Together(b0, b1, b2) && AllTogether(o0, o1, o2)
  {
    var a0, a1, a2 := [b0] + o0, [b1] + o1, [b2] + o2;
    assert a0[1..] == o0 && a1[1..] == o1 && a2[1..] == o2;
    if AllTogether(a0, a1, a2) {
      TogetherParts(a0, a1, a2);
    } else if Together(b0, b1, b2) && AllTogether(o0, o1, o2) {
      TogetherWhole(a0, a1, a2);
    }
  }

  /** What the parties hand out at one operation of a common run. */
  lemma OutputsCorrelate(d: Items, c0: Counters, c1: Counters, c2: Counters, op: Op)
    requires d.Faithful() && op.Take? && InStep(c0, c1) && InStep(c2, c1) && c1.rows.Regenerated?
    ensures Together(Output(ServedBy(d, ID0), c0, op)[0], Output(ServedBy(d, ID1), c1, op)[0],
                     Output(ServedBy(d, ID2), c2, op)[0])
       <==> (c1.Enough(op.n) ==> RowsInPlace(d, ID0, c0.Held(), c0.cursor, op.n)
                                 && RowsInPlace(d, ID2, c2.Held(), c2.cursor, op.n))
  {
    BatchesCorrelate(d, c0.Held(), c2.Held(), c1.cursor, op.n);
  }

  /**
    In every common run in which no crash finds P1's cursor unsaved, each take
    succeeds at all parties or at none and recombines, if and only if P0 and P2
    handed out only rows that were in place.
   */
  lemma {:induction false} RunsRecombine(d: Items, c0: Counters, c1: Counters, c2: Counters, ops: seq<Op>)
    requires d.Faithful() && InStep(c0, c1) && InStep(c2, c1) && c1.rows.Regenerated?
    requires Steady(c0, ops) && Steady(c1, ops) && Steady(c2, ops)
    ensures AllTogether(Outputs(ServedBy(d, ID0), c0, ops), Outputs(ServedBy(d, ID1), c1, ops),
                        Outputs(ServedBy(d, ID2), c2, ops))
       <==> RowsAligned(d, ID0, c0, ops) && RowsAligned(d, ID2, c2, ops)
    decreases |ops|
  {
    if ops != [] {
      var e0, e1, e2 := ServedBy(d, ID0), ServedBy(d, ID1), ServedBy(d, ID2);
      var d0, d1, d2 := Step(c0, ops[0]), Step(c1, ops[0]), Step(c2, ops[0]);
      StepInStep(c0, c1, ops[0]);
      StepInStep(c2, c1, ops[0]);
      RunsRecombine(d, d0, d1, d2, ops[1..]);
      if ops[0].Take? {
        OutputsCorrelate(d, c0, c1, c2, ops[0]);
        TogetherCons(Outputs(e0, d0, ops[1..]), Outputs(e1, d1, ops[1..]), Outputs(e2, d2, ops[1..]),
                     Output(e0, c0, ops[0])[0], Output(e1, c1, ops[0])[0], Output(e2, c2, ops[0])[0]);
      } else {
        Nothing(Outputs(e0, d0, ops[1..]));
        Nothing(Outputs(e1, d1, ops[1..]));
        Nothing(Outputs(e2, d2, ops[1..]));
      }
    }
  }

  lemma Nothing(o: seq<Result<Batch>>)
    ensures [] + o == o
  {
  }

  /** The three real pools in a common run. */
  method CommonRun(p0: LazyDaBits, p1: LazyDaBits, p2: LazyDaBits, ops: seq<Op>)
    returns (o0: seq<Result<Batch>>, o1: seq<Result<Batch>>, o2: seq<Result<Batch>>)
    requires p0 != p1 && p1 != p2 && p0 != p2 && p0.dir != p1.dir && p1.dir != p2.dir && p0.dir != p2.dir
    requires p0.Valid() && p1.Valid() && p2.Valid() && p0.d == p1.d == p2.d
    requires p0.party == ID0 && p1.party == ID1 && p2.party == ID2
    requires InStep(CountersOf(p0), CountersOf(p1)) && InStep(CountersOf(p2), CountersOf(p1))
    requires Steady(CountersOf(p1), ops)
    modifies p0, p0.dir, p1, p1.dir, p2, p2.dir
    ensures AllTogether(o0, o1, o2)
       <==> RowsAligned(p0.d, ID0, old(CountersOf(p0)), ops) && RowsAligned(p0.d, ID2, old(CountersOf(p2)), ops)
    ensures Aligned(old(CountersOf(p0)), ops) && Aligned(old(CountersOf(p2)), ops) ==> AllTogether(o0, o1, o2)
  {
    ghost var c0, c1, c2 := CountersOf(p0), CountersOf(p1), CountersOf(p2);
    StoringIsSteady(c0, ops);
    StoringIsSteady(c2, ops);
    RunsRecombine(p0.d, c0, c1, c2, ops);
    if Aligned(c0, ops) && Aligned(c2, ops) {
      AlignedSuffices(p0.d, ID0, c0, ops);
      AlignedSuffices(p0.d, ID2, c2, ops);
    }
    var a, _ := Run(p0, ops);
    var b, _ := Run(p1, ops);
    var c, _ := Run(p2, ops);
    o0, o1, o2 := a, b, c;
  }

  // -------------------------------------------------------------------------
  // Every item once
  // -------------------------------------------------------------------------

  function JoinTwo(a: Batch, b: Batch): Batch {
    Batch(a.gammas + b.gammas, a.thetas + b.thetas, a.shares + b.shares)
  }

  function Joined(outs: seq<Result<Batch>>): Batch {
    if outs == [] then Batch([], [], [])
    else if outs[0].Ok? then JoinTwo(outs[0].value, Joined(outs[1..]))
    else Joined(outs[1..])
  }

  lemma {:induction false} JoinedAppend(a: seq<Result<Batch>>, b: seq<Result<Batch>>)
    ensures Joined(a + b) == JoinTwo(Joined(a), Joined(b))
  {
    var y := Joined(b);
    if a == [] {
      assert a + b == b;
      assert JoinTwo(Batch([], [], []), y) == y;
    } else {
      assert (a + b)[1..] == a[1..] + b;
      JoinedAppend(a[1..], b);
      if a[0].Ok? {
        JoinAssoc(a[0].value, Joined(a[1..]), y);
      }
    }
  }

  lemma JoinAssoc(a: Batch, b: Batch, c: Batch)
    ensures JoinTwo(a, JoinTwo(b, c)) == JoinTwo(JoinTwo(a, b), c)
  {
    assert a.gammas + (b.gammas + c.gammas) == a.gammas + b.gammas + c.gammas;
    assert a.thetas + (b.thetas + c.thetas) == a.thetas + b.thetas + c.thetas;
    assert a.shares + (b.shares + c.shares) == a.shares + b.shares + c.shares;
  }

  lemma EagerAdjacent(d: Items, party: PartyId, s: nat, a: nat, b: nat)
    ensures JoinTwo(d.Eager(party, s, a), d.Eager(party, s + a, b)) == d.Eager(party, s, a + b)
  {
    var x, y, z := d.Eager(party, s, a), d.Eager(party, s + a, b), d.Eager(party, s, a + b);
    assert x.gammas + y.gammas == z.gammas;
    assert x.thetas + y.thetas == z.thetas;
    assert x.shares + y.shares == z.shares;
  }

  lemma JoinEmpty(b: Batch)
    ensures JoinTwo(b, Batch([], [], [])) == b
  {
  }

  /** Batches from places that hold their own items, by first item and length. */
  type Eagers = (nat, nat) -> Batch

  ghost predicate Adjacent(f: Eagers, s: nat, a: nat, b: nat) {
    JoinTwo(f(s, a), f(s + a, b)) == f(s, a + b)
  }

  ghost predicate Joins(f: Eagers) {
    (forall s: nat :: f(s, 0) == Batch([], [], [])) && (forall s: nat, a: nat, b: nat :: Adjacent(f, s, a, b))
  }

  ghost predicate Extends(e: Batches, f: Eagers) {
    forall held: seq<nat>, s: nat, n: nat :: InPlace(held, s, n) ==> e(held, s, n) == f(s, n)
  }

  /** One operation hands out what its step of the cursor covers. */
  lemma OutputJoined(e: Batches, f: Eagers, c: Counters, op: Op)
    requires Joins(f) && Extends(e, f)
    requires op.Take? && c.Enough(op.n) ==> InPlace(c.Held(), c.cursor, op.n)
    requires op.LoadPool? && !op.clean ==> Current(c)
    ensures c.cursor <= Step(c, op).cursor
    ensures Joined(Output(e, c, op)) == f(c.cursor, Step(c, op).cursor - c.cursor)
  {
    if op.Take? {
      assert Output(e, c, op)[1..] == [];
      JoinEmpty(f(c.cursor, op.n));
    }
  }

  lemma JoinAdjacent(f: Eagers, a: seq<Result<Batch>>, b: seq<Result<Batch>>, from: nat, mid: nat, end: nat)
    requires Joins(f) && from <= mid <= end
    requires Joined(a) == f(from, mid - from) && Joined(b) == f(mid, end - mid)
    ensures Joined(a + b) == f(from, end - from)
  {
    JoinedAppend(a, b);
    assert Adjacent(f, from, mid - from, end - mid);
  }

  lemma {:induction false} RunJoined(e: Batches, f: Eagers, c: Counters, ops: seq<Op>)
    requires Joins(f) && Extends(e, f) && Aligned(c, ops) && Steady(c, ops)
    ensures c.cursor <= Final(c, ops).cursor
    ensures Joined(Outputs(e, c, ops)) == f(c.cursor, Final(c, ops).cursor - c.cursor)
    decreases |ops|
  {
    if ops != [] {
      var next := Step(c, ops[0]);
      OutputJoined(e, f, c, ops[0]);
      RunJoined(e, f, next, ops[1..]);
      JoinAdjacent(f, Output(e, c, ops[0]), Outputs(e, next, ops[1..]), c.cursor, next.cursor, Final(c, ops).cursor);
    }
  }

  function EagerOf(d: Items, party: PartyId): Eagers {
    (start: nat, n: nat) => d.Eager(party, start, n)
  }

  lemma EagerJoins(d: Items, party: PartyId)
    ensures Joins(EagerOf(d, party)) && Extends(ServedBy(d, party), EagerOf(d, party))
  {
    forall s: nat, a: nat, b: nat
      ensures Adjacent(EagerOf(d, party), s, a, b)
    {
      EagerAdjacent(d, party, s, a, b);
    }
    forall held: seq<nat>, s: nat, n: nat | InPlace(held, s, n)
      ensures ServedBy(d, party)(held, s, n) == EagerOf(d, party)(s, n)
    {
      ServedInPlace(d, party, held, s, n);
    }
  }

  /** Over an aligned run the batches join to one gapless stretch: no item twice, none skipped. */
  lemma EveryItemOnce(d: Items, party: PartyId, c: Counters, ops: seq<Op>)
    requires Aligned(c, ops) && Steady(c, ops)
    ensures c.cursor <= Final(c, ops).cursor
    ensures Joined(Outputs(ServedBy(d, party), c, ops)) == d.Eager(party, c.cursor, Final(c, ops).cursor - c.cursor)
  {
    EagerJoins(d, party);
    RunJoined(ServedBy(d, party), EagerOf(d, party), c, ops);
  }
}
