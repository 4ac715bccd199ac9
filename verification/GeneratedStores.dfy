/**
  From the writes of a generation run to the contents of the stores: whatever
  the lanes, segments and message limits, P0's and P2's files end up as the eager
  vectors.
 */
module GeneratedStores {
  import opened Arith
  import opened EdaBitsSpec
  import opened DaBitsSpec
  import opened FlatRows
  import opened Streaming
  import opened Segments
  import opened DaBits
  import opened Processes
  import opened Generation
  import opened GenerationRuns

  /** The writes into one store. */
  function Select(log: seq<Logged>, ty: nat): seq<Write> {
    if log == [] then []
    else (if log[0].ty == ty then [log[0].w] else []) + Select(log[1..], ty)
  }

  lemma {:induction false} SelectJoin(a: seq<Logged>, b: seq<Logged>, ty: nat)
    ensures Select(a + b, ty) == Select(a, ty) + Select(b, ty)
  {
    if a == [] {
      assert a + b == b;
    } else {
      assert (a + b)[1..] == a[1..] + b;
      SelectJoin(a[1..], b, ty);
      var own := if a[0].ty == ty then [a[0].w] else [];
      assert Select(a + b, ty) == own + (Select(a[1..], ty) + Select(b, ty));
      assert Select(a, ty) == own + Select(a[1..], ty);
    }
  }

  lemma {:induction false} SelectEda(ty: nat, ws: seq<Write>, want: nat)
    ensures Select(EdaLog(ty, ws), want) == if ty == want then ws else []
  {
    if ws != [] {
      SelectEda(ty, ws[1..], want);
      assert EdaLog(ty, ws)[1..] == EdaLog(ty, ws[1..]);
    }
  }

  // -------------------------------------------------------------------------
  // DaBits
  // -------------------------------------------------------------------------

  /** Elements per item in the party's store. */
  function Width(p: PartyId): nat {
    match p case ID0 => 1 case ID1 => 0 case ID2 => 2
  }

  /** The elements the party stores for items `c .. c + n`. */
  function Stored(d: Items, p: PartyId, c: nat, n: nat): Row {
    Flatten(StoredRows(d, p, c, n))
  }

  lemma StoredUniform(d: Items, p: PartyId, c: nat, n: nat)
    ensures Uniform(StoredRows(d, p, c, n), Width(p)) && |Stored(d, p, c, n)| == n * Width(p)
  {
    var rows := StoredRows(d, p, c, n);
    forall i | 0 <= i < n
      ensures |rows[i]| == Width(p)
    {
      assert rows[i] == StoredRow(d, p, c + i);
    }
    FlattenLength(rows, Width(p));
  }

  lemma StoredJoin(d: Items, p: PartyId, c: nat, a: nat, b: nat)
    ensures Stored(d, p, c, a) + Stored(d, p, c + a, b) == Stored(d, p, c, a + b)
  {
    assert StoredRows(d, p, c, a) + StoredRows(d, p, c + a, b) == StoredRows(d, p, c, a + b);
    FlattenAppend(StoredRows(d, p, c, a), StoredRows(d, p, c + a, b));
  }

  lemma {:induction false} S20sStored(d: Items, c: nat, n: nat)
    ensures S20s(d, c, n) == Stored(d, ID0, c, n)
  {
    if n > 0 {
      S20sStored(d, c, n - 1);
      StoredJoin(d, ID0, c, n - 1, 1);
      var last := StoredRows(d, ID0, c + (n - 1), 1);
      assert last == [[d.s20(c + (n - 1))]] && last[1..] == [];
      assert Stored(d, ID0, c + (n - 1), 1) == last[0] + Flatten(last[1..]) == last[0];
      assert S20s(d, c, n) == S20s(d, c, n - 1) + [d.s20(c + (n - 1))];
    }
  }

  lemma PairsStored(d: Items, c: nat, n: nat)
    ensures Pairs(S20s(d, c, n), S12s(d, c, n)) == Stored(d, ID2, c, n)
  {
    var a, b := S20s(d, c, n), S12s(d, c, n);
    assert seq(n, i requires 0 <= i < n => [a[i], b[i]]) == StoredRows(d, ID2, c, n);
  }

  /** A chunk's write, for either storing party. */
  lemma ChunkLogIs(d: Items, p: PartyId, c: Chunk)
    requires p != ID1
    ensures ChunkLog(d, p, c) == [Logged(DABITS, Write(c.start * Width(p), Stored(d, p, c.start, c.n)))]
  {
    S20sStored(d, c.start, c.n);
    PairsStored(d, c.start, c.n);
  }

  /** A plan goes out in chunks of at most `m` items. */
  function Chunks(start: nat, n: nat, m: nat): seq<Chunk>
    requires 0 < m
    decreases n
  {
    if n == 0 then [] else [Chunk(start, Min(n, m))] + Chunks(start + Min(n, m), n - Min(n, m), m)
  }

  function LaneChunks(plans: seq<Plan>, m: nat): seq<Chunk>
    requires 0 < m
  {
    if plans == [] then [] else Chunks(plans[0].start, plans[0].items, m) + LaneChunks(plans[1..], m)
  }

  /** The stored part of each chunk of a plan. */
  function Messages(d: Items, p: PartyId, start: nat, n: nat, m: nat): seq<Row>
    requires 0 < m
    decreases n
  {
    if n == 0 then [] else [Stored(d, p, start, Min(n, m))] + Messages(d, p, start + Min(n, m), n - Min(n, m), m)
  }

  lemma {:induction false} MessagesJoin(d: Items, p: PartyId, start: nat, n: nat, m: nat)
    requires 0 < m
    ensures Flatten(Messages(d, p, start, n, m)) == Stored(d, p, start, n)
    decreases n
  {
    if n > 0 {
      var k := Min(n, m);
      MessagesJoin(d, p, start + k, n - k, m);
      StoredJoin(d, p, start, k, n - k);
    }
  }

  lemma SelectFirst(w: Write, rest: seq<Logged>)
    ensures Select([Logged(DABITS, w)] + rest, DABITS) == [w] + Select(rest, DABITS)
  {
    assert ([Logged(DABITS, w)] + rest)[1..] == rest;
  }

  lemma PlanWritesFirst(at: nat, msg: Row, msgs: seq<Row>)
    ensures PlanWrites(at, [msg] + msgs) == [Write(at, msg)] + PlanWrites(at + |msg|, msgs)
  {
    assert ([msg] + msgs)[1..] == msgs;
  }

  lemma DaLogFirst(d: Items, p: PartyId, c: Chunk, cs: seq<Chunk>)
    ensures DaLog(d, p, [c] + cs) == ChunkLog(d, p, c) + DaLog(d, p, cs)
  {
    assert ([c] + cs)[1..] == cs;
  }

  /** The next chunk starts where this one's stored part ends. */
  lemma NextOffset(d: Items, p: PartyId, start: nat, k: nat)
    ensures 0 <= start * Width(p) && (start + k) * Width(p) == start * Width(p) + |Stored(d, p, start, k)|
  {
    StoredUniform(d, p, start, k);
    Distribute(start, k, Width(p));
  }

  /** The log of a plan's chunks is one write per message, at a running offset. */
  lemma {:induction false} PlanLog(d: Items, p: PartyId, start: nat, n: nat, m: nat, at: nat)
    requires 0 < m && p != ID1 && at == start * Width(p)
    ensures Select(DaLog(d, p, Chunks(start, n, m)), DABITS) == PlanWrites(at, Messages(d, p, start, n, m))
    decreases n
  {
    if n > 0 {
      var k := Min(n, m);
      var msg := Stored(d, p, start, k);
      NextOffset(d, p, start, k);
      PlanLog(d, p, start + k, n - k, m, at + |msg|);
      PlanLogStep(d, p, start, n, m, at);
    }
  }

  lemma PlanLogStep(d: Items, p: PartyId, start: nat, n: nat, m: nat, at: nat)
    requires 0 < m && p != ID1 && at == start * Width(p) && 0 < n
    requires var k := Min(n, m);
             Select(DaLog(d, p, Chunks(start + k, n - k, m)), DABITS)
             == PlanWrites(at + |Stored(d, p, start, k)|, Messages(d, p, start + k, n - k, m))
    ensures Select(DaLog(d, p, Chunks(start, n, m)), DABITS) == PlanWrites(at, Messages(d, p, start, n, m))
  {
    var k := Min(n, m);
    var msg, cs, msgs := Stored(d, p, start, k), Chunks(start + k, n - k, m), Messages(d, p, start + k, n - k, m);
    var c, log := Chunk(start, k), DaLog(d, p, cs);
    assert Select(DaLog(d, p, [c] + cs), DABITS) == [Write(at, msg)] + Select(log, DABITS) by {
      DaLogFirst(d, p, c, cs);
      ChunkLogIs(d, p, c);
      SelectFirst(Write(at, msg), log);
    }
    PlanWritesFirst(at, msg, msgs);
  }

  function SentFor(d: Items, p: PartyId, m: nat): Plan -> seq<Row>
    requires 0 < m
  {
    (plan: Plan) => Messages(d, p, plan.start, plan.items, m)
  }

  /** The log of a lane is the writes of its plans, one after the other. */
  lemma {:induction false} LaneLog(d: Items, p: PartyId, plans: seq<Plan>, m: nat)
    requires 0 < m && p != ID1
    ensures Select(DaLog(d, p, LaneChunks(plans, m)), DABITS) == LaneWrites(plans, SentFor(d, p, m), Width(p))
  {
    if plans != [] {
      var a, b := Chunks(plans[0].start, plans[0].items, m), LaneChunks(plans[1..], m);
      LaneLog(d, p, plans[1..], m);
      PlanLog(d, p, plans[0].start, plans[0].items, m, plans[0].start * Width(p));
      DaLogJoin(d, p, a, b);
      SelectJoin(DaLog(d, p, a), DaLog(d, p, b), DABITS);
    }
  }

  lemma {:induction false} DaLogJoin(d: Items, p: PartyId, a: seq<Chunk>, b: seq<Chunk>)
    ensures DaLog(d, p, a + b) == DaLog(d, p, a) + DaLog(d, p, b)
  {
    if a == [] {
      assert a + b == b;
    } else {
      assert (a + b)[1..] == a[1..] + b;
      DaLogJoin(d, p, a[1..], b);
    }
  }

  /** Plans that tile the items carry the slices of the eager vector. */
  lemma PlansCarry(d: Items, p: PartyId, plans: seq<Plan>, total: nat, m: nat)
    requires 0 < m && Tiles(plans, 0, total)
    ensures Carries(plans, SentFor(d, p, m), Stored(d, p, 0, total), Width(p))
  {
    forall i | 0 <= i < |plans|
      ensures PlanCarried(plans[i], SentFor(d, p, m)(plans[i]), Stored(d, p, 0, total), Width(p))
    {
      TilesInside(plans, 0, total, i);
      PlanCarries(d, p, plans[i], total, m);
    }
  }

  lemma SliceStored(d: Items, p: PartyId, s: nat, n: nat, total: nat)
    requires s + n <= total
    ensures StoredRows(d, p, 0, total)[s..s + n] == StoredRows(d, p, s, n)
  {
  }

  lemma PlanCarries(d: Items, p: PartyId, plan: Plan, total: nat, m: nat)
    requires 0 < m && plan.start + plan.items <= total
    ensures PlanCarried(plan, Messages(d, p, plan.start, plan.items, m), Stored(d, p, 0, total), Width(p))
  {
    MessagesJoin(d, p, plan.start, plan.items, m);
    StoredUniform(d, p, 0, total);
    SliceStored(d, p, plan.start, plan.items, total);
    CarriedRows(plan, Messages(d, p, plan.start, plan.items, m), StoredRows(d, p, 0, total), Width(p));
  }

  /** The daBit round: every lane works through its plans. */
  function DaRound(lanes: seq<seq<Plan>>, m: nat): Round
    requires 0 < m
  {
    Forked(true, seq(|lanes|, f requires 0 <= f < |lanes| => Da(LaneChunks(lanes[f], m))))
  }

  // -------------------------------------------------------------------------
  // Finished runs
  // -------------------------------------------------------------------------

  /** The logs of a finished run. */
  ghost predicate Logs(d: Items, eda: seq<Round>, da: seq<Round>, mem: Mems) {
    forall t: Thread :: t in mem && mem[t].log == Log(d, eda, t) + Log(d, da, t)
  }

  lemma RunLogs(d: Items, eda: seq<Round>, da: seq<Round>, cap: Chan -> nat, sched: seq<Thread>, r: S)
    requires d.Faithful() && ValidRounds(eda) && ValidRounds(da)
    requires Run(d, eda, da, cap, sched, r) && Processes.Finished(r)
    ensures Logs(d, eda, da, r.data.mem)
  {
    forall t: Thread
      ensures t in r.data.mem
      ensures r.data.mem[t].log == Log(d, eda, t) + Log(d, da, t)
    {
      WritesEager(d, eda, da, cap, sched, r, t);
    }
  }

  /** Only edaBit work, into edaBit stores. */
  ghost predicate EdaJob(job: Job) {
    job.Eda? && job.ty < DABITS
  }

  ghost predicate EdaOnly(rs: seq<Round>) {
    forall i :: 0 <= i < |rs| ==>
      match rs[i]
      case Direct(job) => EdaJob(job)
      case Forked(_, jobs) => forall f :: 0 <= f < |jobs| ==> EdaJob(jobs[f])
  }

  lemma RoundNoDaBits(d: Items, r: Round, t: Thread)
    requires EdaOnly([r])
    ensures Select(RoundLog(d, r, t), DABITS) == []
  {
    assert [r][0] == r;
    match r
    case Direct(job) => SelectEda(job.ty, job.ws, DABITS);
    case Forked(_, jobs) =>
      if t.place.Fork? && t.place.f < |jobs| {
        SelectEda(jobs[t.place.f].ty, jobs[t.place.f].ws, DABITS);
      }
  }

  /** The edaBit rounds write nothing into the daBit store. */
  lemma {:induction false} NoDaBits(d: Items, rs: seq<Round>, t: Thread)
    requires EdaOnly(rs)
    ensures Select(Log(d, rs, t), DABITS) == []
  {
    if rs != [] {
      assert EdaOnly([rs[0]]);
      RoundNoDaBits(d, rs[0], t);
      NoDaBits(d, rs[1..], t);
      SelectJoin(RoundLog(d, rs[0], t), Log(d, rs[1..], t), DABITS);
    }
  }

  /** The writes of the first `n` lanes of one party into one store. */
  ghost function WritesInto(mem: Mems, p: PartyId, ty: nat, n: nat): (ws: seq<seq<Write>>)
    requires Everyone(mem)
    ensures |ws| == n
  {
    seq(n, f requires 0 <= f < n => Select(mem[Thread(p, Fork(f))].log, ty))
  }

  /** Only one of the phases writes into a store. */
  lemma SelectEither(a: seq<Logged>, b: seq<Logged>, ty: nat)
    ensures Select(a, ty) == [] ==> Select(a + b, ty) == Select(b, ty)
    ensures Select(b, ty) == [] ==> Select(a + b, ty) == Select(a, ty)
  {
    SelectJoin(a, b, ty);
  }

  lemma OneRoundLog(d: Items, r: Round, t: Thread)
    ensures Log(d, [r], t) == RoundLog(d, r, t)
  {
    assert [r][1..] == [];
    assert Log(d, [r], t) == RoundLog(d, r, t) + [];
    assert RoundLog(d, r, t) + [] == RoundLog(d, r, t);
  }

  /** What a process has written into the daBit store is what the daBit round wrote. */
  lemma DaSelected(d: Items, eda: seq<Round>, da: Round, mem: Mems, t: Thread)
    requires Logs(d, eda, [da], mem) && EdaOnly(eda)
    ensures t in mem && Select(mem[t].log, DABITS) == Select(RoundLog(d, da, t), DABITS)
  {
    NoDaBits(d, eda, t);
    OneRoundLog(d, da, t);
    SelectEither(Log(d, eda, t), Log(d, [da], t), DABITS);
  }

  /** DaBit chunks write into the daBit store only. */
  lemma {:induction false} DaLogOnly(d: Items, p: PartyId, cs: seq<Chunk>, ty: nat)
    ensures ty != DABITS ==> Select(DaLog(d, p, cs), ty) == []
  {
    if cs != [] {
      DaLogOnly(d, p, cs[1..], ty);
      SelectJoin(ChunkLog(d, p, cs[0]), DaLog(d, p, cs[1..]), ty);
    }
  }

  /** In every finished run the daBit writes of the lanes are those of their plans. */
  lemma DaBitWritesAre(d: Items, eda: seq<Round>, lanes: seq<seq<Plan>>, m: nat, mem: Mems, p: PartyId)
    requires 0 < m && p != ID1 && EdaOnly(eda) && Logs(d, eda, [DaRound(lanes, m)], mem)
    ensures Everyone(mem) && WritesInto(mem, p, DABITS, |lanes|) == AllLanes(lanes, SentFor(d, p, m), Width(p))
  {
    forall f: nat | f < |lanes|
      ensures WritesInto(mem, p, DABITS, |lanes|)[f] == AllLanes(lanes, SentFor(d, p, m), Width(p))[f]
    {
      DaSelected(d, eda, DaRound(lanes, m), mem, Thread(p, Fork(f)));
      LaneLog(d, p, lanes[f], m);
    }
  }

  lemma PlansFill(d: Items, p: PartyId, plans: seq<Plan>, lanes: seq<seq<Plan>>, total: nat, m: nat)
    requires 0 < m && Tiles(plans, 0, total) && Flatten(lanes) == plans
    ensures FillsWith(AllLanes(lanes, SentFor(d, p, m), Width(p)), Stored(d, p, 0, total))
  {
    StoredUniform(d, p, 0, total);
    PlansCarry(d, p, plans, total, m);
    DealtPlansFill(total, Width(p), plans, lanes, SentFor(d, p, m), Stored(d, p, 0, total));
  }

  lemma LogsFill(d: Items, eda: seq<Round>, plans: seq<Plan>, lanes: seq<seq<Plan>>, total: nat, m: nat,
                 mem: Mems, p: PartyId)
    requires 0 < m && p != ID1 && EdaOnly(eda) && Logs(d, eda, [DaRound(lanes, m)], mem)
    requires Tiles(plans, 0, total) && Flatten(lanes) == plans
    ensures Everyone(mem) && FillsWith(WritesInto(mem, p, DABITS, |lanes|), Stored(d, p, 0, total))
  {
    DaBitWritesAre(d, eda, lanes, m, mem, p);
    PlansFill(d, p, plans, lanes, total, m);
  }

  lemma DaRoundValid(lanes: seq<seq<Plan>>, m: nat)
    requires 0 < m
    ensures ValidRounds([DaRound(lanes, m)])
  {
  }

  /**
    In every finished run with forked daBit work the daBit stores of P0 and P2 are
    the eager vectors: the writes of their lanes, in whatever order they reach the
    file, fill it with exactly those.
   */
  lemma DaBitStoresEager(d: Items, eda: seq<Round>, plans: seq<Plan>, lanes: seq<seq<Plan>>, total: nat, m: nat,
                         cap: Chan -> nat, sched: seq<Thread>, r: S, p: PartyId)
    requires d.Faithful() && 0 < m && p != ID1 && ValidRounds(eda) && EdaOnly(eda)
    requires Tiles(plans, 0, total) && Flatten(lanes) == plans
    requires Run(d, eda, [DaRound(lanes, m)], cap, sched, r) && Processes.Finished(r)
    ensures Everyone(r.data.mem) && FillsWith(WritesInto(r.data.mem, p, DABITS, |lanes|), Stored(d, p, 0, total))
  {
    DaRoundValid(lanes, m);
    RunLogs(d, eda, [DaRound(lanes, m)], cap, sched, r);
    LogsFill(d, eda, plans, lanes, total, m, r.data.mem, p);
  }

  /** The same when the main processes do the daBit work themselves. */
  lemma DirectDaBitStoresEager(d: Items, eda: seq<Round>, total: nat, m: nat,
                               cap: Chan -> nat, sched: seq<Thread>, r: S, p: PartyId)
    requires d.Faithful() && 0 < m && p != ID1 && ValidRounds(eda) && EdaOnly(eda)
    requires Run(d, eda, [Direct(Da(Chunks(0, total, m)))], cap, sched, r) && Processes.Finished(r)
    ensures Thread(p, Base) in r.data.mem
    ensures FillsWith([Select(r.data.mem[Thread(p, Base)].log, DABITS)], Stored(d, p, 0, total))
  {
    var da := Direct(Da(Chunks(0, total, m)));
    RunLogs(d, eda, [da], cap, sched, r);
    DaSelected(d, eda, da, r.data.mem, Thread(p, Base));
    PlanLog(d, p, 0, total, m, 0);
    var plans: seq<Plan> := if total == 0 then [] else [Plan(0, total)];
    OnePlan(d, p, total, m);
    PlansFill(d, p, plans, [plans], total, m);
  }

  lemma OnePlan(d: Items, p: PartyId, total: nat, m: nat)
    requires 0 < m
    ensures var plans: seq<Plan> := if total == 0 then [] else [Plan(0, total)];
            && Tiles(plans, 0, total) && Flatten([plans]) == plans
            && AllLanes([plans], SentFor(d, p, m), Width(p)) == [PlanWrites(0, Messages(d, p, 0, total, m))]
  {
    var plans: seq<Plan> := if total == 0 then [] else [Plan(0, total)];
    assert [plans][1..] == [] && plans + [] == plans;
    var sent, w := SentFor(d, p, m), PlanWrites(0, Messages(d, p, 0, total, m));
    if total > 0 {
      assert plans[1..] == [] && 0 * Width(p) == 0;
      assert LaneWrites(plans, sent, Width(p)) == w + LaneWrites(plans[1..], sent, Width(p));
      assert w + [] == w;
    }
    assert AllLanes([plans], sent, Width(p))[0] == LaneWrites(plans, sent, Width(p)) == w;
  }

  // -------------------------------------------------------------------------
  // P2's buffer
  // -------------------------------------------------------------------------

  lemma SummandsJoin(d: Items, c: nat, a: nat, b: nat)
    ensures S20s(d, c, a) + S20s(d, c + a, b) == S20s(d, c, a + b)
    ensures S12s(d, c, a) + S12s(d, c + a, b) == S12s(d, c, a + b)
  {
  }

  /** Writing the next pairs after those already written. */
  lemma FlushPairs(d: Items, store: Row, start: nat, a: nat, b: nat)
    requires 2 * (start + a + b) <= |store|
    ensures |Stored(d, ID2, start, a)| == 2 * a && |Pairs(S20s(d, start + a, b), S12s(d, start + a, b))| == 2 * b
    ensures |Stored(d, ID2, start, a + b)| == 2 * (a + b)
    ensures Patch(Patch(store, 2 * start, Stored(d, ID2, start, a)), 2 * (start + a),
                  Pairs(S20s(d, start + a, b), S12s(d, start + a, b)))
         == Patch(store, 2 * start, Stored(d, ID2, start, a + b))
  {
    StoredUniform(d, ID2, start, a);
    StoredUniform(d, ID2, start + a, b);
    StoredUniform(d, ID2, start, a + b);
    PairsStored(d, start + a, b);
    StoredJoin(d, ID2, start, a, b);
    PatchMore(store, 2 * start, Stored(d, ID2, start, a), Stored(d, ID2, start + a, b));
  }

  /** Items up to `flushed` are in the store, those from there to `offset` in the buffer. */
  ghost predicate Buffered(
      d: Items, store: Row, start: nat, store': Row, s20s: Row, s12s: Row, pendingStart: nat, flushed: nat,
      offset: nat) {
    && flushed <= offset && 2 * (start + offset) <= |store|
    && s20s == S20s(d, start + flushed, offset - flushed) && s12s == S12s(d, start + flushed, offset - flushed)
    && (s20s != [] ==> pendingStart == start + flushed)
    && |Stored(d, ID2, start, flushed)| == 2 * flushed
    && store' == Patch(store, 2 * start, Stored(d, ID2, start, flushed))
  }

  /** Writes the buffered pairs out. */
  method Flush(
      d: Items, ghost store: Row, start: nat, now: Row, s20s: Row, s12s: Row, pendingStart: nat, ghost flushed: nat,
      ghost offset: nat)
    returns (store': Row)
    requires Buffered(d, store, start, now, s20s, s12s, pendingStart, flushed, offset) && s20s != []
    ensures Buffered(d, store, start, store', [], [], pendingStart, offset, offset)
  {
    FlushPairs(d, store, start, flushed, offset - flushed);
    store' := Patch(now, 2 * pendingStart, Pairs(s20s, s12s));
  }

  /** One chunk: answers P0 and puts the pairs into the buffer. */
  method Collect(
      d: Items, ghost store: Row, start: nat, ghost now: Row, s20s: Row, s12s: Row, pendingStart: nat,
      ghost flushed: nat, offset: nat, alpha2: Row, s12: Row)
    returns (s20: Row, s20s': Row, s12s': Row, pendingStart': nat)
    requires d.Faithful() && Buffered(d, store, start, now, s20s, s12s, pendingStart, flushed, offset)
    requires 2 * (start + offset + |alpha2|) <= |store| && alpha2 != []
    requires alpha2 == Alpha2s(d, start + offset, |alpha2|) && s12 == S12s(d, start + offset, |alpha2|)
    ensures s20 == S20s(d, start + offset, |alpha2|) && s20s' != []
    ensures Buffered(d, store, start, now, s20s', s12s', pendingStart', flushed, offset + |alpha2|)
  {
    s20 := S20FromThetaSeed(d, start + offset, alpha2);
    ReplyIsS20(d, start + offset, |alpha2|);
    pendingStart' := pendingStart;
    if s20s == [] {
      pendingStart' := start + offset;
    }
    SummandsJoin(d, start + flushed, offset - flushed, |alpha2|);
    s20s', s12s' := s20s + s20, s12s + s12;
  }

  lemma EmptyBuffer(d: Items, store: Row, start: nat)
    requires 2 * start <= |store|
    ensures Buffered(d, store, start, store, [], [], start, 0, 0)
  {
    StoredUniform(d, ID2, start, 0);
    assert Patch(store, 2 * start, []) == store;
  }

  /** One turn of P2's loop: receive, answer, buffer, and write out a full buffer. */
  method LaneStep(
      d: Items, ghost store: Row, start: nat, now: Row, s20s: Row, s12s: Row, pendingStart: nat, ghost flushed: nat,
      offset: nat, items: nat, storeBatch: nat)
    returns (s20: Row, store': Row, s20s': Row, s12s': Row, pendingStart': nat, ghost flushed': nat)
    requires d.Faithful() && Buffered(d, store, start, now, s20s, s12s, pendingStart, flushed, offset)
    requires 0 < items && 2 * (start + offset + items) <= |store|
    ensures s20 == S20s(d, start + offset, items)
    ensures Buffered(d, store, start, store', s20s', s12s', pendingStart', flushed', offset + items)
  {
    // what an honest P0 and P1 send for these items
    var alpha2, s12 := Alpha2s(d, start + offset, items), S12s(d, start + offset, items);
    s20, s20s', s12s', pendingStart' :=
      Collect(d, store, start, now, s20s, s12s, pendingStart, flushed, offset, alpha2, s12);
    store', flushed' := now, flushed;
    if |s20s'| >= storeBatch {
      store' := Flush(d, store, start, now, s20s', s12s', pendingStart', flushed, offset + items);
      s20s', s12s', flushed' := [], [], offset + items;
    }
  }

  /** The answers still to come, and all of them when none has been given. */
  function Answers(d: Items, start: nat, n: nat, m: nat): seq<Row>
    requires 0 < m
    decreases n
  {
    if n == 0 then [] else [S20s(d, start, Min(n, m))] + Answers(d, start + Min(n, m), n - Min(n, m), m)
  }

  lemma {:induction false} AnswersAreStored(d: Items, start: nat, n: nat, m: nat)
    requires 0 < m
    ensures Answers(d, start, n, m) == Messages(d, ID0, start, n, m)
    decreases n
  {
    if n > 0 {
      S20sStored(d, start, Min(n, m));
      AnswersAreStored(d, start + Min(n, m), n - Min(n, m), m);
    }
  }

  /** Giving the next answer moves it from the answers to come to those given. */
  lemma NextAnswers(d: Items, plan: Plan, m: nat, offset: nat, given: seq<Row>, s20: Row) returns (next: seq<Row>)
    requires 0 < m && offset < plan.items && s20 == S20s(d, plan.start + offset, Min(plan.items - offset, m))
    ensures var k := Min(plan.items - offset, m);
            next == Answers(d, plan.start + (offset + k), plan.items - (offset + k), m)
    ensures given + Answers(d, plan.start + offset, plan.items - offset, m) == given + [s20] + next
  {
    var k := Min(plan.items - offset, m);
    next := Answers(d, plan.start + (offset + k), plan.items - (offset + k), m);
    assert Answers(d, plan.start + offset, plan.items - offset, m) == [s20] + next;
    assert given + ([s20] + next) == given + [s20] + next;
  }

  /**
    One lane of P2 working through a plan.  Pairs are collected and written in
    batches; the store ends up as if each had been written at once, and the
    answers to P0 are the summands P0 has to store.
   */
  method P2Lane(d: Items, plan: Plan, m: nat, storeBatch: nat, store: Row) returns (store': Row, answers: seq<Row>)
    requires d.Faithful() && 0 < m && 2 * (plan.start + plan.items) <= |store|
    ensures |Stored(d, ID2, plan.start, plan.items)| == 2 * plan.items
    ensures store' == Patch(store, 2 * plan.start, Stored(d, ID2, plan.start, plan.items))
    ensures answers == Answers(d, plan.start, plan.items, m)
  {
    var s20s: Row, s12s: Row, pendingStart: nat, offset: nat := [], [], plan.start, 0;
    ghost var flushed: nat, rest := 0, Answers(d, plan.start, plan.items, m);
    ghost var all := rest;
    store', answers := store, [];
    EmptyBuffer(d, store, plan.start);
    while offset < plan.items
      invariant offset <= plan.items
      invariant Buffered(d, store, plan.start, store', s20s, s12s, pendingStart, flushed, offset)
      invariant answers + rest == all && rest == Answers(d, plan.start + offset, plan.items - offset, m)
    {
      var items := Min(plan.items - offset, m);
      var s20;
      s20, store', s20s, s12s, pendingStart, flushed :=
        LaneStep(d, store, plan.start, store', s20s, s12s, pendingStart, flushed, offset, items, storeBatch);
      ghost var next := NextAnswers(d, plan, m, offset, answers, s20);
      answers, offset, rest := answers + [s20], offset + items, next;
    }
    if s20s != [] {
      store' := Flush(d, store, plan.start, store', s20s, s12s, pendingStart, flushed, offset);
    }
  }
}
