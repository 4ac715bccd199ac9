/**
  P2's edaBit stores after a run of the generation protocol.  Whether a type is
  sent by the main processes, in segments over all lanes, or on a fork of its
  own beside the other types, the store ends up as the eager vector.
 */
module GeneratedEdaBits {
  import opened Arith
  import opened RngStream
  import opened EdaBitsSpec
  import opened DaBitsSpec
  import opened FlatRows
  import opened Framing
  import opened Streaming
  import opened Segments
  import opened DaBits
  import opened Processes
  import opened Generation
  import opened GenerationRuns
  import opened GeneratedStores

  // -------------------------------------------------------------------------
  // What any rounds write into one store
  // -------------------------------------------------------------------------

  function JobWrites(job: Job, ty: nat): seq<Write> {
    if job.Eda? && job.ty == ty then job.ws else []
  }

  function RoundWrites(r: Round, ty: nat, place: Place): seq<Write> {
    match r
    case Direct(job) => if place.Base? then JobWrites(job, ty) else []
    case Forked(_, jobs) => if place.Fork? && place.f < |jobs| then JobWrites(jobs[place.f], ty) else []
  }

  /** The writes of P2's process at `place` into the store of an edaBit type, over some rounds. */
  function WritesOf(rs: seq<Round>, ty: nat, place: Place): seq<Write> {
    if rs == [] then [] else RoundWrites(rs[0], ty, place) + WritesOf(rs[1..], ty, place)
  }

  lemma SelectJob(d: Items, job: Job, ty: nat)
    requires ty < DABITS
    ensures Select(JobLog(d, ID2, job), ty) == JobWrites(job, ty)
  {
    match job
    case Eda(own, ws) => SelectEda(own, ws, ty);
    case Da(cs) => DaLogOnly(d, ID2, cs, ty);
  }

  lemma SelectRound(d: Items, r: Round, ty: nat, place: Place)
    requires ty < DABITS
    ensures Select(RoundLog(d, r, Thread(ID2, place)), ty) == RoundWrites(r, ty, place)
  {
    match r
    case Direct(job) => SelectJob(d, job, ty);
    case Forked(_, jobs) =>
      if place.Fork? && place.f < |jobs| {
        SelectJob(d, jobs[place.f], ty);
      }
  }

  /** What P2 logs for a store is what the rounds write into it. */
  lemma {:induction false} SelectLog(d: Items, rs: seq<Round>, ty: nat, place: Place)
    requires ty < DABITS
    ensures Select(Log(d, rs, Thread(ID2, place)), ty) == WritesOf(rs, ty, place)
  {
    if rs != [] {
      SelectRound(d, rs[0], ty, place);
      SelectLog(d, rs[1..], ty, place);
      SelectJoin(RoundLog(d, rs[0], Thread(ID2, place)), Log(d, rs[1..], Thread(ID2, place)), ty);
    }
  }

  lemma {:induction false} WritesOfSnoc(rs: seq<Round>, r: Round, ty: nat, place: Place)
    ensures WritesOf(rs + [r], ty, place) == WritesOf(rs, ty, place) + RoundWrites(r, ty, place)
  {
    if rs == [] {
      assert rs + [r] == [r] && [r][1..] == [];
    } else {
      assert (rs + [r])[1..] == rs[1..] + [r];
      WritesOfSnoc(rs[1..], r, ty, place);
    }
  }

  /** Only daBit work. */
  ghost predicate DaOnly(rs: seq<Round>) {
    forall i :: 0 <= i < |rs| ==> DaRoundOnly(rs[i])
  }

  ghost predicate DaRoundOnly(r: Round) {
    match r
    case Direct(job) => job.Da?
    case Forked(three, jobs) => three && forall f :: 0 <= f < |jobs| ==> jobs[f].Da?
  }

  lemma {:induction false} DaWritesNoEda(rs: seq<Round>, ty: nat, place: Place)
    requires DaOnly(rs)
    ensures WritesOf(rs, ty, place) == [] && ValidRounds(rs)
  {
    if rs != [] {
      assert DaRoundOnly(rs[0]);
      DaWritesNoEda(rs[1..], ty, place);
      forall i | 0 <= i < |rs|
        ensures ValidRound(rs[i])
      {
        assert DaRoundOnly(rs[i]);
      }
    }
  }

  // -------------------------------------------------------------------------
  // How a type is generated
  // -------------------------------------------------------------------------

  /** One edaBit type: its layout, P0's snapshots and how many items. */
  datatype Spec = Spec(l: Layout, s01: Snap, s20: Snap, count: nat)

  /** The plans of a type by process, P2's main process first, then its forks, and P0's messages for them. */
  datatype Division = Division(lanes: seq<seq<Plan>>, sent: map<Plan, seq<Row>>)

  function PlaceAt(x: nat): Place {
    if x == 0 then Base else Fork(x - 1)
  }

  /** The plans tile the items and the messages are their rows. */
  ghost predicate DivisionSound(ks: Keystream, t: Spec, dv: Division) {
    && Tiles(Flatten(dv.lanes), 0, t.count) && SentAll(dv.sent, Flatten(dv.lanes))
    && SentRows(dv.sent, ks, t.l, t.s01, t.s20, 0)
  }

  /** What process `x` writes for a type that is shared out this way. */
  function DivisionWrites(dv: Division, k: nat, x: nat): seq<Write> {
    if x < |dv.lanes| then LaneWrites(dv.lanes[x], MessagesOf(dv.sent), k) else []
  }

  /** The rounds write the type as it is shared out, and nothing else into its store. */
  ghost predicate PlacedBy(rs: seq<Round>, ty: nat, dv: Division, k: nat) {
    forall x: nat {:trigger PlaceAt(x)} :: WritesOf(rs, ty, PlaceAt(x)) == DivisionWrites(dv, k, x)
  }

  /** The rounds generate all the types. */
  ghost predicate Generates(ks: Keystream, types: seq<Spec>, divided: seq<Division>, rs: seq<Round>) {
    && |divided| == |types| <= DABITS && ValidRounds(rs)
    && forall ty :: 0 <= ty < |types| ==>
         DivisionSound(ks, types[ty], divided[ty]) && PlacedBy(rs, ty, divided[ty], types[ty].l.k)
  }

  // -------------------------------------------------------------------------
  // Finished runs
  // -------------------------------------------------------------------------

  /** The writes of a party into one store, by process. */
  ghost function WritesAt(mem: Mems, p: PartyId, ty: nat, n: nat): (ws: seq<seq<Write>>)
    requires Everyone(mem)
    ensures |ws| == n && forall x :: 0 <= x < n ==> ws[x] == Select(mem[Thread(p, PlaceAt(x))].log, ty)
  {
    seq(n, x requires 0 <= x < n => Select(mem[Thread(p, PlaceAt(x))].log, ty))
  }

  /** What P2's process has written into the store of an edaBit type. */
  lemma Wrote(d: Items, eda: seq<Round>, da: seq<Round>, mem: Mems, ty: nat, place: Place)
    requires ty < DABITS && DaOnly(da) && Logs(d, eda, da, mem)
    ensures Thread(ID2, place) in mem && Select(mem[Thread(ID2, place)].log, ty) == WritesOf(eda, ty, place)
  {
    var t := Thread(ID2, place);
    SelectLog(d, eda, ty, place);
    SelectLog(d, da, ty, place);
    DaWritesNoEda(da, ty, place);
    SelectEither(Log(d, eda, t), Log(d, da, t), ty);
  }

  lemma LogsFillEda(d: Items, ks: Keystream, t: Spec, dv: Division, eda: seq<Round>, da: seq<Round>, mem: Mems, ty: nat)
    requires ty < DABITS && DaOnly(da) && Logs(d, eda, da, mem)
    requires DivisionSound(ks, t, dv) && PlacedBy(eda, ty, dv, t.l.k)
    ensures Everyone(mem)
    ensures FillsWith(WritesAt(mem, ID2, ty, |dv.lanes|), Flatten(Alpha2Rows(ks, t.l, t.s01, t.s20, 0, t.count)))
    ensures forall f: nat :: f + 1 >= |dv.lanes| ==> Select(mem[Thread(ID2, Fork(f))].log, ty) == []
  {
    forall x: nat
      ensures Thread(ID2, PlaceAt(x)) in mem
      ensures Select(mem[Thread(ID2, PlaceAt(x))].log, ty) == DivisionWrites(dv, t.l.k, x)
    {
      Wrote(d, eda, da, mem, ty, PlaceAt(x));
    }
    forall f: nat | f + 1 >= |dv.lanes|
      ensures Select(mem[Thread(ID2, Fork(f))].log, ty) == []
    {
      assert PlaceAt(f + 1) == Fork(f);
    }
    assert WritesAt(mem, ID2, ty, |dv.lanes|) == AllLanes(dv.lanes, MessagesOf(dv.sent), t.l.k);
    SentPlansFill(ks, t.l, t.s01, t.s20, 0, t.count, dv.lanes, dv.sent);
  }

  /**
    In every finished run of rounds that generate the types, whatever daBit
    rounds follow, P2's store of each type is the eager vector: the writes of its
    processes, in whatever order they reach the file, fill it with exactly that,
    and no other process writes there.
   */
  lemma EdaBitStoresEager(d: Items, ks: Keystream, types: seq<Spec>, divided: seq<Division>,
                          eda: seq<Round>, da: seq<Round>,
                          cap: Chan -> nat, sched: seq<Thread>, r: S, ty: nat)
    requires d.Faithful() && Generates(ks, types, divided, eda) && DaOnly(da) && ty < |types|
    requires Run(d, eda, da, cap, sched, r) && Processes.Finished(r)
    ensures Everyone(r.data.mem)
    ensures var t := types[ty];
            FillsWith(WritesAt(r.data.mem, ID2, ty, |divided[ty].lanes|),
                      Flatten(Alpha2Rows(ks, t.l, t.s01, t.s20, 0, t.count)))
    ensures forall f: nat :: f + 1 >= |divided[ty].lanes| ==> Select(r.data.mem[Thread(ID2, Fork(f))].log, ty) == []
  {
    DaWritesNoEda(da, ty, Base);
    RunLogs(d, eda, da, cap, sched, r);
    LogsFillEda(d, ks, types[ty], divided[ty], eda, da, r.data.mem, ty);
  }

  // -------------------------------------------------------------------------
  // The rounds the code makes
  // -------------------------------------------------------------------------

  /** `n` processes without work. */
  function Idle(n: nat): (r: seq<seq<Plan>>)
    ensures |r| == n && forall i :: 0 <= i < n ==> r[i] == []
  {
    seq(n, _ => [])
  }

  lemma {:induction false} IdleHasNothing(n: nat)
    ensures Flatten(Idle(n)) == []
  {
    if n > 0 {
      IdleHasNothing(n - 1);
      assert Idle(n)[1..] == Idle(n - 1);
    }
  }

  /** The work of a type starts at process `before`. */
  function From(before: nat, dealt: seq<seq<Plan>>, sent: map<Plan, seq<Row>>): Division {
    Division(Idle(before) + dealt, sent)
  }

  lemma FromFlattens(before: nat, dealt: seq<seq<Plan>>, sent: map<Plan, seq<Row>>)
    ensures Flatten(From(before, dealt, sent).lanes) == Flatten(dealt)
  {
    IdleHasNothing(before);
    FlattenAppend(Idle(before), dealt);
  }

  /** One round writes a type from process `before` on, lane by lane. */
  ghost predicate RoundPlaces(r: Round, ty: nat, before: nat, lanes: seq<seq<Write>>) {
    forall x: nat {:trigger PlaceAt(x)} ::
      RoundWrites(r, ty, PlaceAt(x)) == if before <= x < before + |lanes| then lanes[x - before] else []
  }

  /** A round that writes nothing of this type. */
  ghost predicate RoundSkips(r: Round, ty: nat) {
    forall x: nat {:trigger PlaceAt(x)} :: RoundWrites(r, ty, PlaceAt(x)) == []
  }

  ghost predicate Untouched(rs: seq<Round>, ty: nat) {
    forall x: nat {:trigger PlaceAt(x)} :: WritesOf(rs, ty, PlaceAt(x)) == []
  }

  lemma SkipsPlaced(rs: seq<Round>, r: Round, ty: nat, dv: Division, k: nat)
    requires PlacedBy(rs, ty, dv, k) && RoundSkips(r, ty)
    ensures PlacedBy(rs + [r], ty, dv, k)
  {
    forall x: nat
      ensures WritesOf(rs + [r], ty, PlaceAt(x)) == DivisionWrites(dv, k, x)
    {
      WritesOfSnoc(rs, r, ty, PlaceAt(x));
    }
  }

  lemma SkipsUntouched(rs: seq<Round>, r: Round, ty: nat)
    requires Untouched(rs, ty) && RoundSkips(r, ty)
    ensures Untouched(rs + [r], ty)
  {
    forall x: nat
      ensures WritesOf(rs + [r], ty, PlaceAt(x)) == []
    {
      WritesOfSnoc(rs, r, ty, PlaceAt(x));
    }
  }

  lemma FromWrites(before: nat, dealt: seq<seq<Plan>>, sent: map<Plan, seq<Row>>, k: nat, x: nat)
    ensures DivisionWrites(From(before, dealt, sent), k, x)
         == if before <= x < before + |dealt| then AllLanes(dealt, MessagesOf(sent), k)[x - before] else []
  {
    var lanes := Idle(before) + dealt;
    if x < before {
      assert lanes[x] == [];
    } else if x < before + |dealt| {
      assert lanes[x] == dealt[x - before];
    }
  }

  lemma RoundPlaced(rs: seq<Round>, r: Round, ty: nat, before: nat, dealt: seq<seq<Plan>>, sent: map<Plan, seq<Row>>,
                    lanes: seq<seq<Write>>, k: nat)
    requires Untouched(rs, ty) && RoundPlaces(r, ty, before, lanes) && lanes == AllLanes(dealt, MessagesOf(sent), k)
    ensures PlacedBy(rs + [r], ty, From(before, dealt, sent), k)
  {
    forall x: nat
      ensures WritesOf(rs + [r], ty, PlaceAt(x)) == DivisionWrites(From(before, dealt, sent), k, x)
    {
      WritesOfSnoc(rs, r, ty, PlaceAt(x));
      FromWrites(before, dealt, sent, k, x);
    }
  }

  /** Items of a segment of a type. */
  function SegmentItems(segmentElems: nat, limit: nat, k: nat): nat
    requires 0 < k
  {
    Max(segmentElems / k, ItemsPerMessage(limit, k))
  }

  /** P2 accepts these plans of a type. */
  ghost predicate Accepts(t: Spec, plans: seq<Plan>, limit: nat, storeBatch: nat)
    requires t.l.Valid() && 0 < limit
  {
    AllFramed(plans, t.l.k, limit, ItemsPerBatch(storeBatch, limit, t.l.k))
  }

  /** One type sent over given lanes, from process `before` on. */
  method SendType(ks: Keystream, t: Spec, dealt: seq<seq<Plan>>, ghost before: nat, limit: nat, storeBatch: nat)
    returns (ok: bool, lanes: seq<seq<Write>>, ghost sent: map<Plan, seq<Row>>)
    requires t.l.Valid() && 0 < limit && Tiles(Flatten(dealt), 0, t.count)
    ensures ok <==> Accepts(t, Flatten(dealt), limit, storeBatch)
    ensures DivisionSound(ks, t, From(before, dealt, sent))
    ensures ok ==> lanes == AllLanes(dealt, MessagesOf(sent), t.l.k)
  {
    ok, lanes, sent :=
      StreamLanes(ks, t.l, t.s01, t.s20, 0, t.count, dealt, limit, ItemsPerBatch(storeBatch, limit, t.l.k));
    FromFlattens(before, dealt, sent);
  }

  /** A type in one piece; one without items has none. */
  function WholePlans(t: Spec): seq<Plan> {
    if t.count == 0 then [] else [Plan(0, t.count)]
  }

  lemma WholeTiles(t: Spec)
    ensures Tiles(Flatten([WholePlans(t)]), 0, t.count) && Flatten([WholePlans(t)]) == WholePlans(t)
  {
    var one := WholePlans(t);
    var none: seq<seq<Plan>> := [one][1..];
    assert none == [] && Flatten([one]) == one + Flatten(none) == one;
    assert one != [] ==> one[1..] == [];
  }

  /** The plans of a type in a round of its own: segments if there is more than one and forks for them. */
  function TypePlans(t: Spec, forks: nat, segmentElems: nat, limit: nat): seq<Plan>
    requires t.l.Valid()
  {
    var segments := SegmentPlans(0, t.count, Max(SegmentItems(segmentElems, limit, t.l.k), 1));
    if forks > 1 && |segments| > 1 then segments else WholePlans(t)
  }

  function LaneJobs(ty: nat, lanes: seq<seq<Write>>): (jobs: seq<Job>)
    ensures |jobs| == |lanes| && forall f :: 0 <= f < |lanes| ==> jobs[f] == Eda(ty, lanes[f])
  {
    seq(|lanes|, f requires 0 <= f < |lanes| => Eda(ty, lanes[f]))
  }

  /** A round of one type: it writes that type lane by lane, and no other. */
  ghost predicate OnlyType(r: Round, ty: nat, before: nat, lanes: seq<seq<Write>>) {
    && ValidRound(r) && RoundPlaces(r, ty, before, lanes)
    && forall other: nat :: other != ty ==> RoundSkips(r, other)
  }

  lemma DirectRound(ty: nat, lanes: seq<seq<Write>>)
    requires |lanes| == 1
    ensures OnlyType(Direct(Eda(ty, lanes[0])), ty, 0, lanes)
  {
  }

  lemma ForkedRound(ty: nat, lanes: seq<seq<Write>>)
    ensures OnlyType(Forked(false, LaneJobs(ty, lanes)), ty, 1, lanes)
  {
  }

  /** A type in a round of its own: in segments over the lanes, or by the main processes. */
  method TypeRound(ks: Keystream, t: Spec, ty: nat, forks: nat, segmentElems: nat, limit: nat, storeBatch: nat)
    returns (ok: bool, r: Round, ghost before: nat, ghost dealt: seq<seq<Plan>>, ghost sent: map<Plan, seq<Row>>,
             ghost lanes: seq<seq<Write>>)
    requires t.l.Valid() && 0 < limit
    ensures ok <==> Accepts(t, TypePlans(t, forks, segmentElems, limit), limit, storeBatch)
    ensures DivisionSound(ks, t, From(before, dealt, sent))
    ensures ok ==> lanes == AllLanes(dealt, MessagesOf(sent), t.l.k) && OnlyType(r, ty, before, lanes)
  {
    var plans := BuildSegmentPlans(t.count, SegmentItems(segmentElems, limit, t.l.k));
    var ws;
    r := Forked(false, []);
    if forks > 1 && |plans| > 1 {
      var parts := ParSegmentPlans(forks, plans);
      dealt, before := parts, 1;
      ok, ws, sent := SendType(ks, t, parts, before, limit, storeBatch);
      if ok {
        ForkedRound(ty, ws);
        r := Forked(false, LaneJobs(ty, ws));
      }
    } else {
      WholeTiles(t);
      dealt, before := [WholePlans(t)], 0;
      ok, ws, sent := SendType(ks, t, [WholePlans(t)], before, limit, storeBatch);
      if ok {
        DirectRound(ty, ws);
        r := Direct(Eda(ty, ws[0]));
      }
    }
    lanes := ws;
  }

  /** The types below `n` are placed, the others untouched. */
  ghost predicate PlacedBelow(ks: Keystream, types: seq<Spec>, divided: seq<Division>, rs: seq<Round>, n: nat) {
    && |divided| == n <= |types| && ValidRounds(rs)
    && (forall ty :: 0 <= ty < n ==>
          DivisionSound(ks, types[ty], divided[ty]) && PlacedBy(rs, ty, divided[ty], types[ty].l.k))
    && (forall ty: nat :: n <= ty ==> Untouched(rs, ty))
  }

  lemma NothingIsSound(ks: Keystream, t: Spec, rs: seq<Round>, ty: nat)
    requires t.count == 0 && Untouched(rs, ty)
    ensures DivisionSound(ks, t, Division([], map[])) && PlacedBy(rs, ty, Division([], map[]), t.l.k)
  {
    forall x: nat
      ensures WritesOf(rs, ty, PlaceAt(x)) == DivisionWrites(Division([], map[]), t.l.k, x)
    {
    }
  }

  lemma NothingToSend(ks: Keystream, types: seq<Spec>, divided: seq<Division>, rs: seq<Round>, n: nat)
    requires n < |types| && PlacedBelow(ks, types, divided, rs, n) && types[n].count == 0
    ensures PlacedBelow(ks, types, divided + [Division([], map[])], rs, n + 1)
  {
    var more := divided + [Division([], map[])];
    NothingIsSound(ks, types[n], rs, n);
    forall ty | 0 <= ty < n + 1
      ensures DivisionSound(ks, types[ty], more[ty]) && PlacedBy(rs, ty, more[ty], types[ty].l.k)
    {
      assert ty < n ==> more[ty] == divided[ty];
    }
  }

  lemma TypePlaced(ks: Keystream, types: seq<Spec>, divided: seq<Division>, rs: seq<Round>, n: nat, r: Round,
                   before: nat, dealt: seq<seq<Plan>>, sent: map<Plan, seq<Row>>, lanes: seq<seq<Write>>)
    requires n < |types| && PlacedBelow(ks, types, divided, rs, n)
    requires DivisionSound(ks, types[n], From(before, dealt, sent))
    requires lanes == AllLanes(dealt, MessagesOf(sent), types[n].l.k) && OnlyType(r, n, before, lanes)
    ensures PlacedBelow(ks, types, divided + [From(before, dealt, sent)], rs + [r], n + 1)
  {
    var more := divided + [From(before, dealt, sent)];
    assert Untouched(rs, n);
    RoundPlaced(rs, r, n, before, dealt, sent, lanes, types[n].l.k);
    forall ty | 0 <= ty < n + 1
      ensures DivisionSound(ks, types[ty], more[ty]) && PlacedBy(rs + [r], ty, more[ty], types[ty].l.k)
    {
      if ty < n {
        SkipsPlaced(rs, r, ty, divided[ty], types[ty].l.k);
      }
    }
    forall ty: nat | n + 1 <= ty
      ensures Untouched(rs + [r], ty)
    {
      SkipsUntouched(rs, r, ty);
    }
  }

  ghost predicate ValidTypes(types: seq<Spec>) {
    |types| <= DABITS && forall i :: 0 <= i < |types| ==> types[i].l.Valid()
  }

  /** P2 accepts the first `n` types, each in a round of its own. */
  ghost predicate AcceptsRounds(types: seq<Spec>, n: nat, forks: nat, segmentElems: nat, limit: nat, storeBatch: nat)
    requires 0 < limit && ValidTypes(types) && n <= |types|
  {
    forall ty :: 0 <= ty < n ==> Accepts(types[ty], TypePlans(types[ty], forks, segmentElems, limit), limit, storeBatch)
  }

  /** The next type in a round of its own; a type without items needs none. */
  method NextRound(ks: Keystream, types: seq<Spec>, n: nat, rs: seq<Round>, ghost divided: seq<Division>,
                   forks: nat, segmentElems: nat, limit: nat, storeBatch: nat)
    returns (ok: bool, rs': seq<Round>, ghost divided': seq<Division>)
    requires 0 < limit && ValidTypes(types) && n < |types| && PlacedBelow(ks, types, divided, rs, n)
    ensures ok <==> Accepts(types[n], TypePlans(types[n], forks, segmentElems, limit), limit, storeBatch)
    ensures ok ==> PlacedBelow(ks, types, divided', rs', n + 1)
  {
    rs', divided' := rs, divided;
    if types[n].count == 0 {
      NothingToSend(ks, types, divided, rs, n);
      divided' := divided + [Division([], map[])];
      return true, rs, divided';
    }
    var r;
    ghost var before, dealt, sent, lanes;
    ok, r, before, dealt, sent, lanes := TypeRound(ks, types[n], n, forks, segmentElems, limit, storeBatch);
    if ok {
      TypePlaced(ks, types, divided, rs, n, r, before, dealt, sent, lanes);
      rs', divided' := rs + [r], divided + [From(before, dealt, sent)];
    }
  }

  /** One round per type, in order. */
  method RoundPerType(ks: Keystream, types: seq<Spec>, forks: nat, segmentElems: nat, limit: nat, storeBatch: nat)
    returns (ok: bool, rs: seq<Round>, ghost divided: seq<Division>)
    requires 0 < limit && ValidTypes(types)
    ensures ok <==> AcceptsRounds(types, |types|, forks, segmentElems, limit, storeBatch)
    ensures ok ==> Generates(ks, types, divided, rs)
  {
    ok, rs, divided := true, [], [];
    for n := 0 to |types|
      invariant ok && PlacedBelow(ks, types, divided, rs, n)
      invariant AcceptsRounds(types, n, forks, segmentElems, limit, storeBatch)
    {
      ok, rs, divided := NextRound(ks, types, n, rs, divided, forks, segmentElems, limit, storeBatch);
      if !ok {
        return;
      }
    }
  }

  // -------------------------------------------------------------------------
  // Every type on a fork of its own
  // -------------------------------------------------------------------------

  lemma OneRoundWrites(r: Round, ty: nat, place: Place)
    ensures WritesOf([r], ty, place) == RoundWrites(r, ty, place)
  {
    assert [r][1..] == [];
  }

  /** One more fork changes what that fork writes and nothing else. */
  lemma OneMoreJob(jobs: seq<Job>, job: Job, ty: nat, x: nat)
    ensures WritesOf([Forked(false, jobs + [job])], ty, PlaceAt(x))
         == if x == |jobs| + 1 then JobWrites(job, ty) else WritesOf([Forked(false, jobs)], ty, PlaceAt(x))
    ensures x >= |jobs| + 1 ==> WritesOf([Forked(false, jobs)], ty, PlaceAt(x)) == []
  {
    OneRoundWrites(Forked(false, jobs + [job]), ty, PlaceAt(x));
    OneRoundWrites(Forked(false, jobs), ty, PlaceAt(x));
  }

  /** The new fork leaves other types as they are. */
  lemma JobSkips(jobs: seq<Job>, job: Job, ty: nat, x: nat)
    requires JobWrites(job, ty) == []
    ensures WritesOf([Forked(false, jobs + [job])], ty, PlaceAt(x)) == WritesOf([Forked(false, jobs)], ty, PlaceAt(x))
  {
    OneMoreJob(jobs, job, ty, x);
  }

  lemma JobKeeps(jobs: seq<Job>, job: Job, ty: nat, dv: Division, k: nat)
    requires JobWrites(job, ty) == [] && PlacedBy([Forked(false, jobs)], ty, dv, k)
    ensures PlacedBy([Forked(false, jobs + [job])], ty, dv, k)
  {
    forall x: nat
      ensures WritesOf([Forked(false, jobs + [job])], ty, PlaceAt(x)) == DivisionWrites(dv, k, x)
    {
      JobSkips(jobs, job, ty, x);
    }
  }

  lemma JobUntouched(jobs: seq<Job>, job: Job, ty: nat)
    requires JobWrites(job, ty) == [] && Untouched([Forked(false, jobs)], ty)
    ensures Untouched([Forked(false, jobs + [job])], ty)
  {
    forall x: nat
      ensures WritesOf([Forked(false, jobs + [job])], ty, PlaceAt(x)) == []
    {
      JobSkips(jobs, job, ty, x);
    }
  }

  lemma JobPlacesOwn(jobs: seq<Job>, ty: nat, dealt: seq<seq<Plan>>, sent: map<Plan, seq<Row>>,
                     lanes: seq<seq<Write>>, k: nat)
    requires Untouched([Forked(false, jobs)], ty)
    requires |lanes| == |dealt| == 1 && lanes == AllLanes(dealt, MessagesOf(sent), k)
    ensures PlacedBy([Forked(false, jobs + [Eda(ty, lanes[0])])], ty, From(|jobs| + 1, dealt, sent), k)
  {
    var job := Eda(ty, lanes[0]);
    forall x: nat
      ensures WritesOf([Forked(false, jobs + [job])], ty, PlaceAt(x))
           == DivisionWrites(From(|jobs| + 1, dealt, sent), k, x)
    {
      OneMoreJob(jobs, job, ty, x);
      FromWrites(|jobs| + 1, dealt, sent, k, x);
    }
  }

  lemma MoreJobsValid(jobs: seq<Job>, job: Job)
    requires ValidRounds([Forked(false, jobs)]) && job.Eda?
    ensures ValidRounds([Forked(false, jobs + [job])])
  {
    assert ValidRound([Forked(false, jobs)][0]);
  }

  lemma JobPlaced(ks: Keystream, types: seq<Spec>, divided: seq<Division>, jobs: seq<Job>, n: nat,
                  dealt: seq<seq<Plan>>, sent: map<Plan, seq<Row>>, lanes: seq<seq<Write>>)
    requires n < |types| && PlacedBelow(ks, types, divided, [Forked(false, jobs)], n)
    requires DivisionSound(ks, types[n], From(|jobs| + 1, dealt, sent))
    requires |lanes| == |dealt| == 1 && lanes == AllLanes(dealt, MessagesOf(sent), types[n].l.k)
    ensures PlacedBelow(ks, types, divided + [From(|jobs| + 1, dealt, sent)],
                        [Forked(false, jobs + [Eda(n, lanes[0])])], n + 1)
  {
    var job, rs, dv := Eda(n, lanes[0]), [Forked(false, jobs)], From(|jobs| + 1, dealt, sent);
    var now, more := [Forked(false, jobs + [job])], divided + [dv];
    MoreJobsValid(jobs, job);
    assert Untouched(rs, n);
    JobPlacesOwn(jobs, n, dealt, sent, lanes, types[n].l.k);
    forall ty | 0 <= ty < n + 1
      ensures DivisionSound(ks, types[ty], more[ty]) && PlacedBy(now, ty, more[ty], types[ty].l.k)
    {
      if ty < n {
        JobKeeps(jobs, job, ty, divided[ty], types[ty].l.k);
      }
    }
    forall ty: nat | n + 1 <= ty
      ensures Untouched(now, ty)
    {
      assert Untouched(rs, ty);
      JobUntouched(jobs, job, ty);
    }
  }

  lemma NoJobs(ks: Keystream, types: seq<Spec>)
    ensures PlacedBelow(ks, types, [], [Forked(false, [])], 0)
  {
    forall ty: nat
      ensures Untouched([Forked(false, [])], ty)
    {
      forall x: nat
        ensures WritesOf([Forked(false, [])], ty, PlaceAt(x)) == []
      {
        OneRoundWrites(Forked(false, []), ty, PlaceAt(x));
      }
    }
  }

  /** The single round of these forks places the types below `n`. */
  ghost predicate Forks(ks: Keystream, types: seq<Spec>, divided: seq<Division>, jobs: seq<Job>, n: nat) {
    PlacedBelow(ks, types, divided, [Forked(false, jobs)], n)
  }

  /** The next type on the next fork; a type without items needs none. */
  method NextJob(ks: Keystream, types: seq<Spec>, n: nat, jobs: seq<Job>, ghost divided: seq<Division>,
                 limit: nat, storeBatch: nat)
    returns (ok: bool, jobs': seq<Job>, ghost divided': seq<Division>)
    requires 0 < limit && ValidTypes(types) && n < |types| && Forks(ks, types, divided, jobs, n)
    ensures ok <==> Accepts(types[n], WholePlans(types[n]), limit, storeBatch)
    ensures ok ==> Forks(ks, types, divided', jobs', n + 1)
    ensures ok ==> |jobs'| == |jobs| + if types[n].count > 0 then 1 else 0
  {
    jobs', divided' := jobs, divided;
    if types[n].count == 0 {
      NothingToSend(ks, types, divided, [Forked(false, jobs)], n);
      divided' := divided + [Division([], map[])];
      return true, jobs, divided';
    }
    WholeTiles(types[n]);
    var lanes;
    ghost var sent;
    ok, lanes, sent := SendType(ks, types[n], [WholePlans(types[n])], |jobs| + 1, limit, storeBatch);
    if ok {
      JobPlaced(ks, types, divided, jobs, n, [WholePlans(types[n])], sent, lanes);
      divided' := divided + [From(|jobs| + 1, [WholePlans(types[n])], sent)];
      jobs' := jobs + [Eda(n, lanes[0])];
    }
  }

  /** P2 accepts the first `n` types, each in one piece. */
  ghost predicate AcceptsWhole(types: seq<Spec>, n: nat, limit: nat, storeBatch: nat)
    requires 0 < limit && ValidTypes(types) && n <= |types|
  {
    forall ty :: 0 <= ty < n ==> Accepts(types[ty], WholePlans(types[ty]), limit, storeBatch)
  }

  /** The first `n` types are accepted and have their forks. */
  ghost predicate ForksDone(ks: Keystream, types: seq<Spec>, divided: seq<Division>, jobs: seq<Job>, n: nat,
                            limit: nat, storeBatch: nat)
    requires 0 < limit && ValidTypes(types)
  {
    && n <= |types| && Forks(ks, types, divided, jobs, n)
    && AcceptsWhole(types, n, limit, storeBatch) && |jobs| == Active(types, n)
  }

  lemma NoForks(ks: Keystream, types: seq<Spec>, limit: nat, storeBatch: nat)
    requires 0 < limit && ValidTypes(types)
    ensures ForksDone(ks, types, [], [], 0, limit, storeBatch)
  {
    NoJobs(ks, types);
  }

  lemma ForksGenerate(ks: Keystream, types: seq<Spec>, divided: seq<Division>, jobs: seq<Job>)
    requires ValidTypes(types) && Forks(ks, types, divided, jobs, |types|)
    ensures Generates(ks, types, divided, [Forked(false, jobs)])
  {
  }

  method NextFork(ks: Keystream, types: seq<Spec>, n: nat, jobs: seq<Job>, ghost divided: seq<Division>,
                  limit: nat, storeBatch: nat)
    returns (ok: bool, jobs': seq<Job>, ghost divided': seq<Division>)
    requires 0 < limit && ValidTypes(types) && n < |types|
    requires ForksDone(ks, types, divided, jobs, n, limit, storeBatch)
    ensures ok ==> ForksDone(ks, types, divided', jobs', n + 1, limit, storeBatch)
    ensures !ok ==> !AcceptsWhole(types, |types|, limit, storeBatch)
  {
    ok, jobs', divided' := NextJob(ks, types, n, jobs, divided, limit, storeBatch);
  }

  /** One round in which every type that has items is sent whole, on a fork of its own. */
  method ForkPerType(ks: Keystream, types: seq<Spec>, limit: nat, storeBatch: nat)
    returns (ok: bool, jobs: seq<Job>, ghost divided: seq<Division>)
    requires 0 < limit && ValidTypes(types)
    ensures ok <==> AcceptsWhole(types, |types|, limit, storeBatch)
    ensures ok ==> |jobs| == ActiveTypes(types) && Generates(ks, types, divided, [Forked(false, jobs)])
  {
    ok, jobs, divided := true, [], [];
    NoForks(ks, types, limit, storeBatch);
    for n := 0 to |types|
      invariant ok && ForksDone(ks, types, divided, jobs, n, limit, storeBatch)
    {
      ok, jobs, divided := NextFork(ks, types, n, jobs, divided, limit, storeBatch);
      if !ok {
        return;
      }
    }
    ForksGenerate(ks, types, divided, jobs);
  }

  // -------------------------------------------------------------------------
  // The edaBit phase
  // -------------------------------------------------------------------------

  /** How many of the first `n` types have items. */
  function Active(types: seq<Spec>, n: nat): nat
    requires n <= |types|
  {
    if n == 0 then 0 else Active(types, n - 1) + if types[n - 1].count > 0 then 1 else 0
  }

  /** How many types have items. */
  function ActiveTypes(types: seq<Spec>): nat {
    Active(types, |types|)
  }

  /** More than one type to send, and a fork for each. */
  predicate Pipelined(types: seq<Spec>, forks: nat) {
    1 < ActiveTypes(types) <= forks
  }

  /**
    The edaBit rounds of a generation: with enough forks, and more than one type
    to send, each type has a fork; otherwise the types follow one another.  P2
    accepts exactly if every plan of every type is framed alike at both ends, and
    then the rounds generate all the types.
   */
  method EdaBitRounds(ks: Keystream, types: seq<Spec>, forks: nat, segmentElems: nat, limit: nat, storeBatch: nat)
    returns (ok: bool, rs: seq<Round>, ghost divided: seq<Division>)
    requires 0 < limit && ValidTypes(types)
    ensures ok <==> if Pipelined(types, forks) then AcceptsWhole(types, |types|, limit, storeBatch)
                    else AcceptsRounds(types, |types|, forks, segmentElems, limit, storeBatch)
    ensures ok ==> Generates(ks, types, divided, rs)
    ensures ok && Pipelined(types, forks) ==>
      |rs| == 1 && rs[0].Forked? && |rs[0].jobs| == ActiveTypes(types)
  {
    var active := ActiveTypes(types);
    if active > 1 && forks >= active {
      var jobs;
      ok, jobs, divided := ForkPerType(ks, types, limit, storeBatch);
      rs := [Forked(false, jobs)];
    } else {
      ok, rs, divided := RoundPerType(ks, types, forks, segmentElems, limit, storeBatch);
    }
  }

  /** With the default sizes P2 accepts every plan of every supported width. */
  lemma DefaultsAccepted(t: Spec, plans: seq<Plan>)
    requires t.l.Valid() && t.l.k in {8, 16, 32, 64, 128}
    ensures Accepts(t, plans, 65536, 524288)
  {
    forall i | 0 <= i < |plans|
      ensures SizesAgree(plans[i].items, ItemsPerMessage(65536, t.l.k), ItemsPerBatch(524288, 65536, t.l.k), t.l.k,
                         65536)
    {
      DefaultSizesAgree(plans[i].items, t.l.k);
    }
    InitialAllFramedIff(plans, t.l, 65536, 524288);
  }
}
