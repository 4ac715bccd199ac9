/**
  What every run of the generation protocol does: it never gets stuck, it ends,
  the daBit phase starts only when the edaBits have been drained, and the parties
  end up having stored exactly the eager values.
 */
module GenerationRuns {
  import opened EdaBitsSpec
  import opened DaBitsSpec
  import opened Streaming
  import opened DaBits
  import opened Processes
  import opened Generation

  // -------------------------------------------------------------------------
  // What each process writes
  // -------------------------------------------------------------------------

  function EdaLog(ty: nat, ws: seq<Write>): seq<Logged> {
    if ws == [] then [] else [Logged(ty, ws[0])] + EdaLog(ty, ws[1..])
  }

  /** P0 stores P2's summands, P2 stores pairs of its own and P1's summands. */
  function ChunkLog(d: Items, party: PartyId, c: Chunk): seq<Logged> {
    match party
    case ID0 => [Logged(DABITS, Write(c.start, S20s(d, c.start, c.n)))]
    case ID1 => []
    case ID2 => [Logged(DABITS, Write(2 * c.start, Pairs(S20s(d, c.start, c.n), S12s(d, c.start, c.n))))]
  }

  function DaLog(d: Items, party: PartyId, cs: seq<Chunk>): seq<Logged> {
    if cs == [] then [] else ChunkLog(d, party, cs[0]) + DaLog(d, party, cs[1..])
  }

  function JobLog(d: Items, party: PartyId, job: Job): seq<Logged> {
    match job
    case Eda(ty, ws) => if party == ID2 then EdaLog(ty, ws) else []
    case Da(cs) => DaLog(d, party, cs)
  }

  function RoundLog(d: Items, r: Round, t: Thread): seq<Logged> {
    match r
    case Direct(job) => if t.place.Base? then JobLog(d, t.party, job) else []
    case Forked(three, jobs) =>
      if t.place.Fork? && t.place.f < |jobs| then JobLog(d, t.party, jobs[t.place.f]) else []
  }

  function Log(d: Items, rs: seq<Round>, t: Thread): seq<Logged> {
    if rs == [] then [] else RoundLog(d, rs[0], t) + Log(d, rs[1..], t)
  }

  // -------------------------------------------------------------------------
  // The memories after the exchanges
  // -------------------------------------------------------------------------

  type Mems = imap<Thread, Mem>

  ghost predicate Everyone(mem: Mems) {
    forall t: Thread :: t in mem
  }

  /** Between the two memories a process has written exactly `l`. */
  ghost predicate Wrote(before: Mems, after: Mems, t: Thread, l: seq<Logged>) {
    t in before && t in after && after[t].log == before[t].log + l
  }

  lemma WroteBoth(a: Mems, b: Mems, c: Mems, t: Thread, k: seq<Logged>, l: seq<Logged>)
    requires Wrote(a, b, t, k) && Wrote(b, c, t, l)
    ensures Wrote(a, c, t, k + l)
    ensures k == [] ==> Wrote(a, c, t, l)
    ensures l == [] ==> Wrote(a, c, t, k)
  {
    assert a[t].log + k + l == a[t].log + (k + l);
  }

  lemma {:induction false} EdaDelivers(d: Items, mem: Mems, place: Place, ty: nat, ws: seq<Write>, t: Thread)
    requires Everyone(mem)
    ensures Wrote(mem, DeliverAll(NetOf(d), mem, EdaExchanges(place, ty, ws)), t,
                  if t == Thread(ID2, place) then EdaLog(ty, ws) else [])
    decreases |ws|
  {
    if ws != [] {
      var xs := EdaExchanges(place, ty, ws);
      var mem' := Deliver(NetOf(d), mem, xs[0]);
      assert xs[1..] == EdaExchanges(place, ty, ws[1..]);
      EdaDelivers(d, mem', place, ty, ws[1..], t);
      WroteBoth(mem, mem', DeliverAll(NetOf(d), mem', xs[1..]), t,
                if t == Thread(ID2, place) then [Logged(ty, ws[0])] else [],
                if t == Thread(ID2, place) then EdaLog(ty, ws[1..]) else []);
    }
  }

  lemma ChunkDelivers(d: Items, mem: Mems, place: Place, c: Chunk, t: Thread)
    requires Everyone(mem) && d.Faithful()
    ensures Wrote(mem, DeliverAll(NetOf(d), mem, ChunkExchanges(d, place, c)), t,
                  if t.place == place then ChunkLog(d, t.party, c) else [])
  {
    var xs := ChunkExchanges(d, place, c);
    var m1 := Deliver(NetOf(d), mem, xs[0]);
    var m2 := Deliver(NetOf(d), m1, xs[1]);
    var m3 := Deliver(NetOf(d), m2, xs[2]);
    assert xs[1..][1..][1..] == [];
    assert DeliverAll(NetOf(d), mem, xs) == DeliverAll(NetOf(d), m1, xs[1..])
        == DeliverAll(NetOf(d), m2, xs[1..][1..]) == m3;
    ReplyIsS20(d, c.start, c.n);
  }

  lemma {:induction false} DaDelivers(d: Items, mem: Mems, place: Place, cs: seq<Chunk>, t: Thread)
    requires Everyone(mem) && d.Faithful()
    ensures Wrote(mem, DeliverAll(NetOf(d), mem, DaExchanges(d, place, cs)), t,
                  if t.place == place then DaLog(d, t.party, cs) else [])
    decreases |cs|
  {
    if cs != [] {
      var xs, ys := ChunkExchanges(d, place, cs[0]), DaExchanges(d, place, cs[1..]);
      var mem' := DeliverAll(NetOf(d), mem, xs);
      ChunkDelivers(d, mem, place, cs[0], t);
      DaDelivers(d, mem', place, cs[1..], t);
      DeliverJoin(NetOf(d), mem, xs, ys);
      WroteBoth(mem, mem', DeliverAll(NetOf(d), mem', ys), t,
                if t.place == place then ChunkLog(d, t.party, cs[0]) else [],
                if t.place == place then DaLog(d, t.party, cs[1..]) else []);
    }
  }

  lemma JobDelivers(d: Items, mem: Mems, place: Place, job: Job, t: Thread)
    requires Everyone(mem) && d.Faithful()
    ensures Wrote(mem, DeliverAll(NetOf(d), mem, JobExchanges(d, place, job)), t,
                  if t.place == place then JobLog(d, t.party, job) else [])
  {
    match job
    case Eda(ty, ws) => EdaDelivers(d, mem, place, ty, ws, t);
    case Da(cs) => DaDelivers(d, mem, place, cs, t);
  }

  /** Hand-overs between a party's own processes write nothing. */
  lemma {:induction false} IgnoredDelivers(d: Items, mem: Mems, xs: seq<X>)
    requires Everyone(mem) && forall i :: 0 <= i < |xs| ==> xs[i].take == Ignore
    ensures DeliverAll(NetOf(d), mem, xs) == mem
    decreases |xs|
  {
    if xs != [] {
      assert Deliver(NetOf(d), mem, xs[0]) == mem;
      IgnoredDelivers(d, mem, xs[1..]);
    }
  }

  lemma {:induction false} ConcatIgnored(g: nat -> seq<X>, n: nat)
    requires forall f: nat, i :: f < n && 0 <= i < |g(f)| ==> g(f)[i].take == Ignore
    ensures forall i :: 0 <= i < |Concat(g, n)| ==> Concat(g, n)[i].take == Ignore
  {
    if n > 0 {
      ConcatIgnored(g, n - 1);
    }
  }

  /** Lane `f` writes `logs(f)` whatever the memories before it. */
  ghost predicate LaneLogs(d: Items, g: nat -> seq<X>, logs: nat -> seq<Logged>, n: nat, t: Thread) {
    forall f: nat, mem: Mems {:trigger DeliverAll(NetOf(d), mem, g(f))} :: f < n && Everyone(mem) ==>
      Wrote(mem, DeliverAll(NetOf(d), mem, g(f)), t, if t.place == Fork(f) then logs(f) else [])
  }

  lemma {:induction false} LanesDeliver(
      d: Items, mem: Mems, g: nat -> seq<X>, logs: nat -> seq<Logged>, n: nat, t: Thread)
    requires Everyone(mem) && LaneLogs(d, g, logs, n, t)
    ensures Wrote(mem, DeliverAll(NetOf(d), mem, Concat(g, n)), t,
                  if t.place.Fork? && t.place.f < n then logs(t.place.f) else [])
  {
    if n > 0 {
      var mem' := DeliverAll(NetOf(d), mem, Concat(g, n - 1));
      LanesDeliver(d, mem, g, logs, n - 1, t);
      DeliverJoin(NetOf(d), mem, Concat(g, n - 1), g(n - 1));
      WroteBoth(mem, mem', DeliverAll(NetOf(d), mem', g(n - 1)), t,
                if t.place.Fork? && t.place.f < n - 1 then logs(t.place.f) else [],
                if t.place == Fork(n - 1) then logs(n - 1) else []);
    }
  }

  lemma JobsDeliver(d: Items, mem: Mems, jobs: seq<Job>, t: Thread)
    requires Everyone(mem) && d.Faithful()
    ensures Wrote(mem, DeliverAll(NetOf(d), mem, Concat((f: nat) => LaneExchanges(d, jobs, f), |jobs|)), t,
                  if t.place.Fork? && t.place.f < |jobs| then JobLog(d, t.party, jobs[t.place.f]) else [])
  {
    var g := (f: nat) => LaneExchanges(d, jobs, f);
    var logs := (f: nat) => if f < |jobs| then JobLog(d, t.party, jobs[f]) else [];
    forall f: nat, m: Mems | f < |jobs| && Everyone(m)
      ensures Wrote(m, DeliverAll(NetOf(d), m, g(f)), t, if t.place == Fork(f) then logs(f) else [])
    {
      JobDelivers(d, m, Fork(f), jobs[f], t);
    }
    LanesDeliver(d, mem, g, logs, |jobs|, t);
  }

  lemma ForkedDelivers(d: Items, mem: Mems, three: bool, jobs: seq<Job>, t: Thread)
    requires Everyone(mem) && d.Faithful()
    ensures Wrote(mem, DeliverAll(NetOf(d), mem, RoundExchanges(d, Forked(three, jobs))), t,
                  RoundLog(d, Forked(three, jobs), t))
  {
    var net, n := NetOf(d), |jobs|;
    var starts, joins := Concat((f: nat) => StartRow(three, f), n), Concat((f: nat) => JoinRow(three, f), n);
    var lanes := Concat((f: nat) => LaneExchanges(d, jobs, f), n);
    ConcatIgnored((f: nat) => StartRow(three, f), n);
    ConcatIgnored((f: nat) => JoinRow(three, f), n);
    IgnoredDelivers(d, mem, starts);
    JobsDeliver(d, mem, jobs, t);
    DeliverJoin(net, mem, starts, lanes);
    DeliverJoin(net, mem, starts + lanes, joins);
    IgnoredDelivers(d, DeliverAll(net, mem, lanes), joins);
  }

  lemma RoundDelivers(d: Items, mem: Mems, r: Round, t: Thread)
    requires Everyone(mem) && d.Faithful()
    ensures Wrote(mem, DeliverAll(NetOf(d), mem, RoundExchanges(d, r)), t, RoundLog(d, r, t))
  {
    match r
    case Direct(job) => JobDelivers(d, mem, Base, job, t);
    case Forked(three, jobs) => ForkedDelivers(d, mem, three, jobs, t);
  }

  lemma {:induction false} RoundsDeliver(d: Items, mem: Mems, rs: seq<Round>, t: Thread)
    requires Everyone(mem) && d.Faithful()
    ensures Wrote(mem, DeliverAll(NetOf(d), mem, Exchanges(d, rs)), t, Log(d, rs, t))
    decreases |rs|
  {
    if rs != [] {
      var xs, ys := RoundExchanges(d, rs[0]), Exchanges(d, rs[1..]);
      var mem' := DeliverAll(NetOf(d), mem, xs);
      RoundDelivers(d, mem, rs[0], t);
      RoundsDeliver(d, mem', rs[1..], t);
      DeliverJoin(NetOf(d), mem, xs, ys);
      WroteBoth(mem, mem', DeliverAll(NetOf(d), mem', ys), t, RoundLog(d, rs[0], t), Log(d, rs[1..], t));
    }
  }

  // -------------------------------------------------------------------------
  // Every run
  // -------------------------------------------------------------------------

  /** `r` is reachable from the start of the protocol under these capacities. */
  ghost predicate Run(d: Items, eda: seq<Round>, da: seq<Round>, cap: Chan -> nat, sched: seq<Thread>, r: S) {
    Reaches(NetOf(d), cap, Init(d, eda, da), sched, r)
  }

  /** Deadlock freedom: as long as some process has something left to do, some process can act. */
  lemma NeverStuck(d: Items, eda: seq<Round>, da: seq<Round>, cap: Chan -> nat, sched: seq<Thread>, r: S)
    requires ValidRounds(eda) && ValidRounds(da) && Run(d, eda, da, cap, sched, r) && forall c :: 1 <= cap(c)
    ensures Finished(r) || exists t :: Enabled(r, cap, t)
  {
    ProtocolSerial(d, eda, da);
    NoDeadlock(NetOf(d), cap, Init(d, eda, da), Schedule(d, eda, da), sched, r);
  }

  /** Every run is finished after a number of steps that does not depend on the run. */
  lemma AlwaysEnds(d: Items, eda: seq<Round>, da: seq<Round>, cap: Chan -> nat, sched: seq<Thread>, r: S)
    requires ValidRounds(eda) && ValidRounds(da) && Run(d, eda, da, cap, sched, r)
    ensures |sched| <= |Schedule(d, eda, da)|
    ensures Finished(r) <==> |sched| == |Schedule(d, eda, da)|
  {
    ProtocolSerial(d, eda, da);
    RunsEnd(NetOf(d), cap, Init(d, eda, da), Schedule(d, eda, da), sched, r);
  }

  /** Every finished run has written the same: the eager values, in each lane in order. */
  lemma WritesEager(d: Items, eda: seq<Round>, da: seq<Round>, cap: Chan -> nat, sched: seq<Thread>, r: S, t: Thread)
    requires ValidRounds(eda) && ValidRounds(da) && d.Faithful()
    requires Run(d, eda, da, cap, sched, r) && Finished(r)
    ensures t in r.data.mem && r.data.mem[t].log == Log(d, eda, t) + Log(d, da, t)
  {
    var net, s := NetOf(d), Init(d, eda, da);
    ProtocolSerial(d, eda, da);
    SameEnd(net, cap, s, Schedule(d, eda, da), sched, r);
    ScheduleOrderly(d, s.data, eda, da);
    var mid := DeliverAll(net, s.data.mem, Exchanges(d, eda));
    RoundsDeliver(d, s.data.mem, eda, t);
    RoundsDeliver(d, mid, da, t);
    assert s.data.mem[t] == NoMem(t);
    assert mid[t].log == Log(d, eda, t);
  }

  // -------------------------------------------------------------------------
  // The synchronisation
  // -------------------------------------------------------------------------

  lemma {:induction false} OpsBalance(xs: seq<X>, ch: Chan)
    ensures Sends(Ops(xs, FromOf(ch)), ch) == Recvs(Ops(xs, ToOf(ch)), ch)
  {
    if xs != [] {
      OpsBalance(xs[1..], ch);
      SendsJoin(OwnOps(xs[0], FromOf(ch)), Ops(xs[1..], FromOf(ch)), ch);
      SendsJoin(OwnOps(xs[0], ToOf(ch)), Ops(xs[1..], ToOf(ch)), ch);
      OwnBalance(xs[0], ch);
    }
  }

  lemma OwnBalance(x: X, ch: Chan)
    ensures Sends(OwnOps(x, FromOf(ch)), ch) == Recvs(OwnOps(x, ToOf(ch)), ch)
  {
    var send, recv: seq<O> := [Send(x.ch, x.say)], [Recv(x.ch, x.take)];
    assert send[1..] == [] && recv[1..] == [];
    SendsJoin(send, recv, ch);
    Nothing(send);
    Nothing(recv);
  }

  /** What one end still sends, the other end still receives. */
  lemma ProgramsBalance(d: Items, rs: seq<Round>, ch: Chan)
    requires ValidRounds(rs)
    ensures Sends(Programs(d, rs, FromOf(ch)), ch) == Recvs(Programs(d, rs, ToOf(ch)), ch)
  {
    OpsBalance(Exchanges(d, rs), ch);
    RoundsOps(d, rs, FromOf(ch));
    RoundsOps(d, rs, ToOf(ch));
  }

  lemma {:induction false} LaneEndsInDone(d: Items, rs: seq<Round>, t: Thread)
    requires t.place.Fork?
    ensures var p := Programs(d, rs, t);
            p != [] ==> p[|p| - 1] == Send(Done(t.party, t.place.f), Say([]))
  {
    if rs != [] {
      LaneEndsInDone(d, rs[1..], t);
    }
  }

  /** In a reachable state, what one end has yet to receive is on its way or yet to be sent. */
  lemma OnItsWay(d: Items, eda: seq<Round>, da: seq<Round>, cap: Chan -> nat, sched: seq<Thread>, r: S, ch: Chan)
    requires ValidRounds(eda) && ValidRounds(da) && Run(d, eda, da, cap, sched, r)
    ensures Total(r.data) && FromOf(ch) in r.todo && ToOf(ch) in r.todo
    ensures Suffix(r.todo[FromOf(ch)], Program(d, eda, da, FromOf(ch)))
    ensures Suffix(r.todo[ToOf(ch)], Program(d, eda, da, ToOf(ch)))
    ensures Recvs(r.todo[ToOf(ch)], ch) == |r.data.queue[ch]| + Sends(r.todo[FromOf(ch)], ch)
  {
    var net, s := NetOf(d), Init(d, eda, da);
    ProtocolSerial(d, eda, da);
    ScheduleOrderly(d, s.data, eda, da);
    NothingEarly(net, cap, s, Schedule(d, eda, da), sched, r, ch);
    LeftIsSuffix(net, cap, s, sched, r, FromOf(ch));
    LeftIsSuffix(net, cap, s, sched, r, ToOf(ch));
    assert s.todo[FromOf(ch)] == Program(d, eda, da, FromOf(ch));
    assert s.todo[ToOf(ch)] == Program(d, eda, da, ToOf(ch));
  }

  /** The main process still to do at most its daBit rounds, or those and the ring message it waits for. */
  ghost predicate PastRing(d: Items, da: seq<Round>, r: S, p: PartyId) {
    Thread(p, Base) in r.todo && |r.todo[Thread(p, Base)]| <= |Programs(d, da, Thread(p, Base))|
  }

  ghost predicate RingSent(d: Items, da: seq<Round>, r: S, p: PartyId) {
    Thread(p, Base) in r.todo && |r.todo[Thread(p, Base)]| <= 1 + |Programs(d, da, Thread(p, Base))|
  }

  ghost predicate LaneDrained(d: Items, da: seq<Round>, r: S, p: PartyId, f: nat) {
    Thread(p, Fork(f)) in r.todo && |r.todo[Thread(p, Fork(f))]| <= |Programs(d, da, Thread(p, Fork(f)))|
  }

  /** Around the ring messages of a main process. */
  lemma RingParts(e: seq<O>, send: O, recv: O, a: seq<O>, left: seq<O>, ch: Chan)
    requires send.Send? && recv.Recv? && Suffix(left, e + [send, recv] + a)
    ensures Suffix(left, (e + [send]) + ([recv] + a))
    ensures Sends([recv] + a, ch) == Sends(a, ch)
    ensures recv.ch != ch ==> Recvs([recv] + a, ch) == Recvs(a, ch)
  {
    assert ([recv] + a)[1..] == a;
    assert e + [send, recv] + a == (e + [send]) + ([recv] + a);
  }

  /** The counting behind `MainDrained`: who has received too much would have received something not yet sent. */
  lemma MainCount(
      e: seq<O>, send: O, recv: O, a: seq<O>, left: seq<O>, e': seq<O>, a': seq<O>, left': seq<O>, queued: nat,
      ch: Chan)
    requires send.Send? && recv.Recv? && send.ch == ch
    requires Suffix(left, e + [send, recv] + a) && Suffix(left', e' + a') && |left'| <= |a'|
    requires Recvs(left', ch) == queued + Sends(left, ch) && Sends(a, ch) == Recvs(a', ch)
    ensures |left| <= 1 + |a|
  {
    InSecondPart(e', a', left', ch);
    RingParts(e, send, recv, a, left, ch);
    AfterSend(e + [send], [recv] + a, left, ch);
  }

  lemma AfterRing(e: seq<O>, send: O, recv: O, a: seq<O>, left: seq<O>, ch: Chan)
    requires send.Send? && recv.Recv? && recv.ch != ch
    requires Suffix(left, e + [send, recv] + a) && |left| <= 1 + |a|
    ensures Recvs(left, ch) <= Recvs(a, ch)
  {
    RingParts(e, send, recv, a, left, ch);
    assert |[recv] + a| == 1 + |a|;
    InSecondPart(e + [send], [recv] + a, left, ch);
  }

  lemma LaneCount(
      e: seq<O>, send: O, recv: O, a: seq<O>, left: seq<O>, e': seq<O>, a': seq<O>, left': seq<O>, queued: nat,
      ch: Chan)
    requires send.Send? && recv.Recv? && recv.ch != ch
    requires Suffix(left, e + [send, recv] + a) && |left| <= 1 + |a| && Suffix(left', e' + a')
    requires e' != [] ==> e'[|e'| - 1].Send? && e'[|e'| - 1].ch == ch
    requires Recvs(left, ch) == queued + Sends(left', ch) && Sends(a', ch) == Recvs(a, ch)
    ensures |left'| <= |a'|
  {
    AfterRing(e, send, recv, a, left, ch);
    if e' != [] {
      AfterSend(e', a', left', ch);
    }
  }

  /**
    A party past the ring has heard from the previous party, whose main process
    has therefore done all its edaBit work.
   */
  lemma MainDrained(d: Items, eda: seq<Round>, da: seq<Round>, cap: Chan -> nat, sched: seq<Thread>, r: S, p: PartyId)
    requires ValidRounds(eda) && ValidRounds(da) && Run(d, eda, da, cap, sched, r) && PastRing(d, da, r, Next(p))
    ensures RingSent(d, da, r, p)
  {
    var ch := Wire(Base, p, Next(p));
    var me, you := Thread(p, Base), Thread(Next(p), Base);
    var send, recv := Send(ch, Say([])), Recv(Wire(Base, Prev(p), p), Ignore);
    OnItsWay(d, eda, da, cap, sched, r, ch);
    ProgramsBalance(d, da, ch);
    assert SyncProgram(me) == [send, recv];
    MainCount(Programs(d, eda, me), send, recv, Programs(d, da, me), r.todo[me],
              Programs(d, eda, you) + SyncProgram(you), Programs(d, da, you), r.todo[you], |r.data.queue[ch]|, ch);
  }

  /** What a party's main process and its lane `f` still have to do, around the hand-over at the end of the lane. */
  lemma LaneParts(d: Items, eda: seq<Round>, da: seq<Round>, p: PartyId, f: nat, me: Thread, lane: Thread)
    requires ValidRounds(da) && me == Thread(p, Base) && lane == Thread(p, Fork(f))
    ensures SyncProgram(me) == [Send(Wire(Base, p, Next(p)), Say([])), Recv(Wire(Base, Prev(p), p), Ignore)]
    ensures Program(d, eda, da, me) == Programs(d, eda, me) + SyncProgram(me) + Programs(d, da, me)
    ensures Program(d, eda, da, lane) == Programs(d, eda, lane) + Programs(d, da, lane)
    ensures Sends(Programs(d, da, lane), Done(p, f)) == Recvs(Programs(d, da, me), Done(p, f))
  {
    ProgramsBalance(d, da, Done(p, f));
    Nothing(Programs(d, eda, lane));
  }

  /** A party that has sent its ring message has joined its lanes. */
  lemma LanesDrained(
      d: Items, eda: seq<Round>, da: seq<Round>, cap: Chan -> nat, sched: seq<Thread>, r: S, p: PartyId, f: nat)
    requires ValidRounds(eda) && ValidRounds(da) && Run(d, eda, da, cap, sched, r) && RingSent(d, da, r, p)
    ensures LaneDrained(d, da, r, p, f)
  {
    var ch := Done(p, f);
    var me, lane := Thread(p, Base), Thread(p, Fork(f));
    var send, recv := Send(Wire(Base, p, Next(p)), Say([])), Recv(Wire(Base, Prev(p), p), Ignore);
    LaneParts(d, eda, da, p, f, me, lane);
    OnItsWay(d, eda, da, cap, sched, r, ch);
    LaneEndsInDone(d, eda, lane);
    LaneCount(Programs(d, eda, me), send, recv, Programs(d, da, me), r.todo[me],
              Programs(d, eda, lane), Programs(d, da, lane), r.todo[lane], |r.data.queue[ch]|, ch);
  }

  /**
    P0 does not start a daBit before P2 has received every edaBit message, in its
    main process and in all its lanes.
   */
  lemma DrainedBeforeDaBits(
      d: Items, eda: seq<Round>, da: seq<Round>, cap: Chan -> nat, sched: seq<Thread>, r: S, f: nat)
    requires ValidRounds(eda) && ValidRounds(da) && Run(d, eda, da, cap, sched, r) && PastRing(d, da, r, ID0)
    ensures RingSent(d, da, r, ID2) && LaneDrained(d, da, r, ID2, f)
  {
    MainDrained(d, eda, da, cap, sched, r, ID2);
    LanesDrained(d, eda, da, cap, sched, r, ID2, f);
  }
}
