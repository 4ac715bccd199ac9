/**
  The three parties generating a pool: edaBit shares from P0 to P2, a ring of
  synchronisation messages, then daBits in three-message chunks.

  Each party runs a main process and, where work is forked, one process per
  lane.  Handing work to a lane and joining it are communications like any other.
 */
module Generation {
  import opened Arith
  import opened EdaBitsSpec
  import opened DaBitsSpec
  import opened FlatRows
  import opened Streaming
  import opened DaBits
  import opened Processes

  datatype Place = Base | Fork(f: nat)

  datatype Thread = Thread(party: PartyId, place: Place)

  /** A network connection between two parties, or the hand-over between a party's main process and a lane. */
  datatype Chan = Wire(place: Place, a: PartyId, b: PartyId) | Go(p: PartyId, f: nat) | Done(p: PartyId, f: nat)

  /** What is sent, and what is done with what arrives. */
  datatype Work =
    | Say(v: Row)
    | Answer(start: nat)
    | Ignore
    | Keep
    | StoreAt(ty: nat, at: nat)
    | StorePairs(start: nat)

  /** A write into the store of edaBit type `ty`, or of daBits when `ty` is `DABITS`. */
  datatype Logged = Logged(ty: nat, w: Write)

  const DABITS := 5

  /** The message a process holds on to, and the writes it has made. */
  datatype Mem = Mem(held: Row, log: seq<Logged>)

  datatype Chunk = Chunk(start: nat, n: nat)

  type X = Exchange<Chan, Work>
  type O = Op<Chan, Work>

  function FromOf(c: Chan): Thread {
    match c
    case Wire(place, a, b) => Thread(a, place)
    case Go(p, f) => Thread(p, Base)
    case Done(p, f) => Thread(p, Fork(f))
  }

  function ToOf(c: Chan): Thread {
    match c
    case Wire(place, a, b) => Thread(b, place)
    case Go(p, f) => Thread(p, Fork(f))
    case Done(p, f) => Thread(p, Base)
  }

  function Emit(d: Items, m: Mem, w: Work): Row {
    match w
    case Say(v) => v
    case Answer(start) => Reply(d, start, m.held)
    case _ => []
  }

  /** P2's pairs, as they lie in its store. */
  function Pairs(a: Row, b: Row): Row {
    var n := Min(|a|, |b|);
    Flatten(seq(n, i requires 0 <= i < n => [a[i], b[i]]))
  }

  function Absorb(d: Items, m: Mem, w: Work, v: Row): Mem {
    match w
    case Keep => m.(held := v)
    case StoreAt(ty, at) => m.(log := m.log + [Logged(ty, Write(at, v))])
    case StorePairs(start) =>
      m.(log := m.log + [Logged(DABITS, Write(2 * start, Pairs(Reply(d, start, m.held), v)))])
    case _ => m
  }

  function NetOf(d: Items): Net<Thread, Chan, Work, Mem, Row> {
    Net(c => FromOf(c), c => ToOf(c), (m, w) => Emit(d, m, w), (m, w, v) => Absorb(d, m, w, v))
  }

  // -------------------------------------------------------------------------
  // The work of one lane
  // -------------------------------------------------------------------------

  /** Messages of edaBit shares with their places in P2's store, or chunks of daBits. */
  datatype Job = Eda(ty: nat, ws: seq<Write>) | Da(cs: seq<Chunk>)

  function EdaProgram(party: PartyId, place: Place, ty: nat, ws: seq<Write>): seq<O> {
    if ws == [] then []
    else
      (match party
       case ID0 => [Send(Wire(place, ID0, ID2), Say(ws[0].data))]
       case ID1 => []
       case ID2 => [Recv(Wire(place, ID0, ID2), StoreAt(ty, ws[0].at))])
      + EdaProgram(party, place, ty, ws[1..])
  }

  /**
    P0 sends and waits for the answer before the next chunk; P1 only sends; P2
    receives both parts, stores and answers.
   */
  function ChunkProgram(d: Items, party: PartyId, place: Place, c: Chunk): seq<O> {
    match party
    case ID0 => [Send(Wire(place, ID0, ID2), Say(Alpha2s(d, c.start, c.n))),
                 Recv(Wire(place, ID2, ID0), StoreAt(DABITS, c.start))]
    case ID1 => [Send(Wire(place, ID1, ID2), Say(S12s(d, c.start, c.n)))]
    case ID2 => [Recv(Wire(place, ID0, ID2), Keep),
                 Recv(Wire(place, ID1, ID2), StorePairs(c.start)),
                 Send(Wire(place, ID2, ID0), Answer(c.start))]
  }

  function DaProgram(d: Items, party: PartyId, place: Place, cs: seq<Chunk>): seq<O> {
    if cs == [] then []
    else ChunkProgram(d, party, place, cs[0]) + DaProgram(d, party, place, cs[1..])
  }

  function JobProgram(d: Items, party: PartyId, place: Place, job: Job): seq<O> {
    match job
    case Eda(ty, ws) => EdaProgram(party, place, ty, ws)
    case Da(cs) => DaProgram(d, party, place, cs)
  }

  /** The same work as exchanges, one message at a time. */
  function EdaExchanges(place: Place, ty: nat, ws: seq<Write>): seq<X> {
    if ws == [] then []
    else [Exchange(Wire(place, ID0, ID2), Say(ws[0].data), StoreAt(ty, ws[0].at))] + EdaExchanges(place, ty, ws[1..])
  }

  function ChunkExchanges(d: Items, place: Place, c: Chunk): (xs: seq<X>)
    ensures |xs| == 3
  {
    [Exchange(Wire(place, ID0, ID2), Say(Alpha2s(d, c.start, c.n)), Keep),
     Exchange(Wire(place, ID1, ID2), Say(S12s(d, c.start, c.n)), StorePairs(c.start)),
     Exchange(Wire(place, ID2, ID0), Answer(c.start), StoreAt(DABITS, c.start))]
  }

  function DaExchanges(d: Items, place: Place, cs: seq<Chunk>): seq<X> {
    if cs == [] then [] else ChunkExchanges(d, place, cs[0]) + DaExchanges(d, place, cs[1..])
  }

  function JobExchanges(d: Items, place: Place, job: Job): seq<X> {
    match job
    case Eda(ty, ws) => EdaExchanges(place, ty, ws)
    case Da(cs) => DaExchanges(d, place, cs)
  }

  /** The part of an exchange, and of a list of exchanges, that falls to one process. */
  function OwnOps(x: X, t: Thread): seq<O> {
    (if FromOf(x.ch) == t then [Send(x.ch, x.say)] else []) + (if ToOf(x.ch) == t then [Recv(x.ch, x.take)] else [])
  }

  function Ops(xs: seq<X>, t: Thread): seq<O> {
    if xs == [] then [] else OwnOps(xs[0], t) + Ops(xs[1..], t)
  }

  lemma {:induction false} OpsAreProjection(d: Items, xs: seq<X>, t: Thread)
    ensures Project(Events(NetOf(d), xs), t) == Ops(xs, t)
  {
    if xs != [] {
      OpsAreProjection(d, xs[1..], t);
      var e := Events(NetOf(d), xs);
      assert e[1..][1..] == Events(NetOf(d), xs[1..]);
    }
  }

  lemma {:induction false} OpsJoin(a: seq<X>, b: seq<X>, t: Thread)
    ensures Ops(a + b, t) == Ops(a, t) + Ops(b, t)
  {
    if a == [] {
      assert a + b == b;
    } else {
      assert (a + b)[1..] == a[1..] + b;
      OpsJoin(a[1..], b, t);
    }
  }

  /** Joining with nothing. */
  lemma Nothing(a: seq<O>)
    ensures a + [] == a && [] + a == a
  {
  }

  lemma OneSideOps(a: seq<X>, b: seq<X>, t: Thread)
    ensures Ops(a + b, t) == Ops(a, t) + Ops(b, t)
    ensures Ops(a, t) == [] ==> Ops(a + b, t) == Ops(b, t)
    ensures Ops(b, t) == [] ==> Ops(a + b, t) == Ops(a, t)
  {
    OpsJoin(a, b, t);
  }

  lemma OpsOne(x: X, t: Thread)
    ensures Ops([x], t) == OwnOps(x, t)
  {
    assert [x][1..] == [];
    Nothing(OwnOps(x, t));
  }

  lemma OpsTwo(x: X, y: X, t: Thread)
    ensures Ops([x, y], t) == OwnOps(x, t) + OwnOps(y, t)
  {
    assert [x, y][1..] == [y];
    OpsOne(y, t);
  }

  lemma OpsThree(x: X, y: X, z: X, t: Thread)
    ensures Ops([x, y, z], t) == OwnOps(x, t) + (OwnOps(y, t) + OwnOps(z, t))
  {
    assert [x, y, z][1..] == [y, z];
    OpsTwo(y, z, t);
  }

  lemma {:induction false} EdaOps(place: Place, ty: nat, ws: seq<Write>, t: Thread)
    ensures Ops(EdaExchanges(place, ty, ws), t) == if t.place == place then EdaProgram(t.party, place, ty, ws) else []
  {
    if ws != [] {
      EdaOps(place, ty, ws[1..], t);
    }
  }

  lemma ChunkOps(d: Items, place: Place, c: Chunk, t: Thread)
    ensures Ops(ChunkExchanges(d, place, c), t) == if t.place == place then ChunkProgram(d, t.party, place, c) else []
  {
    var xs := ChunkExchanges(d, place, c);
    OpsThree(xs[0], xs[1], xs[2], t);
  }

  lemma {:induction false} DaOps(d: Items, place: Place, cs: seq<Chunk>, t: Thread)
    ensures Ops(DaExchanges(d, place, cs), t) == if t.place == place then DaProgram(d, t.party, place, cs) else []
  {
    if cs != [] {
      DaOps(d, place, cs[1..], t);
      ChunkOps(d, place, cs[0], t);
      OpsJoin(ChunkExchanges(d, place, cs[0]), DaExchanges(d, place, cs[1..]), t);
    }
  }

  lemma JobOps(d: Items, place: Place, job: Job, t: Thread)
    ensures Ops(JobExchanges(d, place, job), t) == if t.place == place then JobProgram(d, t.party, place, job) else []
  {
    match job
    case Eda(ty, ws) => EdaOps(place, ty, ws, t);
    case Da(cs) => DaOps(d, place, cs, t);
  }

  // -------------------------------------------------------------------------
  // Rounds: work done by the main processes, or forked to lanes and joined
  // -------------------------------------------------------------------------

  /** P1 takes part in daBit rounds only. */
  datatype Round = Direct(job: Job) | Forked(three: bool, jobs: seq<Job>)

  predicate TakesPart(three: bool, p: PartyId) {
    three || p != ID1
  }

  ghost predicate ValidRound(r: Round) {
    r.Forked? && !r.three ==> forall i :: 0 <= i < |r.jobs| ==> r.jobs[i].Eda?
  }

  /** `g(0) + g(1) + ... + g(n - 1)`. */
  function Concat<A>(g: nat -> seq<A>, n: nat): seq<A> {
    if n == 0 then [] else Concat(g, n - 1) + g(n - 1)
  }

  function GoSends(p: PartyId, n: nat): seq<O> {
    Concat((f: nat) => [Send(Go(p, f), Say([]))], n)
  }

  function DoneRecvs(p: PartyId, n: nat): seq<O> {
    Concat((f: nat) => [Recv(Done(p, f), Ignore)], n)
  }

  /** The main process starts all lanes, then waits for all of them. */
  function RoundProgram(d: Items, r: Round, t: Thread): seq<O> {
    match r
    case Direct(job) => if t.place.Base? then JobProgram(d, t.party, Base, job) else []
    case Forked(three, jobs) =>
      if !TakesPart(three, t.party) then []
      else if t.place.Base? then GoSends(t.party, |jobs|) + DoneRecvs(t.party, |jobs|)
      else if t.place.f < |jobs| then
        [Recv(Go(t.party, t.place.f), Ignore)] + JobProgram(d, t.party, t.place, jobs[t.place.f])
        + [Send(Done(t.party, t.place.f), Say([]))]
      else []
  }

  function StartRow(three: bool, f: nat): seq<X> {
    if three then
      [Exchange(Go(ID0, f), Say([]), Ignore), Exchange(Go(ID1, f), Say([]), Ignore),
       Exchange(Go(ID2, f), Say([]), Ignore)]
    else [Exchange(Go(ID0, f), Say([]), Ignore), Exchange(Go(ID2, f), Say([]), Ignore)]
  }

  function JoinRow(three: bool, f: nat): seq<X> {
    if three then
      [Exchange(Done(ID0, f), Say([]), Ignore), Exchange(Done(ID1, f), Say([]), Ignore),
       Exchange(Done(ID2, f), Say([]), Ignore)]
    else [Exchange(Done(ID0, f), Say([]), Ignore), Exchange(Done(ID2, f), Say([]), Ignore)]
  }

  function LaneExchanges(d: Items, jobs: seq<Job>, f: nat): seq<X> {
    if f < |jobs| then JobExchanges(d, Fork(f), jobs[f]) else []
  }

  function RoundExchanges(d: Items, r: Round): seq<X> {
    match r
    case Direct(job) => JobExchanges(d, Base, job)
    case Forked(three, jobs) =>
      Concat((f: nat) => StartRow(three, f), |jobs|)
      + Concat((f: nat) => LaneExchanges(d, jobs, f), |jobs|)
      + Concat((f: nat) => JoinRow(three, f), |jobs|)
  }

  lemma {:induction false} ConcatOps(g: nat -> seq<X>, n: nat, t: Thread)
    ensures Ops(Concat(g, n), t) == Concat((f: nat) => Ops(g(f), t), n)
  {
    if n > 0 {
      ConcatOps(g, n - 1, t);
      OpsJoin(Concat(g, n - 1), g(n - 1), t);
    }
  }

  lemma {:induction false} ConcatSame<A>(g: nat -> seq<A>, h: nat -> seq<A>, n: nat)
    requires forall f: nat :: f < n ==> g(f) == h(f)
    ensures Concat(g, n) == Concat(h, n)
  {
    if n > 0 {
      ConcatSame(g, h, n - 1);
    }
  }

  lemma {:induction false} ConcatOne<A>(g: nat -> seq<A>, n: nat, k: nat)
    requires forall f: nat :: f < n && f != k ==> g(f) == []
    ensures Concat(g, n) == if k < n then g(k) else []
  {
    if n > 0 {
      ConcatOne(g, n - 1, k);
    }
  }

  /** A hand-over concerns one party's main process and one of its lanes. */
  function HandOver(t: Thread, p: PartyId, f: nat, atBase: O, atLane: O): seq<O> {
    if t.party != p then [] else if t.place.Base? then [atBase] else if t.place.f == f then [atLane] else []
  }

  lemma GoOps(p: PartyId, f: nat, t: Thread)
    ensures OwnOps(Exchange(Go(p, f), Say([]), Ignore), t)
         == HandOver(t, p, f, Send(Go(p, f), Say([])), Recv(Go(p, f), Ignore))
  {
  }

  lemma DoneOps(p: PartyId, f: nat, t: Thread)
    ensures OwnOps(Exchange(Done(p, f), Say([]), Ignore), t)
         == HandOver(t, p, f, Recv(Done(p, f), Ignore), Send(Done(p, f), Say([])))
  {
  }

  /** At most one of the parties is this process's. */
  lemma OnlyOwn(a: seq<O>, b: seq<O>, c: seq<O>)
    ensures b == [] && c == [] ==> a + (b + c) == a
    ensures a == [] && c == [] ==> a + (b + c) == b
    ensures a == [] && b == [] ==> a + (b + c) == c
  {
  }

  lemma StartRowOps(three: bool, f: nat, t: Thread)
    ensures Ops(StartRow(three, f), t)
         == if TakesPart(three, t.party)
            then HandOver(t, t.party, f, Send(Go(t.party, f), Say([])), Recv(Go(t.party, f), Ignore))
            else []
  {
    var xs := StartRow(three, f);
    GoOps(ID0, f, t);
    GoOps(ID1, f, t);
    GoOps(ID2, f, t);
    if three {
      assert xs == [xs[0], xs[1], xs[2]];
      OpsThree(xs[0], xs[1], xs[2], t);
      OnlyOwn(OwnOps(xs[0], t), OwnOps(xs[1], t), OwnOps(xs[2], t));
    } else {
      assert xs == [xs[0], xs[1]];
      OpsTwo(xs[0], xs[1], t);
      Nothing(OwnOps(xs[0], t));
      Nothing(OwnOps(xs[1], t));
    }
  }

  lemma JoinRowOps(three: bool, f: nat, t: Thread)
    ensures Ops(JoinRow(three, f), t)
         == if TakesPart(three, t.party)
            then HandOver(t, t.party, f, Recv(Done(t.party, f), Ignore), Send(Done(t.party, f), Say([])))
            else []
  {
    var xs := JoinRow(three, f);
    DoneOps(ID0, f, t);
    DoneOps(ID1, f, t);
    DoneOps(ID2, f, t);
    if three {
      assert xs == [xs[0], xs[1], xs[2]];
      OpsThree(xs[0], xs[1], xs[2], t);
      OnlyOwn(OwnOps(xs[0], t), OwnOps(xs[1], t), OwnOps(xs[2], t));
    } else {
      assert xs == [xs[0], xs[1]];
      OpsTwo(xs[0], xs[1], t);
      Nothing(OwnOps(xs[0], t));
      Nothing(OwnOps(xs[1], t));
    }
  }

  /** The rows of hand-overs in one direction, seen by one process. */
  lemma RowsOps(rows: nat -> seq<X>, n: nat, t: Thread, part: bool, atBase: nat -> O, atLane: nat -> O)
    requires forall f: nat :: f < n ==>
               Ops(rows(f), t) == if part then HandOver(t, t.party, f, atBase(f), atLane(f)) else []
    ensures Ops(Concat(rows, n), t)
         == if !part then []
            else if t.place.Base? then Concat((f: nat) => [atBase(f)], n)
            else if t.place.f < n then [atLane(t.place.f)]
            else []
  {
    ConcatOps(rows, n, t);
    var g := (f: nat) => Ops(rows(f), t);
    if !part {
      ConcatOne(g, n, n);
    } else if t.place.Base? {
      ConcatSame(g, (f: nat) => [atBase(f)], n);
    } else {
      ConcatOne(g, n, t.place.f);
    }
  }

  lemma StartsOps(three: bool, n: nat, t: Thread)
    ensures Ops(Concat((f: nat) => StartRow(three, f), n), t)
         == if !TakesPart(three, t.party) then []
            else if t.place.Base? then GoSends(t.party, n)
            else if t.place.f < n then [Recv(Go(t.party, t.place.f), Ignore)]
            else []
  {
    var rows := (f: nat) => StartRow(three, f);
    var atBase, atLane := (f: nat) => Send(Go(t.party, f), Say([])), (f: nat) => Recv(Go(t.party, f), Ignore);
    forall f: nat | f < n
      ensures Ops(rows(f), t) == if TakesPart(three, t.party) then HandOver(t, t.party, f, atBase(f), atLane(f)) else []
    {
      StartRowOps(three, f, t);
    }
    RowsOps(rows, n, t, TakesPart(three, t.party), atBase, atLane);
    ConcatSame((f: nat) => [atBase(f)], (f: nat) => [Send(Go(t.party, f), Say([]))], n);
  }

  lemma JoinsOps(three: bool, n: nat, t: Thread)
    ensures Ops(Concat((f: nat) => JoinRow(three, f), n), t)
         == if !TakesPart(three, t.party) then []
            else if t.place.Base? then DoneRecvs(t.party, n)
            else if t.place.f < n then [Send(Done(t.party, t.place.f), Say([]))]
            else []
  {
    var rows := (f: nat) => JoinRow(three, f);
    var atBase, atLane := (f: nat) => Recv(Done(t.party, f), Ignore), (f: nat) => Send(Done(t.party, f), Say([]));
    forall f: nat | f < n
      ensures Ops(rows(f), t) == if TakesPart(three, t.party) then HandOver(t, t.party, f, atBase(f), atLane(f)) else []
    {
      JoinRowOps(three, f, t);
    }
    RowsOps(rows, n, t, TakesPart(three, t.party), atBase, atLane);
    ConcatSame((f: nat) => [atBase(f)], (f: nat) => [Recv(Done(t.party, f), Ignore)], n);
  }

  lemma LaneOps(d: Items, jobs: seq<Job>, f: nat, t: Thread)
    requires f < |jobs|
    ensures Ops(LaneExchanges(d, jobs, f), t)
         == if t.place == Fork(f) then JobProgram(d, t.party, t.place, jobs[f]) else []
  {
    JobOps(d, Fork(f), jobs[f], t);
  }

  lemma LanesOps(d: Items, jobs: seq<Job>, t: Thread)
    ensures Ops(Concat((f: nat) => LaneExchanges(d, jobs, f), |jobs|), t)
         == if t.place.Fork? && t.place.f < |jobs| then JobProgram(d, t.party, t.place, jobs[t.place.f]) else []
  {
    var lanes := (f: nat) => LaneExchanges(d, jobs, f);
    ConcatOps(lanes, |jobs|, t);
    var g := (f: nat) => Ops(lanes(f), t);
    var k := if t.place.Fork? then t.place.f else |jobs|;
    forall f: nat | f < |jobs| && f != k
      ensures g(f) == []
    {
      LaneOps(d, jobs, f, t);
    }
    ConcatOne(g, |jobs|, k);
    if k < |jobs| {
      LaneOps(d, jobs, k, t);
    }
  }

  lemma {:induction false} EdaSkipsP1(place: Place, ty: nat, ws: seq<Write>)
    ensures EdaProgram(ID1, place, ty, ws) == []
  {
    if ws != [] {
      EdaSkipsP1(place, ty, ws[1..]);
    }
  }

  /** The exchanges of a round give every process exactly its program. */
  lemma RoundOps(d: Items, r: Round, t: Thread)
    requires ValidRound(r)
    ensures Ops(RoundExchanges(d, r), t) == RoundProgram(d, r, t)
  {
    match r
    case Direct(job) =>
      JobOps(d, Base, job, t);
    case Forked(three, jobs) =>
      ForkedOps(d, three, jobs, t);
  }

  lemma ForkedOps(d: Items, three: bool, jobs: seq<Job>, t: Thread)
    requires ValidRound(Forked(three, jobs))
    ensures Ops(RoundExchanges(d, Forked(three, jobs)), t) == RoundProgram(d, Forked(three, jobs), t)
  {
    var n := |jobs|;
    var starts, joins := Concat((f: nat) => StartRow(three, f), n), Concat((f: nat) => JoinRow(three, f), n);
    var lanes := Concat((f: nat) => LaneExchanges(d, jobs, f), n);
    StartsOps(three, n, t);
    LanesOps(d, jobs, t);
    JoinsOps(three, n, t);
    OneSideOps(starts, lanes, t);
    OneSideOps(starts + lanes, joins, t);
    if !TakesPart(three, t.party) && t.place.Fork? && t.place.f < n {
      EdaSkipsP1(t.place, jobs[t.place.f].ty, jobs[t.place.f].ws);
    }
  }

  // -------------------------------------------------------------------------
  // The whole protocol
  // -------------------------------------------------------------------------

  function Next(p: PartyId): PartyId {
    match p case ID0 => ID1 case ID1 => ID2 case ID2 => ID0
  }

  function Prev(p: PartyId): PartyId {
    match p case ID0 => ID2 case ID1 => ID0 case ID2 => ID1
  }

  /** Each main process tells the next party and hears from the previous one. */
  function SyncProgram(t: Thread): seq<O> {
    if t.place.Base? then
      [Send(Wire(Base, t.party, Next(t.party)), Say([])), Recv(Wire(Base, Prev(t.party), t.party), Ignore)]
    else []
  }

  function Programs(d: Items, rs: seq<Round>, t: Thread): seq<O> {
    if rs == [] then [] else RoundProgram(d, rs[0], t) + Programs(d, rs[1..], t)
  }

  /** EdaBit rounds, the ring synchronisation, daBit rounds. */
  function Program(d: Items, eda: seq<Round>, da: seq<Round>, t: Thread): seq<O> {
    Programs(d, eda, t) + SyncProgram(t) + Programs(d, da, t)
  }

  function Exchanges(d: Items, rs: seq<Round>): seq<X> {
    if rs == [] then [] else RoundExchanges(d, rs[0]) + Exchanges(d, rs[1..])
  }

  ghost predicate ValidRounds(rs: seq<Round>) {
    forall i :: 0 <= i < |rs| ==> ValidRound(rs[i])
  }

  lemma {:induction false} RoundsOps(d: Items, rs: seq<Round>, t: Thread)
    requires ValidRounds(rs)
    ensures Ops(Exchanges(d, rs), t) == Programs(d, rs, t)
  {
    if rs != [] {
      RoundOps(d, rs[0], t);
      RoundsOps(d, rs[1..], t);
      OpsJoin(RoundExchanges(d, rs[0]), Exchanges(d, rs[1..]), t);
    }
  }

  type E = Event<Thread, Chan, Work>

  function SendEvent(p: PartyId): E {
    Event(Thread(p, Base), Send(Wire(Base, p, Next(p)), Say([])))
  }

  function RecvEvent(p: PartyId): E {
    Event(Thread(p, Base), Recv(Wire(Base, Prev(p), p), Ignore))
  }

  function SyncEvents(): seq<E> {
    [SendEvent(ID0), SendEvent(ID1), SendEvent(ID2), RecvEvent(ID0), RecvEvent(ID1), RecvEvent(ID2)]
  }

  lemma SyncProjects(t: Thread)
    ensures Project(SyncEvents(), t) == SyncProgram(t)
  {
    var e := SyncEvents();
    assert e[1..] == [SendEvent(ID1), SendEvent(ID2), RecvEvent(ID0), RecvEvent(ID1), RecvEvent(ID2)];
    assert e[1..][1..] == [SendEvent(ID2), RecvEvent(ID0), RecvEvent(ID1), RecvEvent(ID2)];
    assert e[1..][1..][1..] == [RecvEvent(ID0), RecvEvent(ID1), RecvEvent(ID2)];
    assert e[1..][1..][1..][1..] == [RecvEvent(ID1), RecvEvent(ID2)];
    assert e[1..][1..][1..][1..][1..] == [RecvEvent(ID2)];
  }

  type D = Data<Thread, Chan, Mem, Row>
  type S = State<Thread, Chan, Work, Mem, Row>

  /** The ring is orderly and changes nothing. */
  lemma SyncOrderly(d: Items, x: D)
    requires Quiet(x)
    ensures Orderly(NetOf(d), x, SyncEvents()) && Exec(NetOf(d), x, SyncEvents()) == x
  {
    var net, e := NetOf(d), SyncEvents();
    var full := Data(x.mem, x.queue[Wire(Base, ID0, ID1) := [[]]][Wire(Base, ID1, ID2) := [[]]]
                                   [Wire(Base, ID2, ID0) := [[]]]);
    SyncSends(d, x, full);
    SyncRecvs(d, x, full);
    OrderlyJoin(net, x, [SendEvent(ID0), SendEvent(ID1), SendEvent(ID2)],
                [RecvEvent(ID0), RecvEvent(ID1), RecvEvent(ID2)]);
    assert e == [SendEvent(ID0), SendEvent(ID1), SendEvent(ID2)] + [RecvEvent(ID0), RecvEvent(ID1), RecvEvent(ID2)];
  }

  ghost predicate RingFull(x: D, full: D) {
    full == Data(x.mem, x.queue[Wire(Base, ID0, ID1) := [[]]][Wire(Base, ID1, ID2) := [[]]]
                               [Wire(Base, ID2, ID0) := [[]]])
  }

  lemma SyncSends(d: Items, x: D, full: D)
    requires Quiet(x) && RingFull(x, full)
    ensures var e := [SendEvent(ID0), SendEvent(ID1), SendEvent(ID2)];
            Orderly(NetOf(d), x, e) && Exec(NetOf(d), x, e) == full
  {
    var net := NetOf(d);
    var e := [SendEvent(ID0), SendEvent(ID1), SendEvent(ID2)];
    var x1 := Perform(net, x, e[0].who, e[0].op);
    var x2 := Perform(net, x1, e[1].who, e[1].op);
    var x3 := Perform(net, x2, e[2].who, e[2].op);
    assert e[1..] == [SendEvent(ID1), SendEvent(ID2)];
    assert e[1..][1..] == [SendEvent(ID2)];
    assert e[1..][1..][1..] == [];
    var none: seq<Row> := [];
    assert none + [[]] == [[]];
    assert x3.queue == full.queue;
  }

  lemma SyncRecvs(d: Items, x: D, full: D)
    requires Quiet(x) && RingFull(x, full)
    ensures var e := [RecvEvent(ID0), RecvEvent(ID1), RecvEvent(ID2)];
            Orderly(NetOf(d), full, e) && Exec(NetOf(d), full, e) == x
  {
    var net := NetOf(d);
    var e := [RecvEvent(ID0), RecvEvent(ID1), RecvEvent(ID2)];
    var x1 := Perform(net, full, e[0].who, e[0].op);
    var x2 := Perform(net, x1, e[1].who, e[1].op);
    var x3 := Perform(net, x2, e[2].who, e[2].op);
    assert e[1..] == [RecvEvent(ID1), RecvEvent(ID2)];
    assert e[1..][1..] == [RecvEvent(ID2)];
    assert e[1..][1..][1..] == [];
    assert x3.queue == x.queue;
    assert x3.mem == x.mem;
  }

  function NoMem(t: Thread): Mem {
    Mem([], [])
  }

  function NoMessages(c: Chan): seq<Row> {
    []
  }

  ghost function Init(d: Items, eda: seq<Round>, da: seq<Round>): S {
    State(imap t: Thread :: Program(d, eda, da, t), Data(imap t: Thread :: NoMem(t), imap c: Chan :: NoMessages(c)))
  }

  ghost function Schedule(d: Items, eda: seq<Round>, da: seq<Round>): seq<E> {
    Events(NetOf(d), Exchanges(d, eda)) + SyncEvents() + Events(NetOf(d), Exchanges(d, da))
  }

  lemma ScheduleProjects(d: Items, eda: seq<Round>, da: seq<Round>, t: Thread)
    requires ValidRounds(eda) && ValidRounds(da)
    ensures Project(Schedule(d, eda, da), t) == Program(d, eda, da, t)
  {
    var a, b := Events(NetOf(d), Exchanges(d, eda)), Events(NetOf(d), Exchanges(d, da));
    ProjectJoin(a + SyncEvents(), b, t);
    ProjectJoin(a, SyncEvents(), t);
    SyncProjects(t);
    OpsAreProjection(d, Exchanges(d, eda), t);
    OpsAreProjection(d, Exchanges(d, da), t);
    RoundsOps(d, eda, t);
    RoundsOps(d, da, t);
  }

  /** The schedule is orderly from any quiet state, delivers every exchange and leaves the channels empty. */
  lemma ScheduleOrderly(d: Items, x: D, eda: seq<Round>, da: seq<Round>)
    requires Quiet(x)
    ensures Orderly(NetOf(d), x, Schedule(d, eda, da)) && Wired(NetOf(d), Schedule(d, eda, da))
    ensures Exec(NetOf(d), x, Schedule(d, eda, da))
         == Data(DeliverAll(NetOf(d), DeliverAll(NetOf(d), x.mem, Exchanges(d, eda)), Exchanges(d, da)), x.queue)
  {
    var net := NetOf(d);
    var xs, ys := Exchanges(d, eda), Exchanges(d, da);
    var a, b := Events(net, xs), Events(net, ys);
    ExchangesOrderly(net, x, xs);
    var mid := Data(DeliverAll(net, x.mem, xs), x.queue);
    SyncOrderly(d, mid);
    ExchangesOrderly(net, mid, ys);
    OrderlyJoin(net, x, a, SyncEvents());
    OrderlyJoin(net, x, a + SyncEvents(), b);
    SyncWired(d);
    WiredJoin(net, a, SyncEvents());
    WiredJoin(net, a + SyncEvents(), b);
  }

  lemma SyncWired(d: Items)
    ensures Wired(NetOf(d), SyncEvents())
  {
  }

  lemma WiredJoin(net: Net<Thread, Chan, Work, Mem, Row>, a: seq<E>, b: seq<E>)
    requires Wired(net, a) && Wired(net, b)
    ensures Wired(net, a + b)
  {
  }

  lemma ProtocolSerial(d: Items, eda: seq<Round>, da: seq<Round>)
    requires ValidRounds(eda) && ValidRounds(da)
    ensures Quiet(Init(d, eda, da).data)
    ensures Serial(NetOf(d), Init(d, eda, da), Schedule(d, eda, da))
  {
    var s := Init(d, eda, da);
    ScheduleOrderly(d, s.data, eda, da);
    forall t: Thread
      ensures t in s.todo && s.todo[t] == Project(Schedule(d, eda, da), t)
    {
      ScheduleProjects(d, eda, da, t);
    }
  }
}
