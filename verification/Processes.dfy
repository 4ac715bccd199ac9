/**
  Straight-line processes over first-in first-out channels.

  Every process performs a fixed list of sends and receives; a send waits while
  its channel is full, a receive while it is empty.  If the processes have one
  common schedule in which every send finds its channel empty, then under all
  schedules and all capacities none of them can get stuck, every run ends, and
  all runs end with the same memories.
 */
module Processes {
  /** One communication; `what` says what is computed for it. */
  datatype Op<C, G> = Send(ch: C, what: G) | Recv(ch: C, what: G)

  datatype Event<T, C, G> = Event(who: T, op: Op<C, G>)

  /** The two ends of each channel, what a send computes and what a receive does with the message. */
  datatype Net<!T, !C, !G, !M, !V> = Net(from: C -> T, to: C -> T, emit: (M, G) -> V, absorb: (M, G, V) -> M)

  /** Local memories and messages on the way. */
  datatype Data<!T, !C, M, V> = Data(mem: imap<T, M>, queue: imap<C, seq<V>>)

  datatype State<!T, !C, G, M, V> = State(todo: imap<T, seq<Op<C, G>>>, data: Data<T, C, M, V>)

  ghost predicate Total<T(!new), C(!new), M, V>(d: Data<T, C, M, V>) {
    (forall t :: t in d.mem) && (forall c :: c in d.queue)
  }

  /** One communication of process `t`; a receive from an empty channel does not happen. */
  ghost function Perform<T(!new), C(!new), G, M, V>(
      net: Net<T, C, G, M, V>, d: Data<T, C, M, V>, t: T, op: Op<C, G>): (r: Data<T, C, M, V>)
    requires Total(d)
    ensures Total(r)
  {
    match op
    case Send(ch, what) => d.(queue := d.queue[ch := d.queue[ch] + [net.emit(d.mem[t], what)]])
    case Recv(ch, what) =>
      if d.queue[ch] == [] then d
      else Data(d.mem[t := net.absorb(d.mem[t], what, d.queue[ch][0])], d.queue[ch := d.queue[ch][1..]])
  }

  // -------------------------------------------------------------------------
  // Serial schedules
  // -------------------------------------------------------------------------

  ghost function Exec<T(!new), C(!new), G, M, V>(
      net: Net<T, C, G, M, V>, d: Data<T, C, M, V>, e: seq<Event<T, C, G>>): (r: Data<T, C, M, V>)
    requires Total(d)
    ensures Total(r)
    decreases |e|
  {
    if e == [] then d else Exec(net, Perform(net, d, e[0].who, e[0].op), e[1..])
  }

  /** Every send finds its channel empty and every receive finds a message. */
  ghost predicate Orderly<T(!new), C(!new), G, M, V>(
      net: Net<T, C, G, M, V>, d: Data<T, C, M, V>, e: seq<Event<T, C, G>>)
    requires Total(d)
    decreases |e|
  {
    e == [] ||
    (&& (e[0].op.Send? <==> d.queue[e[0].op.ch] == [])
     && Orderly(net, Perform(net, d, e[0].who, e[0].op), e[1..]))
  }

  /** Each event belongs to the process at that end of its channel. */
  ghost predicate Wired<T, C, G, M, V>(net: Net<T, C, G, M, V>, e: seq<Event<T, C, G>>) {
    forall i :: 0 <= i < |e| ==> e[i].who == if e[i].op.Send? then net.from(e[i].op.ch) else net.to(e[i].op.ch)
  }

  /** The program of one process in a schedule. */
  ghost function Project<T, C, G>(e: seq<Event<T, C, G>>, t: T): seq<Op<C, G>> {
    if e == [] then []
    else if e[0].who == t then [e[0].op] + Project(e[1..], t)
    else Project(e[1..], t)
  }

  /** The schedule without the first event of a process. */
  ghost function Without<T, C, G>(e: seq<Event<T, C, G>>, t: T): seq<Event<T, C, G>> {
    if e == [] then []
    else if e[0].who == t then e[1..]
    else [e[0]] + Without(e[1..], t)
  }

  lemma {:induction false} WithoutProjects<T, C, G>(e: seq<Event<T, C, G>>, t: T, u: T)
    requires Project(e, t) != []
    ensures |Without(e, t)| == |e| - 1
    ensures Project(Without(e, t), u) == if t == u then Project(e, t)[1..] else Project(e, u)
  {
    if e[0].who != t {
      WithoutProjects(e[1..], t, u);
      assert Without(e, t)[1..] == Without(e[1..], t);
    }
  }

  lemma {:induction false} WithoutWired<T, C, G, M, V>(net: Net<T, C, G, M, V>, e: seq<Event<T, C, G>>, t: T)
    requires Wired(net, e)
    ensures Wired(net, Without(e, t))
  {
    if e != [] && e[0].who != t {
      WithoutWired(net, e[1..], t);
    }
  }

  /** Two processes' next communications commute. */
  lemma PerformCommutes<T(!new), C(!new), G, M, V>(
      net: Net<T, C, G, M, V>, d: Data<T, C, M, V>, t: T, a: Op<C, G>, u: T, b: Op<C, G>)
    requires Total(d) && t != u
    requires t == (if a.Send? then net.from(a.ch) else net.to(a.ch))
    requires u == (if b.Send? then net.from(b.ch) else net.to(b.ch))
    requires (a.Recv? ==> d.queue[a.ch] != []) && (b.Recv? ==> d.queue[b.ch] != [])
    ensures Perform(net, Perform(net, d, t, a), u, b) == Perform(net, Perform(net, d, u, b), t, a)
  {
    var x, y := Perform(net, Perform(net, d, t, a), u, b), Perform(net, Perform(net, d, u, b), t, a);
    if a.ch == b.ch {
      var q := d.queue[a.ch];
      if a.Send? {
        var v := net.emit(d.mem[t], a.what);
        assert (q + [v])[1..] == q[1..] + [v];
      } else {
        var v := net.emit(d.mem[u], b.what);
        assert (q + [v])[1..] == q[1..] + [v];
      }
    }
    assert x.mem == y.mem;
    assert x.queue == y.queue;
  }

  /**
    A process that can act may act first: the rest of the schedule stays orderly
    and leads to the same end.
   */
  lemma {:induction false} ActFirst<T(!new), C(!new), G, M, V>(
      net: Net<T, C, G, M, V>, d: Data<T, C, M, V>, e: seq<Event<T, C, G>>, t: T)
    requires Total(d) && Wired(net, e) && Orderly(net, d, e) && Project(e, t) != []
    requires var op := Project(e, t)[0]; op.Recv? ==> d.queue[op.ch] != []
    ensures Orderly(net, Perform(net, d, t, Project(e, t)[0]), Without(e, t))
    ensures Exec(net, Perform(net, d, t, Project(e, t)[0]), Without(e, t)) == Exec(net, d, e)
    decreases |e|
  {
    if e[0].who != t {
      var a, u, b := Project(e, t)[0], e[0].who, e[0].op;
      ProjectWired(net, e, t);
      var after := Perform(net, d, u, b);
      ActFirst(net, after, e[1..], t);
      PerformCommutes(net, d, t, a, u, b);
      assert Without(e, t)[1..] == Without(e[1..], t);
    }
  }

  lemma {:induction false} ProjectWired<T, C, G, M, V>(net: Net<T, C, G, M, V>, e: seq<Event<T, C, G>>, t: T)
    requires Wired(net, e) && Project(e, t) != []
    ensures var op := Project(e, t)[0]; t == if op.Send? then net.from(op.ch) else net.to(op.ch)
  {
    if e[0].who != t {
      ProjectWired(net, e[1..], t);
    }
  }

  // -------------------------------------------------------------------------
  // Runs
  // -------------------------------------------------------------------------

  /** The process may take its next step. */
  ghost predicate Enabled<T(!new), C(!new), G, M, V>(s: State<T, C, G, M, V>, cap: C -> nat, t: T) {
    && Total(s.data) && t in s.todo && s.todo[t] != []
    && var op := s.todo[t][0];
       if op.Send? then |s.data.queue[op.ch]| < cap(op.ch) else s.data.queue[op.ch] != []
  }

  ghost function Step<T(!new), C(!new), G, M, V>(
      net: Net<T, C, G, M, V>, s: State<T, C, G, M, V>, t: T): State<T, C, G, M, V>
    requires Total(s.data) && t in s.todo && s.todo[t] != []
  {
    State(s.todo[t := s.todo[t][1..]], Perform(net, s.data, t, s.todo[t][0]))
  }

  /** `s` reaches `r` by letting the named processes step in turn, each when it may. */
  ghost predicate Reaches<T(!new), C(!new), G(!new), M(!new), V(!new)>(
      net: Net<T, C, G, M, V>, cap: C -> nat, s: State<T, C, G, M, V>, sched: seq<T>, r: State<T, C, G, M, V>)
    decreases |sched|
  {
    if sched == [] then s == r
    else Enabled(s, cap, sched[0]) && Reaches(net, cap, Step(net, s, sched[0]), sched[1..], r)
  }

  ghost predicate Finished<T(!new), C(!new), G, M, V>(s: State<T, C, G, M, V>) {
    forall t :: t in s.todo ==> s.todo[t] == []
  }

  /** The schedule is an orderly way to do all that is left to do. */
  ghost predicate Serial<T(!new), C(!new), G, M, V>(
      net: Net<T, C, G, M, V>, s: State<T, C, G, M, V>, e: seq<Event<T, C, G>>) {
    && Total(s.data) && Wired(net, e) && Orderly(net, s.data, e)
    && forall t :: t in s.todo && s.todo[t] == Project(e, t)
  }

  lemma StepSerial<T(!new), C(!new), G, M, V>(
      net: Net<T, C, G, M, V>, cap: C -> nat, s: State<T, C, G, M, V>, e: seq<Event<T, C, G>>, t: T)
    requires Serial(net, s, e) && Enabled(s, cap, t)
    ensures Serial(net, Step(net, s, t), Without(e, t)) && |Without(e, t)| == |e| - 1
    ensures Exec(net, Step(net, s, t).data, Without(e, t)) == Exec(net, s.data, e)
  {
    assert s.todo[t] == Project(e, t);
    ActFirst(net, s.data, e, t);
    WithoutWired(net, e, t);
    WithoutProjects(e, t, t);
    forall u
      ensures u in Step(net, s, t).todo && Step(net, s, t).todo[u] == Project(Without(e, t), u)
    {
      WithoutProjects(e, t, u);
    }
  }

  /** From every reachable state there is an orderly way to finish, to the same end. */
  lemma {:induction false} RunSerial<T(!new), C(!new), G(!new), M(!new), V(!new)>(
      net: Net<T, C, G, M, V>, cap: C -> nat, s: State<T, C, G, M, V>, e: seq<Event<T, C, G>>, sched: seq<T>,
      r: State<T, C, G, M, V>)
    returns (left: seq<Event<T, C, G>>)
    requires Serial(net, s, e) && Reaches(net, cap, s, sched, r)
    ensures Serial(net, r, left) && Exec(net, r.data, left) == Exec(net, s.data, e)
    ensures |sched| + |left| == |e|
    decreases |sched|
  {
    if sched == [] {
      return e;
    }
    StepSerial(net, cap, s, e, sched[0]);
    left := RunSerial(net, cap, Step(net, s, sched[0]), Without(e, sched[0]), sched[1..], r);
  }

  lemma FinishedIffNothingLeft<T(!new), C(!new), G, M, V>(
      net: Net<T, C, G, M, V>, s: State<T, C, G, M, V>, e: seq<Event<T, C, G>>)
    requires Serial(net, s, e)
    ensures Finished(s) <==> e == []
  {
    if e != [] {
      assert s.todo[e[0].who] == Project(e, e[0].who);
    } else {
      assert forall t :: t in s.todo && s.todo[t] == Project(e, t);
    }
  }

  /** No reachable state deadlocks: whoever is first in the remaining schedule can act. */
  lemma NoDeadlock<T(!new), C(!new), G(!new), M(!new), V(!new)>(
      net: Net<T, C, G, M, V>, cap: C -> nat, s: State<T, C, G, M, V>, e: seq<Event<T, C, G>>, sched: seq<T>,
      r: State<T, C, G, M, V>)
    requires Serial(net, s, e) && Reaches(net, cap, s, sched, r) && forall c :: 1 <= cap(c)
    ensures Finished(r) || exists t :: Enabled(r, cap, t)
  {
    var left := RunSerial(net, cap, s, e, sched, r);
    if left != [] {
      var t := left[0].who;
      assert r.todo[t] == Project(left, t);
      assert Enabled(r, cap, t);
    }
  }

  /** Every run ends: it has at most as many steps as there are communications, and with that many it is finished. */
  lemma RunsEnd<T(!new), C(!new), G(!new), M(!new), V(!new)>(
      net: Net<T, C, G, M, V>, cap: C -> nat, s: State<T, C, G, M, V>, e: seq<Event<T, C, G>>, sched: seq<T>,
      r: State<T, C, G, M, V>)
    requires Serial(net, s, e) && Reaches(net, cap, s, sched, r)
    ensures |sched| <= |e|
    ensures Finished(r) <==> |sched| == |e|
  {
    var left := RunSerial(net, cap, s, e, sched, r);
    FinishedIffNothingLeft(net, r, left);
  }

  /** All finished runs, under all capacities, agree with the serial schedule. */
  lemma SameEnd<T(!new), C(!new), G(!new), M(!new), V(!new)>(
      net: Net<T, C, G, M, V>, cap: C -> nat, s: State<T, C, G, M, V>, e: seq<Event<T, C, G>>, sched: seq<T>,
      r: State<T, C, G, M, V>)
    requires Serial(net, s, e) && Reaches(net, cap, s, sched, r) && Finished(r)
    ensures r.data == Exec(net, s.data, e)
  {
    var left := RunSerial(net, cap, s, e, sched, r);
    FinishedIffNothingLeft(net, r, left);
  }

  // -------------------------------------------------------------------------
  // Causality
  // -------------------------------------------------------------------------

  function Sends<C(==), G>(ops: seq<Op<C, G>>, ch: C): nat {
    if ops == [] then 0 else (if ops[0].Send? && ops[0].ch == ch then 1 else 0) + Sends(ops[1..], ch)
  }

  function Recvs<C(==), G>(ops: seq<Op<C, G>>, ch: C): nat {
    if ops == [] then 0 else (if ops[0].Recv? && ops[0].ch == ch then 1 else 0) + Recvs(ops[1..], ch)
  }

  lemma {:induction false} MessagesBalance<T(!new), C(!new), G, M, V>(
      net: Net<T, C, G, M, V>, d: Data<T, C, M, V>, e: seq<Event<T, C, G>>, ch: C)
    requires Total(d) && Wired(net, e) && Orderly(net, d, e)
    ensures |d.queue[ch]| + Sends(Project(e, net.from(ch)), ch)
         == |Exec(net, d, e).queue[ch]| + Recvs(Project(e, net.to(ch)), ch)
    decreases |e|
  {
    if e != [] {
      MessagesBalance(net, Perform(net, d, e[0].who, e[0].op), e[1..], ch);
      forall t
        ensures e[0].who == t ==> Project(e, t)[1..] == Project(e[1..], t)
      {
      }
    }
  }

  /**
    In every reachable state of processes that leave a channel empty, the
    receives still to come on it are the messages on their way and those not yet
    sent: nothing is received before it is sent.
   */
  lemma NothingEarly<T(!new), C(!new), G(!new), M(!new), V(!new)>(
      net: Net<T, C, G, M, V>, cap: C -> nat, s: State<T, C, G, M, V>, e: seq<Event<T, C, G>>, sched: seq<T>,
      r: State<T, C, G, M, V>, ch: C)
    requires Serial(net, s, e) && Reaches(net, cap, s, sched, r) && Exec(net, s.data, e).queue[ch] == []
    ensures Total(r.data) && net.from(ch) in r.todo && net.to(ch) in r.todo
    ensures Recvs(r.todo[net.to(ch)], ch) == |r.data.queue[ch]| + Sends(r.todo[net.from(ch)], ch)
  {
    var left := RunSerial(net, cap, s, e, sched, r);
    MessagesBalance(net, r.data, left, ch);
    assert r.todo[net.from(ch)] == Project(left, net.from(ch));
    assert r.todo[net.to(ch)] == Project(left, net.to(ch));
  }

  // -------------------------------------------------------------------------
  // Schedules made of exchanges
  // -------------------------------------------------------------------------

  /** A message and its receipt, one right after the other. */
  datatype Exchange<C, G> = Exchange(ch: C, say: G, take: G)

  ghost function Events<T, C, G, M, V>(net: Net<T, C, G, M, V>, xs: seq<Exchange<C, G>>): seq<Event<T, C, G>> {
    if xs == [] then []
    else [Event(net.from(xs[0].ch), Send(xs[0].ch, xs[0].say)), Event(net.to(xs[0].ch), Recv(xs[0].ch, xs[0].take))]
         + Events(net, xs[1..])
  }

  /** The memories after an exchange. */
  ghost function Deliver<T(!new), C, G, M, V>(
      net: Net<T, C, G, M, V>, mem: imap<T, M>, x: Exchange<C, G>): (r: imap<T, M>)
    requires forall t :: t in mem
    ensures forall t :: t in r
  {
    var to := net.to(x.ch);
    mem[to := net.absorb(mem[to], x.take, net.emit(mem[net.from(x.ch)], x.say))]
  }

  ghost function DeliverAll<T(!new), C, G, M, V>(
      net: Net<T, C, G, M, V>, mem: imap<T, M>, xs: seq<Exchange<C, G>>): (r: imap<T, M>)
    requires forall t :: t in mem
    ensures forall t :: t in r
    decreases |xs|
  {
    if xs == [] then mem else DeliverAll(net, Deliver(net, mem, xs[0]), xs[1..])
  }

  ghost predicate Quiet<T(!new), C(!new), M, V>(d: Data<T, C, M, V>) {
    Total(d) && forall c :: d.queue[c] == []
  }

  lemma ExchangeOrderly<T(!new), C(!new), G, M, V>(net: Net<T, C, G, M, V>, d: Data<T, C, M, V>, x: Exchange<C, G>)
    requires Quiet(d)
    ensures var d1 := Perform(net, d, net.from(x.ch), Send(x.ch, x.say));
            && d1.queue[x.ch] != []
            && Perform(net, d1, net.to(x.ch), Recv(x.ch, x.take)) == Data(Deliver(net, d.mem, x), d.queue)
  {
    var d1 := Perform(net, d, net.from(x.ch), Send(x.ch, x.say));
    var d2 := Perform(net, d1, net.to(x.ch), Recv(x.ch, x.take));
    assert d2.queue == d.queue;
  }

  /** Exchanges are orderly, leave nothing on the way and deliver each message. */
  lemma {:induction false} ExchangesOrderly<T(!new), C(!new), G, M, V>(
      net: Net<T, C, G, M, V>, d: Data<T, C, M, V>, xs: seq<Exchange<C, G>>)
    requires Quiet(d)
    ensures Orderly(net, d, Events(net, xs)) && Wired(net, Events(net, xs))
    ensures Exec(net, d, Events(net, xs)) == Data(DeliverAll(net, d.mem, xs), d.queue)
    decreases |xs|
  {
    if xs != [] {
      var e := Events(net, xs);
      ExchangeOrderly(net, d, xs[0]);
      ExchangesOrderly(net, Data(Deliver(net, d.mem, xs[0]), d.queue), xs[1..]);
      assert e[1..][1..] == Events(net, xs[1..]);
    }
  }

  /** Schedules compose. */
  lemma {:induction false} OrderlyJoin<T(!new), C(!new), G, M, V>(
      net: Net<T, C, G, M, V>, d: Data<T, C, M, V>, a: seq<Event<T, C, G>>, b: seq<Event<T, C, G>>)
    requires Total(d)
    ensures Exec(net, d, a + b) == Exec(net, Exec(net, d, a), b)
    ensures Orderly(net, d, a + b) <==> Orderly(net, d, a) && Orderly(net, Exec(net, d, a), b)
    decreases |a|
  {
    if a == [] {
      assert a + b == b;
    } else {
      assert (a + b)[1..] == a[1..] + b;
      OrderlyJoin(net, Perform(net, d, a[0].who, a[0].op), a[1..], b);
    }
  }

  lemma {:induction false} ProjectJoin<T, C, G>(a: seq<Event<T, C, G>>, b: seq<Event<T, C, G>>, t: T)
    ensures Project(a + b, t) == Project(a, t) + Project(b, t)
  {
    if a == [] {
      assert a + b == b;
    } else {
      assert (a + b)[1..] == a[1..] + b;
      ProjectJoin(a[1..], b, t);
    }
  }

  lemma {:induction false} EventsJoin<T, C, G, M, V>(
      net: Net<T, C, G, M, V>, a: seq<Exchange<C, G>>, b: seq<Exchange<C, G>>)
    ensures Events(net, a + b) == Events(net, a) + Events(net, b)
  {
    if a == [] {
      assert a + b == b;
    } else {
      assert (a + b)[1..] == a[1..] + b;
      EventsJoin(net, a[1..], b);
    }
  }

  lemma {:induction false} DeliverJoin<T(!new), C, G, M, V>(
      net: Net<T, C, G, M, V>, mem: imap<T, M>, a: seq<Exchange<C, G>>, b: seq<Exchange<C, G>>)
    requires forall t :: t in mem
    ensures DeliverAll(net, mem, a + b) == DeliverAll(net, DeliverAll(net, mem, a), b)
    decreases |a|
  {
    if a == [] {
      assert a + b == b;
    } else {
      assert (a + b)[1..] == a[1..] + b;
      DeliverJoin(net, Deliver(net, mem, a[0]), a[1..], b);
    }
  }

  // -------------------------------------------------------------------------
  // Where a process stands
  // -------------------------------------------------------------------------

  ghost predicate Suffix<A>(s: seq<A>, whole: seq<A>) {
    |s| <= |whole| && s == whole[|whole| - |s|..]
  }

  /** What is left of a program is its end. */
  lemma {:induction false} LeftIsSuffix<T(!new), C(!new), G(!new), M(!new), V(!new)>(
      net: Net<T, C, G, M, V>, cap: C -> nat, s: State<T, C, G, M, V>, sched: seq<T>, r: State<T, C, G, M, V>, t: T)
    requires Reaches(net, cap, s, sched, r) && t in s.todo
    ensures t in r.todo && Suffix(r.todo[t], s.todo[t])
    decreases |sched|
  {
    if sched != [] {
      LeftIsSuffix(net, cap, Step(net, s, sched[0]), sched[1..], r, t);
    }
  }

  lemma {:induction false} SendsJoin<C(!new), G>(a: seq<Op<C, G>>, b: seq<Op<C, G>>, ch: C)
    ensures Sends(a + b, ch) == Sends(a, ch) + Sends(b, ch)
    ensures Recvs(a + b, ch) == Recvs(a, ch) + Recvs(b, ch)
  {
    if a == [] {
      assert a + b == b;
    } else {
      assert (a + b)[1..] == a[1..] + b;
      SendsJoin(a[1..], b, ch);
    }
  }

  lemma DropJoin<A>(a: seq<A>, b: seq<A>, k: nat)
    requires k <= |a|
    ensures (a + b)[k..] == a[k..] + b
  {
  }

  lemma {:induction false} EndsInSend<C(!new), G>(ops: seq<Op<C, G>>, ch: C)
    requires ops != [] && ops[|ops| - 1].Send? && ops[|ops| - 1].ch == ch
    ensures 1 <= Sends(ops, ch)
  {
    if |ops| > 1 {
      EndsInSend(ops[1..], ch);
    }
  }

  /** Before the send that ends its first part, a process has more sends left than the second part holds. */
  lemma BeforeSend<C(!new), G>(first: seq<Op<C, G>>, second: seq<Op<C, G>>, left: seq<Op<C, G>>, ch: C)
    requires Suffix(left, first + second) && first != [] && first[|first| - 1].Send? && first[|first| - 1].ch == ch
    requires |second| < |left|
    ensures Sends(second, ch) < Sends(left, ch)
  {
    var tail := first[|first| + |second| - |left|..];
    DropJoin(first, second, |first| + |second| - |left|);
    SendsJoin(tail, second, ch);
    EndsInSend(tail, ch);
  }

  lemma AfterSend<C(!new), G>(first: seq<Op<C, G>>, second: seq<Op<C, G>>, left: seq<Op<C, G>>, ch: C)
    requires Suffix(left, first + second) && first != [] && first[|first| - 1].Send? && first[|first| - 1].ch == ch
    requires Sends(left, ch) <= Sends(second, ch)
    ensures |left| <= |second|
  {
    if |second| < |left| {
      BeforeSend(first, second, left, ch);
    }
  }

  /** In the second part of its program, a process has at most that part's communications left. */
  lemma InSecondPart<C(!new), G>(first: seq<Op<C, G>>, second: seq<Op<C, G>>, left: seq<Op<C, G>>, ch: C)
    requires Suffix(left, first + second) && |left| <= |second|
    ensures Recvs(left, ch) <= Recvs(second, ch) && Sends(left, ch) <= Sends(second, ch)
  {
    assert second == second[..|second| - |left|] + left;
    SendsJoin(second[..|second| - |left|], left, ch);
  }
}
