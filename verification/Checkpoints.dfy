/**
  The tracer's lazy iterator and its checkpoints.

  The emulator is a parameter: a program counter and a deterministic tick that
  emits cycles.  The program has ended when the counter stops changing; the
  iterator also ends at a tick that emits no cycle.
 */
module Checkpoints {
  import opened Arith
  import opened Wrappers

  datatype Machine<!E, !C> = Machine(pc: E -> nat, tick: E -> (E, seq<C>))

  /**
    From state `e` on, up to the end of the program or the first tick without a
    cycle, the cycles are exactly those of `trace` from position `at` on.
   */
  ghost predicate Emits<E, C>(m: Machine<E, C>, e: E, prevPc: nat, trace: seq<C>, at: nat)
    decreases |trace| - at
  {
    if m.pc(e) == prevPc then at == |trace|
    else
      var (e', cycles) := m.tick(e);
      if cycles == [] then at == |trace|
      else
        && at + |cycles| <= |trace|
        && (forall i :: 0 <= i < |cycles| ==> cycles[i] == trace[at + i])
        && Emits(m, e', m.pc(e), trace, at + |cycles|)
  }

  /** A copy of an iterator; the cycles not yet handed out are in reverse order. */
  datatype Snapshot<E, C> = Snapshot(emulator: E, prevPc: nat, current: seq<C>, finished: bool)

  /** The buffered cycles, last one first, are those of the trace from position `at`. */
  ghost predicate Buffered<C>(current: seq<C>, trace: seq<C>, at: nat) {
    at + |current| <= |trace| && forall i :: 0 <= i < |current| ==> current[i] == trace[at + |current| - 1 - i]
  }

  /** The iterator has come to position `at` of the trace and has not yet noticed an end. */
  ghost predicate StandsAt<E, C>(m: Machine<E, C>, s: Snapshot<E, C>, trace: seq<C>, at: nat) {
    && Buffered(s.current, trace, at)
    && Emits(m, s.emulator, s.prevPc, trace, at + |s.current|)
    && !s.finished
  }

  function Reverse<C>(s: seq<C>): (r: seq<C>)
    ensures |r| == |s| && forall i :: 0 <= i < |s| ==> r[i] == s[|s| - 1 - i]
  {
    seq(|s|, i requires 0 <= i < |s| => s[|s| - 1 - i])
  }

  lemma PopBuffered<C>(current: seq<C>, trace: seq<C>, at: nat)
    requires current != [] && Buffered(current, trace, at)
    ensures current[|current| - 1] == trace[at] && Buffered(current[..|current| - 1], trace, at + 1)
  {
    var rest := current[..|current| - 1];
    forall i | 0 <= i < |rest|
      ensures rest[i] == trace[at + 1 + |rest| - 1 - i]
    {
      assert rest[i] == current[i];
    }
  }

  lemma TickBuffered<C>(cycles: seq<C>, trace: seq<C>, at: nat)
    requires at + |cycles| <= |trace| && forall i :: 0 <= i < |cycles| ==> cycles[i] == trace[at + i]
    ensures Buffered(Reverse(cycles), trace, at)
  {
  }

  function Pop<E, C>(s: Snapshot<E, C>): (Option<C>, Snapshot<E, C>)
    requires s.current != []
  {
    (Some(s.current[|s.current| - 1]), s.(current := s.current[..|s.current| - 1]))
  }

  /** What one request yields, and the iterator after it. */
  function NextOf<E, C>(m: Machine<E, C>, s: Snapshot<E, C>): (Option<C>, Snapshot<E, C>) {
    if s.current != [] then Pop(s)
    else if m.pc(s.emulator) == s.prevPc then (None, s.(finished := true))
    else
      var (e', cycles) := m.tick(s.emulator);
      var ticked := Snapshot(e', m.pc(s.emulator), Reverse(cycles), s.finished);
      if cycles == [] then (None, ticked.(finished := true)) else Pop(ticked)
  }

  /** Requests yield the trace cycle by cycle; at its end, and only then, the iterator becomes finished. */
  lemma NextFollows<E, C>(m: Machine<E, C>, s: Snapshot<E, C>, trace: seq<C>, at: nat)
    requires StandsAt(m, s, trace, at)
    ensures at == |trace| ==> NextOf(m, s).0 == None && NextOf(m, s).1.finished
    ensures at < |trace| ==> NextOf(m, s).0 == Some(trace[at]) && StandsAt(m, NextOf(m, s).1, trace, at + 1)
  {
    if s.current != [] {
      PopBuffered(s.current, trace, at);
    } else if m.pc(s.emulator) != s.prevPc && m.tick(s.emulator).1 != [] {
      var cycles := m.tick(s.emulator).1;
      TickBuffered(cycles, trace, at);
      PopBuffered(Reverse(cycles), trace, at);
    }
  }

  lemma SliceMore<C>(trace: seq<C>, from: nat, to: nat)
    requires from <= to < |trace|
    ensures trace[from..to] + [trace[to]] == trace[from..to + 1]
  {
  }

  class LazyTraceIterator<E, C> {
    const m: Machine<E, C>
    var emulator: E
    var prevPc: nat
    var current: seq<C>
    var finished: bool

    function Copy(): Snapshot<E, C>
      reads this
    {
      Snapshot(emulator, prevPc, current, finished)
    }

    constructor (m: Machine<E, C>, emulator: E)
      ensures this.m == m && Copy() == Snapshot(emulator, 0, [], false)
    {
      this.m, this.emulator, prevPc, current, finished := m, emulator, 0, [], false;
    }

    constructor Clone(m: Machine<E, C>, s: Snapshot<E, C>)
      ensures this.m == m && Copy() == s
    {
      this.m, emulator, prevPc, current, finished := m, s.emulator, s.prevPc, s.current, s.finished;
    }

    /** One tick, unless the program counter has stopped. */
    method StepEmulator() returns (cycles: seq<C>)
      modifies this
      ensures current == old(current) && finished == old(finished)
      ensures old(m.pc(emulator) == prevPc) ==> cycles == [] && emulator == old(emulator) && prevPc == old(prevPc)
      ensures old(m.pc(emulator) != prevPc) ==>
                (emulator, cycles) == m.tick(old(emulator)) && prevPc == old(m.pc(emulator))
    {
      var pc := m.pc(emulator);
      cycles := [];
      if prevPc == pc {
        return;
      }
      var (e', cs) := m.tick(emulator);
      emulator, cycles := e', cs;
      prevPc := pc;
    }

    /** Hands out a buffered cycle, or else ticks the emulator once. */
    method Next() returns (r: Option<C>)
      modifies this
      ensures (r, Copy()) == NextOf(m, old(Copy()))
    {
      if current == [] {
        var cycles := StepEmulator();
        if cycles == [] {
          finished := true;
          return None;
        }
        current := Reverse(cycles);
      }
      r := Some(current[|current| - 1]);
      current := current[..|current| - 1];
    }

    /** The same for an iterator that stands in its trace. */
    method NextAt(ghost trace: seq<C>, ghost at: nat) returns (r: Option<C>)
      requires StandsAt(m, Copy(), trace, at)
      modifies this
      ensures at == |trace| ==> r == None && finished
      ensures at < |trace| ==> r == Some(trace[at]) && StandsAt(m, Copy(), trace, at + 1)
    {
      NextFollows(m, Copy(), trace, at);
      r := Next();
    }

    /** Skips up to `n` cycles; the iterator notices the end only by asking for one more. */
    method Dropping(n: nat, ghost trace: seq<C>, ghost at: nat)
      requires StandsAt(m, Copy(), trace, at) && at <= |trace|
      modifies this
      ensures finished <==> |trace| - at < n
      ensures !finished ==> StandsAt(m, Copy(), trace, at + n)
    {
      for i := 0 to n
        invariant at + i <= |trace| && StandsAt(m, Copy(), trace, at + i)
      {
        var r := NextAt(trace, at + i);
        if r.None? {
          return;
        }
      }
    }

    /** The first `n` cycles, as `take(n)` yields them. */
    method Collect(n: nat, ghost trace: seq<C>, ghost at: nat) returns (out: seq<C>)
      requires StandsAt(m, Copy(), trace, at) && at <= |trace|
      modifies this
      ensures out == trace[at..Min(at + n, |trace|)]
    {
      out := [];
      for i := 0 to n
        invariant at + i <= |trace| && StandsAt(m, Copy(), trace, at + i) && out == trace[at..at + i]
      {
        var r := NextAt(trace, at + i);
        if r.None? {
          return;
        }
        SliceMore(trace, at, at + i);
        out := out + [r.value];
      }
    }
  }

  // -------------------------------------------------------------------------
  // Checkpoints
  // -------------------------------------------------------------------------

  /** Each checkpoint stands at its place. */
  ghost predicate Placed<E, C>(m: Machine<E, C>, cs: seq<Snapshot<E, C>>, places: seq<nat>, trace: seq<C>) {
    |places| == |cs| && forall i :: 0 <= i < |cs| ==> places[i] <= |trace| && StandsAt(m, cs[i], trace, places[i])
  }

  lemma PlacedMore<E, C>(
      m: Machine<E, C>, cs: seq<Snapshot<E, C>>, places: seq<nat>, trace: seq<C>, s: Snapshot<E, C>, at: nat)
    requires Placed(m, cs, places, trace) && at <= |trace| && StandsAt(m, s, trace, at)
    ensures Placed(m, cs + [s], places + [at], trace)
  {
  }

  /** The places are `0, n, 2n, ...`. */
  ghost predicate Multiples(places: seq<nat>, n: nat) {
    forall i: nat :: i < |places| ==> places[i] == i * n
  }

  /** The places are one interval apart, the next one being `at`. */
  ghost predicate Spaced(places: seq<nat>, n: nat, at: nat) {
    if places == [] then at == 0
    else at == places[|places| - 1] + n && Spaced(places[..|places| - 1], n, places[|places| - 1])
  }

  lemma SpacedNext(places: seq<nat>, n: nat, at: nat)
    requires Spaced(places, n, at)
    ensures Spaced(places + [at], n, at + n)
  {
    assert (places + [at])[..|places|] == places;
  }

  lemma {:induction false} SpacedMultiples(places: seq<nat>, n: nat, at: nat)
    requires Spaced(places, n, at)
    ensures Multiples(places, n) && at == |places| * n
  {
    if places != [] {
      var k := |places| - 1;
      SpacedMultiples(places[..k], n, places[k]);
      Distribute(k, 1, n);
      assert forall i: nat :: i < k ==> places[i] == places[..k][i];
    }
  }

  /**
    Runs the program once and leaves a checkpoint every `n` cycles.  For a trace
    of length `L` there are `L / n + 1` checkpoints, and the one numbered `i`
    stands at cycle `i * n`.
   */
  method TraceCheckpoints<E, C>(m: Machine<E, C>, e: E, n: nat, ghost trace: seq<C>)
    returns (cs: seq<Snapshot<E, C>>, ghost places: seq<nat>)
    requires 0 < n && Emits(m, e, 0, trace, 0)
    ensures |cs| == |trace| / n + 1
    ensures Placed(m, cs, places, trace) && Multiples(places, n)
  {
    var it := new LazyTraceIterator(m, e);
    cs, places := [], [];
    ghost var at: nat := 0;
    while true
      invariant fresh(it) && it.m == m && at <= |trace| && StandsAt(m, it.Copy(), trace, at)
      invariant Placed(m, cs, places, trace) && Spaced(places, n, at)
      decreases |trace| - at
    {
      PlacedMore(m, cs, places, trace, it.Copy(), at);
      SpacedNext(places, n, at);
      cs, places := cs + [it.Copy()], places + [at];
      it.Dropping(n, trace, at);
      if it.finished {
        break;
      }
      at := at + n;
    }
    AllPlaced(|trace|, n, places, at);
  }

  lemma CountOf(len: nat, n: nat, i: nat, at: nat)
    requires 0 < n && at + n == (i + 1) * n && at <= len < at + n
    ensures len / n == i
  {
    Distribute(i, 1, n);
    RowOf(i, len - at, n);
  }

  lemma AllPlaced(len: nat, n: nat, places: seq<nat>, at: nat)
    requires 0 < n && places != [] && Spaced(places, n, at + n) && at <= len < at + n
    ensures Multiples(places, n) && |places| == len / n + 1
  {
    SpacedMultiples(places, n, at + n);
    CountOf(len, n, |places| - 1, at);
  }

  /** Replaying checkpoint `i` for `n` cycles yields its part of the full trace. */
  method Replay<E, C>(
      m: Machine<E, C>, cs: seq<Snapshot<E, C>>, ghost places: seq<nat>, i: nat, n: nat, ghost trace: seq<C>)
    returns (out: seq<C>)
    requires i < |cs| && Placed(m, cs, places, trace) && Multiples(places, n)
    ensures 0 <= i * n <= |trace| && out == trace[i * n..Min(i * n + n, |trace|)]
  {
    assert places[i] == i * n;
    var it := new LazyTraceIterator.Clone(m, cs[i]);
    out := it.Collect(n, trace, places[i]);
  }

  // -------------------------------------------------------------------------
  // The whole program
  // -------------------------------------------------------------------------

  /** The program ends within `n` ticks. */
  predicate Halts<E, C>(m: Machine<E, C>, e: E, prevPc: nat, n: nat)
    decreases n
  {
    m.pc(e) == prevPc || (n > 0 && Halts(m, m.tick(e).0, m.pc(e), n - 1))
  }

  /** All the cycles of the program. */
  function Cycles<E, C>(m: Machine<E, C>, e: E, prevPc: nat, n: nat): seq<C>
    requires Halts(m, e, prevPc, n)
    decreases n
  {
    if m.pc(e) == prevPc then [] else m.tick(e).1 + Cycles(m, m.tick(e).0, m.pc(e), n - 1)
  }

  /** The cycles before the first tick that has none. */
  function Yields<E, C>(m: Machine<E, C>, e: E, prevPc: nat, n: nat): seq<C>
    requires Halts(m, e, prevPc, n)
    decreases n
  {
    if m.pc(e) == prevPc || m.tick(e).1 == [] then []
    else m.tick(e).1 + Yields(m, m.tick(e).0, m.pc(e), n - 1)
  }

  /** No tick up to the end of the program emits a cycle. */
  predicate Silent<E, C>(m: Machine<E, C>, e: E, prevPc: nat, n: nat)
    decreases n
  {
    m.pc(e) == prevPc || (n > 0 && m.tick(e).1 == [] && Silent(m, m.tick(e).0, m.pc(e), n - 1))
  }

  /** After the first tick without a cycle there are only such ticks. */
  predicate Unbroken<E, C>(m: Machine<E, C>, e: E, prevPc: nat, n: nat)
    decreases n
  {
    || m.pc(e) == prevPc
    || (n > 0 && if m.tick(e).1 == [] then Silent(m, m.tick(e).0, m.pc(e), n - 1)
                 else Unbroken(m, m.tick(e).0, m.pc(e), n - 1))
  }

  lemma {:induction false} YieldsEmits<E, C>(m: Machine<E, C>, e: E, prevPc: nat, n: nat, before: seq<C>)
    requires Halts(m, e, prevPc, n)
    ensures Emits(m, e, prevPc, before + Yields(m, e, prevPc, n), |before|)
    decreases n
  {
    if m.pc(e) != prevPc && m.tick(e).1 != [] {
      var (e', cycles) := m.tick(e);
      YieldsEmits(m, e', m.pc(e), n - 1, before + cycles);
      assert before + cycles + Yields(m, e', m.pc(e), n - 1) == before + Yields(m, e, prevPc, n);
    }
  }

  lemma {:induction false} SilentIsEmpty<E, C>(m: Machine<E, C>, e: E, prevPc: nat, n: nat)
    requires Halts(m, e, prevPc, n)
    ensures Silent(m, e, prevPc, n) <==> Cycles(m, e, prevPc, n) == []
    decreases n
  {
    if m.pc(e) != prevPc {
      SilentIsEmpty(m, m.tick(e).0, m.pc(e), n - 1);
    }
  }

  lemma SamePrefix<C>(a: seq<C>, b: seq<C>, c: seq<C>)
    ensures b <= c ==> a + b <= a + c
    ensures a + b == a + c <==> b == c
  {
    assert (a + b)[|a|..] == b && (a + c)[|a|..] == c;
  }

  /**
    The iterator's trace is always a beginning of the program's, and all of it
    exactly if no cycle comes after a tick without one.
   */
  lemma {:induction false} WholeTrace<E, C>(m: Machine<E, C>, e: E, prevPc: nat, n: nat)
    requires Halts(m, e, prevPc, n)
    ensures Emits(m, e, prevPc, Yields(m, e, prevPc, n), 0)
    ensures Yields(m, e, prevPc, n) <= Cycles(m, e, prevPc, n)
    ensures Yields(m, e, prevPc, n) == Cycles(m, e, prevPc, n) <==> Unbroken(m, e, prevPc, n)
    decreases n
  {
    YieldsEmits(m, e, prevPc, n, []);
    assert [] + Yields(m, e, prevPc, n) == Yields(m, e, prevPc, n);
    if m.pc(e) != prevPc {
      var (e', cycles) := m.tick(e);
      if cycles == [] {
        SilentIsEmpty(m, e', m.pc(e), n - 1);
      } else {
        WholeTrace(m, e', m.pc(e), n - 1);
        SamePrefix(cycles, Yields(m, e', m.pc(e), n - 1), Cycles(m, e', m.pc(e), n - 1));
      }
    }
  }

  /** A tick without a cycle, such as a trap on fetching, hides the cycles after it. */
  lemma SilentTickHides()
    ensures exists m: Machine<int, int> ::
      Halts(m, 0, 0, 3) && Yields(m, 0, 0, 3) == [7] && Cycles(m, 0, 0, 3) == [7, 8]
  {
    var m := Machine((e: int) => if 0 <= e < 3 then e + 1 else 3,
                     (e: int) => (e + 1, if e == 0 then [7] else if e == 1 then [] else [8]));
    assert Halts(m, 3, 3, 0) && Cycles(m, 3, 3, 0) == [];
    assert Cycles(m, 2, 2, 1) == [8] + [] == [8];
    assert Cycles(m, 1, 1, 2) == [] + [8] == [8];
    assert Yields(m, 1, 1, 2) == [];
    assert Yields(m, 0, 0, 3) == [7] + [] && Cycles(m, 0, 0, 3) == [7] + [8];
  }
}
