/**
  Crash points of an edaBit take at P2.

  Unlike a daBit take, an edaBit take zeroes what it read before it advances and
  persists the cursor.  A crash in between brings back a cursor that points at
  zeroed rows.
 */
module EdaBitsCrash {
  import opened EdaBits
  import opened EdaBitsPool

  /** How far the running take has come; zeroing goes row by row. */
  datatype Phase =
    | Idle
    | Zeroing(n: nat, rows: seq<Row>, done: nat)
    | Advanced(n: nat, rows: seq<Row>)
    | Persisted(n: nat, rows: seq<Row>)

  /** A batch that reached the caller. */
  datatype Handed = Handed(start: nat, rows: seq<Row>)

  datatype State = State(savedCursor: nat, file: seq<Row>, cursor: nat, phase: Phase, handed: seq<Handed>)

  datatype Action = Take(n: nat) | Continue | Crash

  function Step(zero: Row, s: State, a: Action): State {
    match a
    case Crash => s.(cursor := s.savedCursor, phase := Idle)
    case Take(n) =>
      if s.phase.Idle? && s.cursor + n <= |s.file| then
        s.(phase := Zeroing(n, s.file[s.cursor..s.cursor + n], 0))
      else s
    case Continue =>
      match s.phase
      case Idle => s
      case Zeroing(n, rows, done) =>
        if done < n && s.cursor + done < |s.file| then
          s.(file := s.file[s.cursor + done := zero], phase := Zeroing(n, rows, done + 1))
        else s.(cursor := s.cursor + n, phase := Advanced(n, rows))
      case Advanced(n, rows) => s.(savedCursor := s.cursor, phase := Persisted(n, rows))
      case Persisted(n, rows) =>
        if n <= s.cursor then s.(phase := Idle, handed := s.handed + [Handed(s.cursor - n, rows)]) else s
  }

  function Run(zero: Row, s: State, acts: seq<Action>): State
    decreases |acts|
  {
    if acts == [] then s else Run(zero, Step(zero, s, acts[0]), acts[1..])
  }

  // -------------------------------------------------------------------------
  // What every run keeps
  // -------------------------------------------------------------------------

  /** Rows the running take has zeroed while the persisted cursor still points before them. */
  function Dirty(s: State): nat {
    match s.phase
    case Zeroing(n, rows, done) => done
    case Advanced(n, rows) => n
    case _ => 0
  }

  ghost predicate InOrder(hs: seq<Handed>) {
    forall i, j :: 0 <= i < j < |hs| ==> hs[i].start + |hs[i].rows| <= hs[j].start
  }

  /** The batches returned end at or before `limit`. */
  ghost predicate EndBy(hs: seq<Handed>, limit: nat) {
    forall i :: 0 <= i < |hs| ==> hs[i].start + |hs[i].rows| <= limit
  }

  /** The bookkeeping, whatever the rows are. */
  ghost predicate Orderly(s: State) {
    && s.savedCursor <= |s.file| && s.cursor <= |s.file| && InOrder(s.handed)
    && match s.phase
       case Idle => s.cursor == s.savedCursor && EndBy(s.handed, s.savedCursor)
       case Zeroing(n, rows, done) =>
         && s.cursor == s.savedCursor && s.cursor + n <= |s.file| && done <= n == |rows|
         && EndBy(s.handed, s.savedCursor)
       case Advanced(n, rows) => s.cursor == s.savedCursor + n && |rows| == n && EndBy(s.handed, s.savedCursor)
       case Persisted(n, rows) =>
         s.cursor == s.savedCursor && n == |rows| <= s.cursor && EndBy(s.handed, s.cursor - n)
  }

  lemma StepOrderly(zero: Row, s: State, a: Action)
    requires Orderly(s)
    ensures Orderly(Step(zero, s, a))
  {
  }

  /** In every run, wherever it crashes, no position is returned twice. */
  lemma {:induction false} NothingTwice(zero: Row, s: State, acts: seq<Action>)
    requires Orderly(s)
    ensures Orderly(Run(zero, s, acts)) && InOrder(Run(zero, s, acts).handed)
    decreases |acts|
  {
    if acts != [] {
      StepOrderly(zero, s, acts[0]);
      NothingTwice(zero, Step(zero, s, acts[0]), acts[1..]);
    }
  }

  // -------------------------------------------------------------------------
  // When a crash is harmless
  // -------------------------------------------------------------------------

  /** The rows from the persisted cursor on are intact, but for those the running take has zeroed. */
  ghost predicate IntactBut(src: Source, zero: Row, s: State) {
    forall i :: s.savedCursor <= i < |s.file| ==>
      s.file[i] == if i < s.savedCursor + Dirty(s) then zero else src.rowAt(i)
  }

  ghost predicate Genuine(src: Source, h: Handed) {
    h.rows == src.EagerRows(h.start, |h.rows|)
  }

  /** The batch in flight. */
  ghost predicate InFlight(src: Source, s: State) {
    match s.phase
    case Idle => true
    case Zeroing(n, rows, done) => rows == src.EagerRows(s.cursor, n)
    case Advanced(n, rows) => rows == src.EagerRows(s.savedCursor, n)
    case Persisted(n, rows) => n <= s.cursor && rows == src.EagerRows(s.cursor - n, n)
  }

  ghost predicate Safe(src: Source, zero: Row, s: State) {
    && Orderly(s) && IntactBut(src, zero, s) && InFlight(src, s)
    && forall i :: 0 <= i < |s.handed| ==> Genuine(src, s.handed[i])
  }

  /** A crash brings back a safe pool if and only if no zeroed row differs from zero. */
  lemma CrashSafeIff(src: Source, zero: Row, s: State)
    requires Safe(src, zero, s)
    ensures Safe(src, zero, Step(zero, s, Crash))
       <==> forall i :: s.savedCursor <= i < s.savedCursor + Dirty(s) ==> src.rowAt(i) == zero
  {
    var t := Step(zero, s, Crash);
    if Safe(src, zero, t) {
      forall i | s.savedCursor <= i < s.savedCursor + Dirty(s)
        ensures src.rowAt(i) == zero
      {
        assert t.file[i] == src.rowAt(i) && s.file[i] == zero;
      }
    }
  }

  lemma TakeSafe(src: Source, zero: Row, s: State, n: nat)
    requires Safe(src, zero, s)
    ensures Safe(src, zero, Step(zero, s, Take(n)))
  {
    if s.phase.Idle? && s.cursor + n <= |s.file| {
      assert s.file[s.cursor..s.cursor + n] == src.EagerRows(s.cursor, n);
    }
  }

  lemma ContinueSafe(src: Source, zero: Row, s: State)
    requires Safe(src, zero, s)
    ensures Safe(src, zero, Step(zero, s, Continue))
  {
    var t := Step(zero, s, Continue);
    StepOrderly(zero, s, Continue);
    if s.phase.Zeroing? && s.phase.done < s.phase.n {
      assert t.file[s.cursor + s.phase.done] == zero;
    }
  }

  /** No crash comes between the first zeroed row of a take and its cursor write. */
  predicate CleanCrashes(zero: Row, s: State, acts: seq<Action>)
    decreases |acts|
  {
    acts != [] ==> (acts[0].Crash? ==> Dirty(s) == 0) && CleanCrashes(zero, Step(zero, s, acts[0]), acts[1..])
  }

  /**
    Whatever the takes: as long as no crash comes between zeroing and persisting,
    every batch returned is genuine and everything from the persisted cursor on
    is intact.
   */
  lemma {:induction false} RunSafe(src: Source, zero: Row, s: State, acts: seq<Action>)
    requires Safe(src, zero, s) && CleanCrashes(zero, s, acts)
    ensures Safe(src, zero, Run(zero, s, acts))
    decreases |acts|
  {
    if acts != [] {
      match acts[0] {
        case Crash => CrashSafeIff(src, zero, s);
        case Take(n) => TakeSafe(src, zero, s, n);
        case Continue => ContinueSafe(src, zero, s);
      }
      RunSafe(src, zero, Step(zero, s, acts[0]), acts[1..]);
    }
  }

  // -------------------------------------------------------------------------
  // An undisturbed take
  // -------------------------------------------------------------------------

  /** Zeroing the remaining rows, advancing, persisting and returning, without a crash. */
  function Finish(n: nat): seq<Action> {
    seq(n + 3, _ => Continue)
  }

  lemma ZeroOneMore(file: seq<Row>, zero: Row, i: nat, end: nat)
    requires i < end <= |file|
    ensures Consume(file[i := zero], zero, i + 1, end) == Consume(file, zero, i, end)
  {
  }

  lemma ThreeSteps(zero: Row, s: State)
    ensures Run(zero, s, Finish(0)) == Step(zero, Step(zero, Step(zero, s, Continue), Continue), Continue)
  {
    var acts := Finish(0);
    var s1 := Step(zero, s, Continue);
    var s2 := Step(zero, s1, Continue);
    assert acts[1..][1..][1..] == [];
    assert Run(zero, s, acts) == Run(zero, s1, acts[1..]) == Run(zero, s2, acts[1..][1..]);
  }

  lemma {:induction false} FinishReturns(zero: Row, s: State)
    requires s.phase.Zeroing? && s.phase.done <= s.phase.n && s.cursor + s.phase.n <= |s.file|
    ensures var t := Run(zero, s, Finish(s.phase.n - s.phase.done));
            t.phase.Idle? && t.cursor == t.savedCursor == s.cursor + s.phase.n
            && t.handed == s.handed + [Handed(s.cursor, s.phase.rows)]
            && t.file == Consume(s.file, zero, s.cursor + s.phase.done, s.cursor + s.phase.n)
    decreases s.phase.n - s.phase.done
  {
    var acts := Finish(s.phase.n - s.phase.done);
    var t := Step(zero, s, Continue);
    if s.phase.done < s.phase.n {
      assert acts[1..] == Finish(s.phase.n - t.phase.done);
      FinishReturns(zero, t);
      ZeroOneMore(s.file, zero, s.cursor + s.phase.done, s.cursor + s.phase.n);
    } else {
      ThreeSteps(zero, s);
    }
  }

  /** An undisturbed take has the effect of `LazyEdaBits.TakeBatch` on P2's file, cursor and caller. */
  lemma UndisturbedTake(src: Source, zero: Row, s: State, n: nat)
    requires Safe(src, zero, s) && s.phase.Idle? && s.cursor + n <= |s.file|
    ensures var t := Run(zero, s, [Take(n)] + Finish(n));
            t.phase.Idle? && t.cursor == t.savedCursor == s.cursor + n
            && t.handed == s.handed + [Handed(s.cursor, src.EagerRows(s.cursor, n))]
            && t.file == Consume(s.file, zero, s.cursor, s.cursor + n)
  {
    TakeSafe(src, zero, s, n);
    RunFirst(zero, s, Take(n), Finish(n));
    FinishReturns(zero, Step(zero, s, Take(n)));
  }

  lemma RunFirst(zero: Row, s: State, a: Action, rest: seq<Action>)
    ensures Run(zero, s, [a] + rest) == Run(zero, Step(zero, s, a), rest)
    ensures CleanCrashes(zero, s, [a] + rest) <==>
      (a.Crash? ==> Dirty(s) == 0) && CleanCrashes(zero, Step(zero, s, a), rest)
  {
    assert ([a] + rest)[1..] == rest;
  }

  /** A take of one row that crashes after zeroing, then a take that is not disturbed. */
  function CrashedTake(): seq<Action> {
    [Take(1)] + ([Continue] + ([Crash] + ([Take(1)] + Finish(1))))
  }

  /** The second take returns the zeroed row. */
  lemma CrashLosesRow(src: Source, zero: Row, s: State)
    requires Safe(src, zero, s) && s.phase.Idle? && s.cursor < |s.file| && src.rowAt(s.cursor) != zero
    ensures var t := Run(zero, s, CrashedTake());
            !CleanCrashes(zero, s, CrashedTake()) && t.handed == s.handed + [Handed(s.cursor, [zero])]
            && !Genuine(src, Handed(s.cursor, [zero]))
  {
    var s1 := Step(zero, s, Take(1));
    var s2 := Step(zero, s1, Continue);
    var s3 := Step(zero, s2, Crash);
    var s4 := Step(zero, s3, Take(1));
    RunFirst(zero, s, Take(1), [Continue] + ([Crash] + ([Take(1)] + Finish(1))));
    RunFirst(zero, s1, Continue, [Crash] + ([Take(1)] + Finish(1)));
    RunFirst(zero, s2, Crash, [Take(1)] + Finish(1));
    RunFirst(zero, s3, Take(1), Finish(1));
    assert s4.phase == Zeroing(1, [zero], 0);
    FinishReturns(zero, s4);
    assert src.EagerRows(s.cursor, 1)[0] == src.rowAt(s.cursor);
  }
}
