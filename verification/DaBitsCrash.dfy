/**
  Crash points of a daBit pool at P0 and P2.

  The stored file is read and zeroed in place and grows at its end, total and
  cursor live in memory and in the meta file.  A take reads, advances the cursor,
  persists it, zeroes what it read and only then returns; a crash at any point
  loses the memory and the pool is loaded again from disk.
 */
module DaBitsCrash {
  import opened EdaBitsSpec
  import opened DaBitsSpec
  import opened DaBits
  import opened Positions

  /** How far the running take has come. */
  datatype Phase =
    | Idle
    | HaveRead(n: nat, rows: seq<Row>)
    | Advanced(n: nat, rows: seq<Row>)
    | Zeroing(n: nat, rows: seq<Row>, done: nat)

  /** A batch that reached the caller. */
  datatype Handed = Handed(start: nat, rows: seq<Row>)

  /** What is on disk, which item each row of the file belongs to, what is in memory, and what was returned. */
  datatype State = State(savedTotal: nat, savedCursor: nat, file: seq<Row>, held: seq<nat>,
                         total: nat, cursor: nat, phase: Phase, handed: seq<Handed>)

  /** `PersistFails` is the step at which writing the cursor fails, which the code ignores. */
  datatype Action = Take(n: nat) | Continue | PersistFails | Extend(n: nat) | Save | Crash

  function Step(d: Items, party: PartyId, s: State, a: Action): State {
    match a
    case Crash => s.(total := s.savedTotal, cursor := s.savedCursor, phase := Idle)
    case Take(n) =>
      if s.phase.Idle? && s.cursor + n <= s.total <= |s.file| then
        s.(phase := HaveRead(n, s.file[s.cursor..s.cursor + n]))
      else s
    case Extend(n) =>
      if s.phase.Idle? then
        s.(file := s.file + StoredRows(d, party, s.total, n), held := s.held + Range(s.total, n), total := s.total + n)
      else s
    case Save => if s.phase.Idle? then s.(savedTotal := s.total, savedCursor := s.cursor) else s
    case PersistFails =>
      if s.phase.Advanced? then s.(phase := Zeroing(s.phase.n, s.phase.rows, 0)) else s
    case Continue =>
      match s.phase
      case Idle => s
      case HaveRead(n, rows) => s.(cursor := s.cursor + n, phase := Advanced(n, rows))
      case Advanced(n, rows) => s.(savedCursor := s.cursor, phase := Zeroing(n, rows, 0))
      case Zeroing(n, rows, done) =>
        if done < n <= s.cursor && s.cursor - n + done < |s.file| then
          s.(file := s.file[s.cursor - n + done := ZeroRowOf(party)], phase := Zeroing(n, rows, done + 1))
        else if n <= s.cursor then
          s.(phase := Idle, handed := s.handed + [Handed(s.cursor - n, rows)])
        else s
  }

  function Run(d: Items, party: PartyId, s: State, acts: seq<Action>): State
    decreases |acts|
  {
    if acts == [] then s else Run(d, party, Step(d, party, s, acts[0]), acts[1..])
  }

  // -------------------------------------------------------------------------
  // Safety at every crash point
  // -------------------------------------------------------------------------

  /** The rows of the items in positions `start .. start + n`. */
  function HeldRows(d: Items, party: PartyId, held: seq<nat>, start: nat, n: nat): (rows: seq<Row>)
    ensures |rows| == n && forall i :: 0 <= i < n ==> rows[i] == StoredRow(d, party, ItemAt(held, start + i))
  {
    seq(n, i requires 0 <= i < n => StoredRow(d, party, ItemAt(held, start + i)))
  }

  /** The batch holds the rows of its positions, and ends at or before `limit`. */
  ghost predicate Genuine(d: Items, party: PartyId, held: seq<nat>, h: Handed, limit: nat) {
    h.start + |h.rows| <= limit <= |held| && h.rows == HeldRows(d, party, held, h.start, |h.rows|)
  }

  /** Batches reach the caller in order of position, none overlapping another. */
  ghost predicate InOrder(hs: seq<Handed>) {
    forall i, j :: 0 <= i < j < |hs| ==> hs[i].start + |hs[i].rows| <= hs[j].start
  }

  ghost predicate AllGenuine(d: Items, party: PartyId, held: seq<nat>, hs: seq<Handed>, limit: nat) {
    forall i :: 0 <= i < |hs| ==> Genuine(d, party, held, hs[i], limit)
  }

  /** The batch in flight. */
  ghost predicate InFlight(d: Items, party: PartyId, s: State, start: nat, n: nat, rows: seq<Row>) {
    |rows| == n && Genuine(d, party, s.held, Handed(start, rows), |s.file|)
    && forall i :: 0 <= i < |s.handed| ==> s.handed[i].start + |s.handed[i].rows| <= start
  }

  ghost predicate Safe(d: Items, party: PartyId, s: State) {
    && s.savedCursor <= |s.file| && s.cursor <= |s.file| && s.total <= |s.file| && s.savedTotal <= |s.file|
    && Holds(d, party, s.file, s.held, s.savedCursor)
    && AllGenuine(d, party, s.held, s.handed, s.savedCursor) && InOrder(s.handed)
    && match s.phase
       case Idle => s.cursor == s.savedCursor
       case HaveRead(n, rows) =>
         s.cursor == s.savedCursor && InFlight(d, party, s, s.cursor, n, rows)
       case Advanced(n, rows) =>
         s.cursor == s.savedCursor + n && InFlight(d, party, s, s.savedCursor, n, rows)
       case Zeroing(n, rows, done) =>
         s.cursor == s.savedCursor && n <= s.cursor && InFlight(d, party, s, s.cursor - n, n, rows)
  }

  lemma SliceIsHeld(d: Items, party: PartyId, file: seq<Row>, held: seq<nat>, lo: nat, start: nat, n: nat)
    requires Holds(d, party, file, held, lo) && lo <= start && start + n <= |file|
    ensures file[start..start + n] == HeldRows(d, party, held, start, n)
  {
  }

  lemma ReadSafe(d: Items, party: PartyId, s: State, n: nat)
    requires Safe(d, party, s)
    ensures Safe(d, party, Step(d, party, s, Take(n)))
  {
    if s.phase.Idle? && s.cursor + n <= s.total <= |s.file| {
      SliceIsHeld(d, party, s.file, s.held, s.savedCursor, s.cursor, n);
    }
  }

  lemma ZeroSafe(d: Items, party: PartyId, s: State)
    requires Safe(d, party, s) && s.phase.Zeroing?
    ensures Safe(d, party, Step(d, party, s, Continue))
  {
    var t := Step(d, party, s, Continue);
    if s.phase.done < s.phase.n {
      assert forall i :: s.savedCursor <= i < |s.file| ==> t.file[i] == s.file[i];
    } else {
      forall i | 0 <= i < |t.handed|
        ensures Genuine(d, party, t.held, t.handed[i], t.savedCursor)
      {
        assert i < |s.handed| ==> t.handed[i] == s.handed[i];
      }
    }
  }

  /** What was returned stays genuine while the file grows. */
  lemma GenuineStays(d: Items, party: PartyId, held: seq<nat>, more: seq<nat>, h: Handed, limit: nat)
    requires Genuine(d, party, held, h, limit)
    ensures Genuine(d, party, held + more, h, limit)
  {
    assert HeldRows(d, party, held + more, h.start, |h.rows|) == HeldRows(d, party, held, h.start, |h.rows|);
  }

  lemma ExtendSafe(d: Items, party: PartyId, s: State, n: nat)
    requires Safe(d, party, s) && s.phase.Idle?
    ensures Safe(d, party, Step(d, party, s, Extend(n)))
  {
    HoldsMore(d, party, s.file, s.held, s.savedCursor, s.total, n);
    forall i | 0 <= i < |s.handed|
      ensures Genuine(d, party, s.held + Range(s.total, n), s.handed[i], s.savedCursor)
    {
      GenuineStays(d, party, s.held, Range(s.total, n), s.handed[i], s.savedCursor);
    }
  }

  lemma StepSafe(d: Items, party: PartyId, s: State, a: Action)
    requires Safe(d, party, s) && a != PersistFails
    ensures Safe(d, party, Step(d, party, s, a))
  {
    if a.Take? {
      ReadSafe(d, party, s, a.n);
    } else if a.Extend? && s.phase.Idle? {
      ExtendSafe(d, party, s, a.n);
    } else if a.Continue? && s.phase.Zeroing? {
      ZeroSafe(d, party, s);
    }
  }

  /**
    Whatever the takes, extensions and saves and wherever the crashes: the
    persisted cursor is at or past every position returned, everything stored
    from it on is intact, every batch returned holds the rows of its positions,
    and no position is returned twice.
   */
  lemma {:induction false} RunSafe(d: Items, party: PartyId, s: State, acts: seq<Action>)
    requires Safe(d, party, s) && PersistFails !in acts
    ensures Safe(d, party, Run(d, party, s, acts))
    decreases |acts|
  {
    if acts != [] {
      StepSafe(d, party, s, acts[0]);
      RunSafe(d, party, Step(d, party, s, acts[0]), acts[1..]);
    }
  }

  lemma NothingTwice(d: Items, party: PartyId, s: State, acts: seq<Action>, i: nat, j: nat, x: nat)
    requires Safe(d, party, s) && PersistFails !in acts
    requires var hs := Run(d, party, s, acts).handed; i < j < |hs| && hs[i].start <= x < hs[i].start + |hs[i].rows|
    ensures !(Run(d, party, s, acts).handed[j].start <= x)
  {
    RunSafe(d, party, s, acts);
  }

  // -------------------------------------------------------------------------
  // Extensions in their places
  // -------------------------------------------------------------------------

  /** No crash brings back a total below the file's length that is then extended. */
  predicate Flush(d: Items, party: PartyId, s: State, acts: seq<Action>)
    decreases |acts|
  {
    acts != [] ==>
      && (acts[0].Extend? && s.phase.Idle? ==> |s.file| == s.total)
      && Flush(d, party, Step(d, party, s, acts[0]), acts[1..])
  }

  lemma {:induction false} FlushStaysStraight(d: Items, party: PartyId, s: State, acts: seq<Action>)
    requires Straight(s.held) && |s.held| == |s.file| && Flush(d, party, s, acts)
    ensures Straight(Run(d, party, s, acts).held)
    decreases |acts|
  {
    if acts != [] {
      FlushStaysStraight(d, party, Step(d, party, s, acts[0]), acts[1..]);
    }
  }

  lemma StraightRows(d: Items, party: PartyId, held: seq<nat>, start: nat, n: nat)
    requires Straight(held)
    ensures HeldRows(d, party, held, start, n) == StoredRows(d, party, start, n)
  {
  }

  /** Then every batch returned holds the rows of its own items. */
  lemma ReturnedInPlace(d: Items, party: PartyId, s: State, acts: seq<Action>, i: nat)
    requires Safe(d, party, s) && Straight(s.held) && PersistFails !in acts && Flush(d, party, s, acts)
    requires i < |Run(d, party, s, acts).handed|
    ensures var h := Run(d, party, s, acts).handed[i]; h.rows == StoredRows(d, party, h.start, |h.rows|)
  {
    RunSafe(d, party, s, acts);
    FlushStaysStraight(d, party, s, acts);
    var t := Run(d, party, s, acts);
    assert Genuine(d, party, t.held, t.handed[i], t.savedCursor);
    StraightRows(d, party, t.held, t.handed[i].start, |t.handed[i].rows|);
  }

  /** Extended, crashed before the save, extended again: the second extension is not where it is read. */
  lemma LostExtensionShifts(d: Items, party: PartyId, s: State, a: nat, b: nat)
    requires Safe(d, party, s) && Straight(s.held) && s.phase.Idle?
    requires |s.file| == s.total == s.savedTotal && 0 < a < b
    ensures var t := Run(d, party, s, [Extend(a), Crash, Extend(b)]);
            t.total == s.total + b && forall i :: s.total + a <= i < t.total ==> ItemAt(t.held, i) == i - a
  {
    var acts := [Extend(a), Crash, Extend(b)];
    var s1 := Step(d, party, s, acts[0]);
    var s2 := Step(d, party, s1, acts[1]);
    var s3 := Step(d, party, s2, acts[2]);
    assert acts[1..][1..][1..] == [];
    assert Run(d, party, s, acts) == Run(d, party, s1, acts[1..]) == Run(d, party, s2, acts[1..][1..]) == s3;
    assert s3.held == s.held + Range(s.total, a) + Range(s.total, b);
  }

  // -------------------------------------------------------------------------
  // An undisturbed take
  // -------------------------------------------------------------------------

  /** Zeroing the remaining rows and returning, without a crash. */
  function Finish(n: nat): seq<Action> {
    seq(n + 1, _ => Continue)
  }

  lemma ZeroOneMore(party: PartyId, file: seq<Row>, i: nat, end: nat)
    requires i < end <= |file|
    ensures ZeroRange(party, file[i := ZeroRowOf(party)], i + 1, end) == ZeroRange(party, file, i, end)
  {
  }

  lemma {:induction false} FinishReturns(d: Items, party: PartyId, s: State)
    requires s.phase.Zeroing? && s.phase.done <= s.phase.n <= s.cursor <= |s.file|
    ensures var t := Run(d, party, s, Finish(s.phase.n - s.phase.done));
            t.phase.Idle? && t.cursor == s.cursor && t.savedCursor == s.savedCursor
            && t.handed == s.handed + [Handed(s.cursor - s.phase.n, s.phase.rows)]
            && t.file == ZeroRange(party, s.file, s.cursor - s.phase.n + s.phase.done, s.cursor)
    decreases s.phase.n - s.phase.done
  {
    var acts := Finish(s.phase.n - s.phase.done);
    var t := Step(d, party, s, Continue);
    if s.phase.done < s.phase.n {
      assert acts[1..] == Finish(s.phase.n - t.phase.done);
      FinishReturns(d, party, t);
      ZeroOneMore(party, s.file, s.cursor - s.phase.n + s.phase.done, s.cursor);
    } else {
      assert acts[1..] == [];
      assert ZeroRange(party, s.file, s.cursor, s.cursor) == s.file;
    }
  }

  /** A take left undisturbed, whose cursor write succeeds or not. */
  function TakeActions(n: nat, persisted: bool): seq<Action> {
    [Take(n), Continue, if persisted then Continue else PersistFails] + Finish(n)
  }

  lemma RunFirst(d: Items, party: PartyId, s: State, a: Action, rest: seq<Action>)
    ensures Run(d, party, s, [a] + rest) == Run(d, party, Step(d, party, s, a), rest)
  {
    assert ([a] + rest)[1..] == rest;
  }

  lemma RunThree(d: Items, party: PartyId, s: State, a: Action, b: Action, c: Action, rest: seq<Action>)
    ensures Run(d, party, s, [a, b, c] + rest)
         == Run(d, party, Step(d, party, Step(d, party, Step(d, party, s, a), b), c), rest)
  {
    RunFirst(d, party, s, a, [b, c] + rest);
    RunFirst(d, party, Step(d, party, s, a), b, [c] + rest);
    RunFirst(d, party, Step(d, party, Step(d, party, s, a), b), c, rest);
    assert [a] + ([b, c] + rest) == [a, b, c] + rest;
    assert [b] + ([c] + rest) == [b, c] + rest;
  }

  /**
    An undisturbed take has the effect of `LazyDaBits.TakeBatch`.  The assumption
    that the cursor write succeeds is exactly what is needed: after a completed
    take of at least one item the persisted cursor covers the items returned if
    and only if it did.
   */
  lemma PersistIsNeeded(d: Items, party: PartyId, s: State, n: nat, persisted: bool)
    requires Safe(d, party, s) && s.phase.Idle? && 0 < n && s.cursor + n <= s.total
    ensures var t := Run(d, party, s, TakeActions(n, persisted));
            t.cursor == s.cursor + n
            && t.handed == s.handed + [Handed(s.cursor, HeldRows(d, party, s.held, s.cursor, n))]
            && t.file == ZeroRange(party, s.file, s.cursor, s.cursor + n)
            && (s.cursor + n <= t.savedCursor <==> persisted)
  {
    var third := if persisted then Continue else PersistFails;
    SliceIsHeld(d, party, s.file, s.held, s.savedCursor, s.cursor, n);
    RunThree(d, party, s, Take(n), Continue, third, Finish(n));
    FinishReturns(d, party, Step(d, party, Step(d, party, Step(d, party, s, Take(n)), Continue), third));
  }
}
