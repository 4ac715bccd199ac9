/**
  Whole runs of the accumulator of opening claims: registrations, mode switches,
  flushes and hand-overs in any order, starting in either mode.  An operation is
  named by its position in the run.
 */
module OpeningRuns {
  import opened Wrappers
  import opened Field
  import opened OpeningAccumulator

  datatype Op = Open(key: OpeningId, point: Point, claim: Fe) | SetMode(zk: bool) | Flush | TakePending

  function Slot(op: Op): (PolyId, Point)
    requires op.Open?
  {
    (Underlying(op.key), op.point)
  }

  /** Two registrations of one polynomial at one point. */
  predicate SameOpening(a: Op, b: Op)
    ensures SameOpening(a, b) <==> a.Open? && b.Open? && Slot(a) == Slot(b)
  {
    a.Open? && b.Open? && SamePolynomial(a.key, b.key) && a.point == b.point
  }

  /** The first registration of its polynomial at its point; at the empty point every one counts. */
  predicate First(ops: seq<Op>, i: nat)
    requires i < |ops|
  {
    ops[i].Open? && (ops[i].point == [] || forall j :: 0 <= j < i ==> !SameOpening(ops[j], ops[i]))
  }

  /** Among the first `n` operations, `m` is the last that registered `key`. */
  predicate Latest(ops: seq<Op>, n: nat, m: nat, key: OpeningId) {
    && m < n <= |ops| && ops[m].Open? && ops[m].key == key
    && forall i :: m < i < n && ops[i].Open? ==> ops[i].key != key
  }

  /** The claim differs from the one on record for the other id that first opened this polynomial at this point. */
  predicate Differs(ops: seq<Op>, i: nat, j: nat, m: nat) {
    && j < i < |ops| && ops[i].Open? && ops[i].point != []
    && First(ops, j) && SameOpening(ops[j], ops[i]) && ops[j].key != ops[i].key
    && Latest(ops, i, m, ops[j].key) && ops[m].claim != ops[i].claim
  }

  ghost predicate Contradicts(ops: seq<Op>, i: nat) {
    exists j: nat, m: nat :: Differs(ops, i, j, m)
  }

  // -------------------------------------------------------------------------
  // The tables after a part of a run
  // -------------------------------------------------------------------------

  predicate Placed(ops: seq<Op>, j: nat, slot: (PolyId, Point)) {
    j < |ops| && First(ops, j) && ops[j].point != [] && Slot(ops[j]) == slot
  }

  /** The index holds the first id for each polynomial and point, the openings the latest for each id. */
  ghost predicate Follows(t: Tables, ops: seq<Op>, n: nat) {
    && (forall j: nat, slot :: j < n && Placed(ops, j, slot) ==> slot in t.index && t.index[slot] == ops[j].key)
    && (forall slot :: slot in t.index ==> exists j: nat :: j < n && Placed(ops, j, slot))
    && (forall m: nat, k :: Latest(ops, n, m, k) ==>
          k in t.openings && t.openings[k] == Opening(ops[m].point, ops[m].claim))
    && (forall k :: k in t.openings ==> exists m: nat :: Latest(ops, n, m, k))
  }

  lemma {:induction false} HasFirst(ops: seq<Op>, i: nat) returns (j: nat)
    requires i < |ops| && ops[i].Open? && ops[i].point != []
    ensures j <= i && Placed(ops, j, Slot(ops[i])) && (First(ops, i) <==> j == i)
    decreases i
  {
    if First(ops, i) {
      j := i;
    } else {
      var k :| 0 <= k < i && SameOpening(ops[k], ops[i]);
      j := HasFirst(ops, k);
    }
  }

  lemma FirstIsUnique(ops: seq<Op>, i: nat, j: nat, slot: (PolyId, Point))
    requires Placed(ops, i, slot) && Placed(ops, j, slot)
    ensures i == j
  {
  }

  lemma {:induction false} HasLatest(ops: seq<Op>, n: nat, i: nat) returns (m: nat)
    requires i < n <= |ops| && ops[i].Open?
    ensures i <= m && Latest(ops, n, m, ops[i].key)
    decreases n - i
  {
    if j: nat :| i < j < n && ops[j].Open? && ops[j].key == ops[i].key {
      m := HasLatest(ops, n, j);
    } else {
      m := i;
    }
  }

  /** An id on record at the slot of an operation. */
  lemma SlotTaken(t: Tables, ops: seq<Op>, i: nat)
    requires i < |ops| && Follows(t, ops, i) && ops[i].Open?
    ensures Slot(ops[i]) in t.index <==> !First(ops, i)
    ensures Slot(ops[i]) in t.index ==> ops[i].point != [] && t.index[Slot(ops[i])] in t.openings
  {
    var slot := Slot(ops[i]);
    if slot in t.index {
      var j: nat :| j < i && Placed(ops, j, slot);
      assert t.index[slot] == ops[j].key;
      var m := HasLatest(ops, i, j);
    }
    if ops[i].point != [] && !First(ops, i) {
      var j := HasFirst(ops, i);
      assert Placed(ops, j, slot);
    }
  }

  /** A registration aborts exactly on a claim that contradicts the one on record. */
  lemma AbortsIff(t: Tables, ops: seq<Op>, i: nat)
    requires i < |ops| && Follows(t, ops, i) && ops[i].Open?
    ensures Register(t, ops[i].key, ops[i].point, ops[i].claim).None? <==> Contradicts(ops, i)
  {
    var slot := Slot(ops[i]);
    SlotTaken(t, ops, i);
    if slot in t.index {
      var j: nat :| j < i && Placed(ops, j, slot);
      var m := HasLatest(ops, i, j);
      assert t.index[slot] == ops[j].key && t.openings[ops[j].key] == Opening(ops[m].point, ops[m].claim);
      if t.index[slot] != ops[i].key && ops[m].claim != ops[i].claim {
        assert Differs(ops, i, j, m);
      }
    }
    if Contradicts(ops, i) {
      var j: nat, m: nat :| Differs(ops, i, j, m);
      assert Placed(ops, j, slot);
      assert t.index[slot] == ops[j].key && t.openings[ops[j].key].claim == ops[m].claim;
    }
  }

  /** A registration is new exactly when it is the first of its kind in the run. */
  lemma NewIff(t: Tables, ops: seq<Op>, i: nat)
    requires i < |ops| && Follows(t, ops, i) && ops[i].Open?
    requires Register(t, ops[i].key, ops[i].point, ops[i].claim).Some?
    ensures Register(t, ops[i].key, ops[i].point, ops[i].claim).value.isNew <==> First(ops, i)
  {
    SlotTaken(t, ops, i);
  }

  lemma LatestMoves(ops: seq<Op>, n: nat, next: nat, m: nat, k: OpeningId)
    requires n < |ops| && next == n + 1
    ensures Latest(ops, next, m, k) <==>
      if ops[n].Open? && ops[n].key == k then m == n else Latest(ops, n, m, k)
  {
  }

  lemma IndexFollows(t: Tables, index: map<(PolyId, Point), OpeningId>, ops: seq<Op>, n: nat, next: nat)
    requires n < |ops| && next == n + 1 && Follows(t, ops, n)
    requires index == if First(ops, n) && ops[n].point != [] then t.index[Slot(ops[n]) := ops[n].key] else t.index
    ensures forall j: nat, slot :: j < next && Placed(ops, j, slot) ==> slot in index && index[slot] == ops[j].key
    ensures forall slot :: slot in index ==> exists j: nat :: j < next && Placed(ops, j, slot)
  {
    forall slot | slot in index
      ensures exists j: nat :: j < next && Placed(ops, j, slot)
    {
      if slot in t.index {
        var j: nat :| j < n && Placed(ops, j, slot);
        assert j < next;
      } else {
        assert Placed(ops, n, slot);
      }
    }
    forall j: nat, slot | j < next && Placed(ops, j, slot)
      ensures slot in index && index[slot] == ops[j].key
    {
      if j < n && First(ops, n) && ops[n].point != [] && slot == Slot(ops[n]) {
        FirstIsUnique(ops, j, n, slot);
      }
    }
  }

  lemma OpeningsFollow(t: Tables, openings: map<OpeningId, Opening>, ops: seq<Op>, n: nat, next: nat)
    requires n < |ops| && next == n + 1 && Follows(t, ops, n)
    requires openings == if ops[n].Open? then t.openings[ops[n].key := Opening(ops[n].point, ops[n].claim)]
                         else t.openings
    ensures forall m: nat, k :: Latest(ops, next, m, k) ==>
              k in openings && openings[k] == Opening(ops[m].point, ops[m].claim)
    ensures forall k :: k in openings ==> exists m: nat :: Latest(ops, next, m, k)
  {
    forall m: nat, k | Latest(ops, next, m, k)
      ensures k in openings && openings[k] == Opening(ops[m].point, ops[m].claim)
    {
      LatestMoves(ops, n, next, m, k);
    }
    forall k | k in openings
      ensures exists m: nat :: Latest(ops, next, m, k)
    {
      if ops[n].Open? && ops[n].key == k {
        assert Latest(ops, next, n, k);
      } else {
        var m: nat :| Latest(ops, n, m, k);
        LatestMoves(ops, n, next, m, k);
      }
    }
  }

  lemma RegisterTables(t: Tables, ops: seq<Op>, i: nat, t': Tables)
    requires i < |ops| && Follows(t, ops, i) && ops[i].Open?
    requires Register(t, ops[i].key, ops[i].point, ops[i].claim).Some?
    requires t' == Register(t, ops[i].key, ops[i].point, ops[i].claim).value.t
    ensures t'.index == if First(ops, i) && ops[i].point != [] then t.index[Slot(ops[i]) := ops[i].key] else t.index
    ensures t'.openings == t.openings[ops[i].key := Opening(ops[i].point, ops[i].claim)]
  {
    SlotTaken(t, ops, i);
  }

  /** A registration that does not abort leaves the tables as the longer run says. */
  lemma RegisterFollows(t: Tables, ops: seq<Op>, i: nat)
    requires i < |ops| && Follows(t, ops, i) && ops[i].Open?
    requires Register(t, ops[i].key, ops[i].point, ops[i].claim).Some?
    ensures Follows(Register(t, ops[i].key, ops[i].point, ops[i].claim).value.t, ops, i + 1)
  {
    var t' := Register(t, ops[i].key, ops[i].point, ops[i].claim).value.t;
    RegisterTables(t, ops, i, t');
    IndexFollows(t, t'.index, ops, i, i + 1);
    OpeningsFollow(t, t'.openings, ops, i, i + 1);
  }

  lemma OtherFollows(t: Tables, ops: seq<Op>, i: nat)
    requires i < |ops| && Follows(t, ops, i) && !ops[i].Open?
    ensures Follows(t, ops, i + 1)
  {
    IndexFollows(t, t.index, ops, i, i + 1);
    OpeningsFollow(t, t.openings, ops, i, i + 1);
  }

  // -------------------------------------------------------------------------
  // Where the claims go
  // -------------------------------------------------------------------------

  /** The mode, and which registrations have had their claims sent, handed over, or kept. */
  datatype Log = Log(zk: bool, sent: seq<nat>, handed: seq<nat>, pending: seq<nat>)

  function Next(ops: seq<Op>, i: nat, l: Log): Log
    requires i < |ops|
  {
    match ops[i]
    case Open(_, _, _) =>
      if !First(ops, i) then l
      else if l.zk then l.(pending := l.pending + [i])
      else l.(sent := l.sent + [i])
    case SetMode(zk) => l.(zk := zk)
    case Flush => l.(sent := l.sent + l.pending, pending := [])
    case TakePending => l.(handed := l.handed + l.pending, pending := [])
  }

  predicate Steps(ops: seq<Op>, logs: seq<Log>, i: nat) {
    i < |ops| && i + 1 < |logs| && logs[i + 1] == Next(ops, i, logs[i])
  }

  /** The logs of a run: `logs[n]` is the one after the first `n` operations. */
  predicate Trace(ops: seq<Op>, zk: bool, logs: seq<Log>) {
    && 0 < |logs| <= |ops| + 1 && logs[0] == Log(zk, [], [], [])
    && forall i: nat :: i + 1 < |logs| ==> Steps(ops, logs, i)
  }

  lemma TraceMore(ops: seq<Op>, zk: bool, logs: seq<Log>)
    requires Trace(ops, zk, logs) && |logs| <= |ops|
    ensures Trace(ops, zk, logs + [Next(ops, |logs| - 1, logs[|logs| - 1])])
  {
    var more := logs + [Next(ops, |logs| - 1, logs[|logs| - 1])];
    forall i: nat | i + 1 < |more|
      ensures Steps(ops, more, i)
    {
      if i + 1 < |logs| {
        assert Steps(ops, logs, i);
      }
    }
  }

  function ClaimAt(ops: seq<Op>, i: nat): Fe {
    if i < |ops| && ops[i].Open? then ops[i].claim else Zero
  }

  function IdAt(ops: seq<Op>, i: nat): OpeningId {
    if i < |ops| && ops[i].Open? then ops[i].key else Untrusted
  }

  function Claims(ops: seq<Op>, at: seq<nat>): (r: seq<Fe>)
    ensures |r| == |at| && forall i :: 0 <= i < |at| ==> r[i] == ClaimAt(ops, at[i])
  {
    seq(|at|, i requires 0 <= i < |at| => ClaimAt(ops, at[i]))
  }

  function Ids(ops: seq<Op>, at: seq<nat>): (r: seq<OpeningId>)
    ensures |r| == |at| && forall i :: 0 <= i < |at| ==> r[i] == IdAt(ops, at[i])
  {
    seq(|at|, i requires 0 <= i < |at| => IdAt(ops, at[i]))
  }

  lemma Joins(ops: seq<Op>, a: seq<nat>, b: seq<nat>)
    ensures Claims(ops, a + b) == Claims(ops, a) + Claims(ops, b) && Ids(ops, a + b) == Ids(ops, a) + Ids(ops, b)
  {
  }

  /** The accumulator holds, and has given away, the claims of these registrations under their ids. */
  ghost predicate Matches(ops: seq<Op>, l: Log, transcript: seq<Fe>, claims: seq<Fe>, ids: seq<OpeningId>,
                          pendingClaims: seq<Fe>, pendingIds: seq<OpeningId>) {
    && transcript == Claims(ops, l.sent)
    && claims == Claims(ops, l.handed) && ids == Ids(ops, l.handed)
    && pendingClaims == Claims(ops, l.pending) && pendingIds == Ids(ops, l.pending)
  }

  // -------------------------------------------------------------------------
  // Conservation and order
  // -------------------------------------------------------------------------

  function Times(s: seq<nat>, i: nat): nat {
    multiset(s)[i]
  }

  lemma TimesJoin(a: seq<nat>, b: seq<nat>, i: nat)
    ensures Times(a + b, i) == Times(a, i) + Times(b, i)
  {
    assert multiset(a + b) == multiset(a) + multiset(b);
  }

  lemma TimesOne(at: nat, i: nat)
    ensures Times([at], i) == if i == at then 1 else 0
  {
  }

  /** How often the claim of operation `i` was sent, handed over or kept. */
  function Count(l: Log, i: nat): nat {
    Times(l.sent, i) + Times(l.handed, i) + Times(l.pending, i)
  }

  lemma CountNext(ops: seq<Op>, at: nat, l: Log, i: nat)
    requires at < |ops|
    ensures Count(Next(ops, at, l), i) == Count(l, i) + if i == at && First(ops, at) then 1 else 0
  {
    TimesOne(at, i);
    TimesJoin(l.pending, [at], i);
    TimesJoin(l.sent, [at], i);
    TimesJoin(l.sent, l.pending, i);
    TimesJoin(l.handed, l.pending, i);
  }

  /** In every run the first claims, and no others, are sent, handed over or still pending, each exactly once. */
  lemma {:induction false} Conserved(ops: seq<Op>, zk: bool, logs: seq<Log>, n: nat, i: nat)
    requires Trace(ops, zk, logs) && n < |logs|
    ensures Count(logs[n], i) == if i < n && First(ops, i) then 1 else 0
    decreases n
  {
    if n == 0 {
      CountNone(zk, i);
    } else {
      Conserved(ops, zk, logs, n - 1, i);
      CountStep(ops, logs, n - 1, i);
    }
  }

  lemma CountNone(zk: bool, i: nat)
    ensures Count(Log(zk, [], [], []), i) == 0
  {
  }

  lemma CountStep(ops: seq<Op>, logs: seq<Log>, at: nat, i: nat)
    requires Steps(ops, logs, at)
    ensures Count(logs[at + 1], i) == Count(logs[at], i) + if i == at && First(ops, at) then 1 else 0
  {
    CountNext(ops, at, logs[at], i);
  }

  predicate Increasing(s: seq<nat>) {
    forall i, j :: 0 <= i < j < |s| ==> s[i] < s[j]
  }

  predicate Below(s: seq<nat>, n: nat) {
    forall i :: 0 <= i < |s| ==> s[i] < n
  }

  lemma {:induction false} PastOnly(ops: seq<Op>, zk: bool, logs: seq<Log>, n: nat)
    requires Trace(ops, zk, logs) && n < |logs|
    ensures var l := logs[n]; Below(l.sent, n) && Below(l.handed, n) && Below(l.pending, n)
    decreases n
  {
    if n > 0 {
      assert Steps(ops, logs, n - 1);
      PastOnly(ops, zk, logs, n - 1);
    }
  }

  lemma IncreasingParts(a: seq<nat>, b: seq<nat>)
    requires Increasing(a + b)
    ensures Increasing(a) && Increasing(b)
  {
    var s := a + b;
    assert forall i :: 0 <= i < |a| ==> a[i] == s[i];
    assert forall i :: 0 <= i < |b| ==> b[i] == s[|a| + i];
  }

  lemma IncreasingMore(s: seq<nat>, n: nat)
    requires Increasing(s) && Below(s, n)
    ensures Increasing(s + [n])
  {
  }

  /** Claims are handed over in the order of their registration, before those still pending. */
  lemma {:induction false} HandedInOrder(ops: seq<Op>, zk: bool, logs: seq<Log>, n: nat)
    requires Trace(ops, zk, logs) && n < |logs|
    ensures var l := logs[n]; Increasing(l.handed + l.pending) && Increasing(l.pending)
    decreases n
  {
    if n > 0 {
      assert Steps(ops, logs, n - 1);
      HandedInOrder(ops, zk, logs, n - 1);
      PastOnly(ops, zk, logs, n - 1);
      var l, l' := logs[n - 1], logs[n];
      IncreasingParts(l.handed, l.pending);
      if ops[n - 1].Flush? {
        assert l'.handed + l'.pending == l.handed;
      } else if ops[n - 1].TakePending? {
        assert l'.handed + l'.pending == l.handed + l.pending;
      } else if l'.pending != l.pending {
        IncreasingMore(l.handed + l.pending, n - 1);
        IncreasingMore(l.pending, n - 1);
        assert l'.handed + l'.pending == (l.handed + l.pending) + [n - 1];
      }
    }
  }

  /** A claim older than one already sent is still pending. */
  predicate Overtaken(l: Log) {
    l.sent != [] && l.pending != [] && l.sent[|l.sent| - 1] > l.pending[0]
  }

  lemma IncreasingJoin(a: seq<nat>, b: seq<nat>)
    requires Increasing(b) && (a != [] && b != [] ==> a[|a| - 1] != b[0])
    ensures Increasing(a + b) <==> Increasing(a) && !(a != [] && b != [] && a[|a| - 1] > b[0])
  {
    var s := a + b;
    if Increasing(s) {
      assert forall i :: 0 <= i < |a| ==> s[i] == a[i];
      if a != [] && b != [] {
        assert s[|a| - 1] < s[|a|];
      }
    }
  }

  lemma Apart(ops: seq<Op>, zk: bool, logs: seq<Log>, n: nat)
    requires Trace(ops, zk, logs) && n < |logs|
    ensures var l := logs[n]; l.sent != [] && l.pending != [] ==> l.sent[|l.sent| - 1] != l.pending[0]
  {
    var l := logs[n];
    if l.sent != [] && l.pending != [] {
      var x := l.sent[|l.sent| - 1];
      Conserved(ops, zk, logs, n, x);
      assert x in l.sent && Times(l.sent, x) >= 1;
      assert l.pending[0] in l.pending && Times(l.pending, l.pending[0]) >= 1;
    }
  }

  /** What the past of a run says about its log. */
  predicate Ordered(l: Log, n: nat) {
    && Below(l.sent, n) && Below(l.pending, n) && Increasing(l.pending)
    && (l.sent != [] && l.pending != [] ==> l.sent[|l.sent| - 1] != l.pending[0])
  }

  lemma AlwaysOrdered(ops: seq<Op>, zk: bool, logs: seq<Log>, n: nat)
    requires Trace(ops, zk, logs) && n < |logs|
    ensures Ordered(logs[n], n)
  {
    PastOnly(ops, zk, logs, n);
    HandedInOrder(ops, zk, logs, n);
    Apart(ops, zk, logs, n);
  }

  lemma SentNext(ops: seq<Op>, i: nat, l: Log)
    requires i < |ops| && Ordered(l, i)
    ensures Increasing(Next(ops, i, l).sent) <==> Increasing(l.sent) && InTimeAt(ops[i], l)
  {
    if ops[i].Flush? {
      IncreasingJoin(l.sent, l.pending);
    } else if Next(ops, i, l).sent != l.sent {
      IncreasingJoin(l.sent, [i]);
    }
  }

  /** No flush among the first `n` operations comes after a claim that is younger than those it sends. */
  predicate InTime(ops: seq<Op>, logs: seq<Log>, n: nat)
    requires n <= |logs| && n <= |ops|
  {
    forall i :: 0 <= i < n ==> InTimeAt(ops[i], logs[i])
  }

  predicate InTimeAt(op: Op, l: Log) {
    op.Flush? ==> !Overtaken(l)
  }

  /** The transcript gets the claims in the order of their registration if and only if every flush is in time. */
  lemma {:induction false} SentInOrderIff(ops: seq<Op>, zk: bool, logs: seq<Log>, n: nat)
    requires Trace(ops, zk, logs) && n < |logs|
    ensures Increasing(logs[n].sent) <==> InTime(ops, logs, n)
    decreases n
  {
    if n > 0 {
      assert Steps(ops, logs, n - 1);
      SentInOrderIff(ops, zk, logs, n - 1);
      AlwaysOrdered(ops, zk, logs, n - 1);
      SentNext(ops, n - 1, logs[n - 1]);
    }
  }

  predicate SettledAt(op: Op, l: Log) {
    op.Open? && !l.zk ==> l.pending == []
  }

  /** Nothing is registered outside the zero-knowledge mode while claims are pending. */
  predicate Settled(ops: seq<Op>, logs: seq<Log>) {
    forall i :: 0 <= i < |ops| && i < |logs| ==> SettledAt(ops[i], logs[i])
  }

  lemma OvertakenNext(ops: seq<Op>, i: nat, l: Log)
    requires i < |ops| && Ordered(l, i) && !Overtaken(l) && SettledAt(ops[i], l)
    ensures !Overtaken(Next(ops, i, l))
  {
  }

  /** Then every flush is in time. */
  lemma {:induction false} SettledIsInTime(ops: seq<Op>, zk: bool, logs: seq<Log>, n: nat)
    requires Trace(ops, zk, logs) && n < |logs| && Settled(ops, logs)
    ensures !Overtaken(logs[n]) && InTime(ops, logs, n)
    decreases n
  {
    if n > 0 {
      assert Steps(ops, logs, n - 1);
      SettledIsInTime(ops, zk, logs, n - 1);
      AlwaysOrdered(ops, zk, logs, n - 1);
      OvertakenNext(ops, n - 1, logs[n - 1]);
    }
  }

  /** A claim registered in the zero-knowledge mode and flushed after the mode was left comes behind a later one. */
  lemma FlushCanComeTooLate(a: Op, b: Op, logs: seq<Log>)
    requires a.Open? && b.Open? && a.point == [] && b.point == []
    requires |logs| == 5 && Trace([a, SetMode(false), b, Flush], true, logs)
    ensures logs[4].sent == [2, 0] && !Increasing(logs[4].sent)
  {
    var ops := [a, SetMode(false), b, Flush];
    assert Steps(ops, logs, 0) && Steps(ops, logs, 1) && Steps(ops, logs, 2) && Steps(ops, logs, 3);
    var s := logs[4].sent;
    assert s == [2, 0] && s[0] > s[1];
  }

  // -------------------------------------------------------------------------
  // Runs that register each id once
  // -------------------------------------------------------------------------

  predicate DistinctIds(ops: seq<Op>) {
    forall i, j :: 0 <= i < j < |ops| && ops[i].Open? && ops[j].Open? ==> ops[i].key != ops[j].key
  }

  /** Two registrations of one polynomial at one non-empty point agree. */
  predicate Agree(a: Op, b: Op) {
    SameOpening(a, b) && a.point != [] ==> a.claim == b.claim
  }

  /** None of the first `n` registrations contradicts what was registered before it. */
  ghost predicate NoContradiction(ops: seq<Op>, n: nat)
    requires n <= |ops|
  {
    forall i: nat :: i < n ==> !Contradicts(ops, i)
  }

  /** Such a run goes through exactly if all its claims for one polynomial at one point agree. */
  lemma ContradictsIff(ops: seq<Op>)
    requires DistinctIds(ops)
    ensures NoContradiction(ops, |ops|) <==> forall i, j :: 0 <= i < j < |ops| ==> Agree(ops[i], ops[j])
  {
    if i: nat :| i < |ops| && Contradicts(ops, i) {
      var j: nat, m: nat :| Differs(ops, i, j, m);
      assert m == j && !Agree(ops[j], ops[i]);
    }
    if i: nat, j: nat :| i < j < |ops| && !Agree(ops[i], ops[j]) {
      var a := HasFirst(ops, i);
      if ops[a].claim != ops[j].claim {
        assert Latest(ops, j, a, ops[a].key) && Differs(ops, j, a, a);
        assert Contradicts(ops, j);
      } else {
        assert Latest(ops, i, a, ops[a].key) && Differs(ops, i, a, a);
        assert Contradicts(ops, i);
      }
    }
  }

  lemma DistinctMayRegister(t: Tables, ops: seq<Op>, i: nat)
    requires i < |ops| && Follows(t, ops, i) && ops[i].Open? && DistinctIds(ops)
    ensures MayRegister(t, ops[i].key, ops[i].point, ops[i].claim)
  {
    forall k | k in t.openings
      ensures k != ops[i].key
    {
      var m: nat :| Latest(ops, i, m, k);
    }
  }

  // -------------------------------------------------------------------------
  // The run
  // -------------------------------------------------------------------------

  /** A registration that goes through moves the log as `Next` says. */
  lemma OpenMatches(ops: seq<Op>, i: nat, l: Log, transcript: seq<Fe>, claims: seq<Fe>, ids: seq<OpeningId>,
                    pendingClaims: seq<Fe>, pendingIds: seq<OpeningId>)
    requires i < |ops| && ops[i].Open? && Matches(ops, l, transcript, claims, ids, pendingClaims, pendingIds)
    ensures var one, id := if First(ops, i) then [ops[i].claim] else [], if First(ops, i) then [ops[i].key] else [];
            Matches(ops, Next(ops, i, l), transcript + (if l.zk then [] else one), claims, ids,
                    pendingClaims + (if l.zk then one else []), pendingIds + (if l.zk then id else []))
  {
    Joins(ops, l.sent, [i]);
    Joins(ops, l.pending, [i]);
    assert Claims(ops, [i]) == [ops[i].claim] && Ids(ops, [i]) == [ops[i].key];
    assert transcript + [] == transcript && pendingClaims + [] == pendingClaims && pendingIds + [] == pendingIds;
  }

  lemma Starts(ops: seq<Op>)
    ensures Follows(Tables(map[], map[], map[]), ops, 0) && Sound(Tables(map[], map[], map[]))
  {
  }

  /** The tables and lists of an accumulator after the first `n` operations. */
  ghost predicate At(acc: Accumulator, ops: seq<Op>, n: nat, l: Log, claims: seq<Fe>, ids: seq<OpeningId>)
    reads acc
  {
    && Follows(acc.t, ops, n) && (DistinctIds(ops) ==> Sound(acc.t)) && acc.zkMode == l.zk
    && Matches(ops, l, acc.transcript, claims, ids, acc.pendingClaims, acc.pendingIds)
  }

  /** Every registration found its id free to be registered in the tables before it. */
  ghost predicate Admissible(ops: seq<Op>, tables: seq<Tables>) {
    forall i: nat :: i < |ops| && i < |tables| && ops[i].Open? ==>
      MayRegister(tables[i], ops[i].key, ops[i].point, ops[i].claim)
  }

  /** `tables[n]` are the tables after the first `n` operations. */
  ghost predicate TableTrace(ops: seq<Op>, tables: seq<Tables>) {
    && 0 < |tables| <= |ops| + 1 && tables[0] == Tables(map[], map[], map[])
    && forall i: nat :: i + 1 < |tables| ==> TablesStep(ops[i], tables[i], tables[i + 1])
  }

  ghost predicate TablesStep(op: Op, t: Tables, t': Tables) {
    if op.Open? then
      Register(t, op.key, op.point, op.claim).Some? && t' == Register(t, op.key, op.point, op.claim).value.t
    else t' == t
  }

  lemma {:induction false} AdmissibleIsSound(ops: seq<Op>, tables: seq<Tables>, n: nat)
    requires TableTrace(ops, tables) && n < |tables| && Admissible(ops, tables)
    ensures Sound(tables[n])
  {
    if n > 0 {
      AdmissibleIsSound(ops, tables, n - 1);
      assert TablesStep(ops[n - 1], tables[n - 1], tables[n]);
      if ops[n - 1].Open? {
        RegisterSoundIff(tables[n - 1], ops[n - 1].key, ops[n - 1].point, ops[n - 1].claim);
      }
    }
  }

  lemma TablesMore(ops: seq<Op>, tables: seq<Tables>, t: Tables)
    requires TableTrace(ops, tables) && |tables| <= |ops|
    requires TablesStep(ops[|tables| - 1], tables[|tables| - 1], t)
    ensures TableTrace(ops, tables + [t])
  {
    var more := tables + [t];
    forall i: nat | i + 1 < |more|
      ensures TablesStep(ops[i], more[i], more[i + 1])
    {
      if i + 1 < |tables| {
        assert TablesStep(ops[i], tables[i], tables[i + 1]);
      }
    }
  }

  method Apply(acc: Accumulator, ops: seq<Op>, i: nat, ghost l: Log, claims: seq<Fe>, ids: seq<OpeningId>)
    returns (claims': seq<Fe>, ids': seq<OpeningId>, ok: bool)
    requires i < |ops| && At(acc, ops, i, l, claims, ids)
    modifies acc
    ensures ok <==> !Contradicts(ops, i)
    ensures ok ==> At(acc, ops, i + 1, Next(ops, i, l), claims', ids') && TablesStep(ops[i], old(acc.t), acc.t)
  {
    claims', ids', ok := claims, ids, true;
    ghost var t := acc.t;
    match ops[i]
    case Open(key, point, claim) =>
      AbortsIff(t, ops, i);
      OpenMatches(ops, i, l, acc.transcript, claims, ids, acc.pendingClaims, acc.pendingIds);
      ok := acc.Append(key, point, claim);
      if !ok {
        return;
      }
      NewIff(t, ops, i);
      RegisterFollows(t, ops, i);
      if DistinctIds(ops) {
        DistinctMayRegister(t, ops, i);
      }
    case SetMode(mode) =>
      acc.SetZkMode(mode);
      OtherFollows(t, ops, i);
    case Flush =>
      acc.FlushToTranscript();
      Joins(ops, l.sent, l.pending);
      OtherFollows(t, ops, i);
    case TakePending =>
      var c, d := acc.TakePending();
      claims', ids' := claims + c, ids + d;
      Joins(ops, l.handed, l.pending);
      OtherFollows(t, ops, i);
  }

  /** The next operation, with the logs and tables written down. */
  method ApplyNext(acc: Accumulator, zk: bool, ops: seq<Op>, i: nat, claims: seq<Fe>, ids: seq<OpeningId>,
                   ghost logs: seq<Log>, ghost tables: seq<Tables>)
    returns (claims': seq<Fe>, ids': seq<OpeningId>, ok: bool, ghost logs': seq<Log>, ghost tables': seq<Tables>)
    requires i < |ops| && Trace(ops, zk, logs) && |logs| == i + 1
    requires TableTrace(ops, tables) && |tables| == i + 1 && acc.t == tables[i]
    requires At(acc, ops, i, logs[i], claims, ids)
    modifies acc
    ensures ok <==> !Contradicts(ops, i)
    ensures !ok ==> logs' == logs && tables' == tables
    ensures ok ==> Trace(ops, zk, logs') && |logs'| == i + 2 && TableTrace(ops, tables') && |tables'| == i + 2
    ensures ok ==> acc.t == tables'[i + 1] && At(acc, ops, i + 1, logs'[i + 1], claims', ids')
  {
    claims', ids', ok := Apply(acc, ops, i, logs[i], claims, ids);
    logs', tables' := logs, tables;
    if ok {
      TraceMore(ops, zk, logs);
      TablesMore(ops, tables, acc.t);
      logs', tables' := logs + [Next(ops, i, logs[i])], tables + [acc.t];
    }
  }

  lemma EndsSound(ops: seq<Op>, tables: seq<Tables>, t: Tables)
    requires TableTrace(ops, tables) && |tables| == |ops| + 1 && t == tables[|ops|]
    requires DistinctIds(ops) ==> Sound(t)
    ensures DistinctIds(ops) || Admissible(ops, tables) ==> Sound(t)
  {
    if Admissible(ops, tables) {
      AdmissibleIsSound(ops, tables, |ops|);
    }
  }

  lemma UpToNext(ops: seq<Op>, i: nat)
    requires i < |ops|
    ensures NoContradiction(ops, i + 1) <==> NoContradiction(ops, i) && !Contradicts(ops, i)
    ensures Contradicts(ops, i) ==> !NoContradiction(ops, |ops|)
  {
  }

  /**
    Any operations, starting in either mode.  The run goes through exactly if no
    registration contradicts an earlier one.  Then the transcript, what was
    handed over and what is pending are the claims and ids that the log says.  The
    tables are sound if every id could be registered where it was, in particular
    if each was registered once.
   */
  method Run(zk: bool, ops: seq<Op>)
    returns (acc: Accumulator, claims: seq<Fe>, ids: seq<OpeningId>, ok: bool,
             ghost logs: seq<Log>, ghost tables: seq<Tables>)
    ensures fresh(acc) && Trace(ops, zk, logs) && TableTrace(ops, tables)
    ensures ok <==> NoContradiction(ops, |ops|)
    ensures ok ==> |logs| == |tables| == |ops| + 1 && acc.t == tables[|ops|]
    ensures ok ==> Matches(ops, logs[|ops|], acc.transcript, claims, ids, acc.pendingClaims, acc.pendingIds)
    ensures ok ==> Follows(acc.t, ops, |ops|) && (DistinctIds(ops) || Admissible(ops, tables) ==> Sound(acc.t))
  {
    acc := new Accumulator(zk);
    claims, ids, ok, logs, tables := [], [], true, [Log(zk, [], [], [])], [acc.t];
    Starts(ops);
    for i := 0 to |ops|
      invariant fresh(acc) && ok && Trace(ops, zk, logs) && |logs| == i + 1
      invariant TableTrace(ops, tables) && |tables| == i + 1 && acc.t == tables[i]
      invariant At(acc, ops, i, logs[i], claims, ids)
      invariant NoContradiction(ops, i)
    {
      UpToNext(ops, i);
      claims, ids, ok, logs, tables := ApplyNext(acc, zk, ops, i, claims, ids, logs, tables);
      if !ok {
        return;
      }
    }
    EndsSound(ops, tables, acc.t);
  }
}
