/**
  Segments spread over parallel lanes.  The plans tile the items, every plan
  goes to exactly one lane, and the store P2 ends up with does not depend on
  the order in which the lanes make progress.
 */
module Segments {
  import opened Arith
  import opened Field
  import opened FlatRows
  import opened RngStream
  import opened EdaBitsSpec
  import opened EdaBits
  import opened Framing
  import opened Streaming

  datatype Plan = Plan(start: nat, items: nat)

  /** Consecutive non-empty plans from item `from` to item `to`. */
  ghost predicate Tiles(plans: seq<Plan>, from: nat, to: nat) {
    if plans == [] then from == to
    else plans[0].start == from && 0 < plans[0].items && Tiles(plans[1..], from + plans[0].items, to)
  }

  /** The items from `start` on in segments of the given size, the last one possibly shorter. */
  function SegmentPlans(start: nat, total: nat, size: nat): seq<Plan>
    requires 0 < size && start <= total
    decreases total - start
  {
    if start == total then []
    else [Plan(start, Min(total - start, size))] + SegmentPlans(start + Min(total - start, size), total, size)
  }

  /** The segments tile the items. */
  lemma {:induction false} SegmentsTile(start: nat, total: nat, size: nat)
    requires 0 < size && start <= total
    ensures Tiles(SegmentPlans(start, total, size), start, total)
    decreases total - start
  {
    if start < total {
      SegmentsTile(start + Min(total - start, size), total, size);
      assert SegmentPlans(start, total, size)[1..] == SegmentPlans(start + Min(total - start, size), total, size);
    }
  }

  /** All plans but the last have this size, and the last is not larger. */
  ghost predicate Sized(plans: seq<Plan>, size: nat) {
    forall i :: 0 <= i < |plans| ==> plans[i].items <= size && (i < |plans| - 1 ==> plans[i].items == size)
  }

  lemma SizedFirst(first: Plan, rest: seq<Plan>, size: nat)
    requires Sized(rest, size) && first.items <= size && (rest != [] ==> first.items == size)
    ensures Sized([first] + rest, size)
  {
  }

  lemma {:induction false} SegmentSizes(start: nat, total: nat, size: nat)
    requires 0 < size && start <= total
    ensures Sized(SegmentPlans(start, total, size), size)
    decreases total - start
  {
    if start < total {
      var items := Min(total - start, size);
      SegmentSizes(start + items, total, size);
      SizedFirst(Plan(start, items), SegmentPlans(start + items, total, size), size);
    }
  }

  /** Cuts the items into segments: all of the given size but the last. */
  method BuildSegmentPlans(total: nat, segmentItems: nat) returns (plans: seq<Plan>)
    ensures plans == SegmentPlans(0, total, Max(segmentItems, 1))
    ensures Tiles(plans, 0, total) && Sized(plans, Max(segmentItems, 1))
  {
    plans := [];
    SegmentsTile(0, total, Max(segmentItems, 1));
    SegmentSizes(0, total, Max(segmentItems, 1));
    if total == 0 {
      return;
    }
    var size := Max(segmentItems, 1);
    var start: nat := 0;
    while start < total
      invariant start <= total && plans + SegmentPlans(start, total, size) == SegmentPlans(0, total, size)
    {
      var items := Min(total - start, size);
      Regroup(plans, Plan(start, items), SegmentPlans(start + items, total, size));
      plans := plans + [Plan(start, items)];
      start := start + items;
    }
  }

  // -------------------------------------------------------------------------
  // Lanes
  // -------------------------------------------------------------------------

  /** First plan of lane `f` when `n` plans are dealt to `forks` lanes. */
  function LaneStart(f: nat, n: nat, forks: nat): (r: nat)
    requires 0 < forks && f <= forks
    ensures r <= n
  {
    LaneStartBound(f, n, forks);
    (f * n) / forks
  }

  lemma LaneStartBound(f: nat, n: nat, forks: nat)
    requires 0 < forks && f <= forks
    ensures 0 <= (f * n) / forks <= n
  {
    MulMono(f, forks, n);
    MulMono(0, f, n);
    DivMono(f * n, forks * n, forks);
    RowOf(n, 0, forks);
    Commute(n, forks);
  }

  lemma DivMono(a: nat, b: nat, d: nat)
    requires 0 < d && a <= b
    ensures 0 <= a / d <= b / d
  {
    var p, q := a / d, b / d;
    assert a == d * p + a % d && b == d * q + b % d;
    if p > q {
      MulMono(q + 1, p, d);
      Distribute(q, 1, d);
      Commute(q, d);
      Commute(p, d);
    }
  }

  lemma LaneBounds(f: nat, n: nat, forks: nat)
    requires f < forks
    ensures LaneStart(f, n, forks) <= LaneStart(f + 1, n, forks)
    ensures LaneStart(0, n, forks) == 0 && LaneStart(forks, n, forks) == n
  {
    MulMono(f, f + 1, n);
    MulMono(0, f, n);
    DivMono(f * n, (f + 1) * n, forks);
    RowOf(n, 0, forks);
    RowOf(0, 0, forks);
    Commute(n, forks);
  }

  lemma TwoRows(m: nat, t: nat, d: nat)
    requires t < 2 * d
    ensures 0 <= m * d && (m * d + t) / d == if t < d then m else m + 1
  {
    MulMono(0, m, d);
    if t < d {
      RowOf(m, t, d);
    } else {
      Distribute(m, 1, d);
      RowOf(m + 1, t - d, d);
    }
  }

  lemma SumRows(x: nat, n: nat, a: nat, q: nat, r: nat, s: nat, d: nat)
    requires r < d && s < d && x == a * d + r && n == q * d + s
    ensures a + q <= (x + n) / d <= a + q + 1
  {
    Distribute(a, q, d);
    TwoRows(a + q, r + s, d);
    assert x + n == (a + q) * d + (r + s);
  }

  lemma SumDiv(x: nat, n: nat, d: nat)
    requires 0 < d
    ensures n / d <= (x + n) / d - x / d <= n / d + 1
  {
    DivParts(x, d);
    DivParts(n, d);
    SumRows(x, n, x / d, n / d, x % d, n % d, d);
  }

  /** Every lane gets its equal share of the plans, rounded down or up. */
  lemma LaneSize(f: nat, n: nat, forks: nat)
    requires f < forks
    ensures n / forks <= LaneStart(f + 1, n, forks) - LaneStart(f, n, forks) <= n / forks + 1
  {
    MulMono(0, f, n);
    Distribute(f, 1, n);
    SumDiv(f * n, n, forks);
  }

  /** The lanes' shares of the plans differ by at most one. */
  ghost predicate Balanced(lanes: seq<seq<Plan>>, n: nat) {
    lanes != [] ==> forall f :: 0 <= f < |lanes| ==> n / |lanes| <= |lanes[f]| <= n / |lanes| + 1
  }

  lemma LaneMore(lanes: seq<seq<Plan>>, plans: seq<Plan>, start: nat, end: nat)
    requires start <= end <= |plans| && Flatten(lanes) == plans[..start]
    ensures Flatten(lanes + [plans[start..end]]) == plans[..end]
  {
    FlattenAppend(lanes, [plans[start..end]]);
    assert plans[..start] + plans[start..end] == plans[..end];
  }

  /**
    Deals the plans to the lanes.  With at least one fork every plan goes to
    exactly one lane, in order; there are as many lanes as forks, but no more than
    plans, and they share the plans evenly.  With no fork nothing is processed.
   */
  method ParSegmentPlans(forks: nat, plans: seq<Plan>) returns (lanes: seq<seq<Plan>>)
    ensures |lanes| == Min(forks, |plans|) && Balanced(lanes, |plans|)
    ensures Flatten(lanes) == if forks == 0 then [] else plans
  {
    lanes := [];
    var forkCount := Min(forks, |plans|);
    if forkCount == 0 {
      return;
    }
    if forkCount == 1 {
      FlattenAppend([], [plans]);
      assert |plans| / 1 == |plans|;
      return [plans];
    }
    LaneBounds(0, |plans|, forkCount);
    for f := 0 to forkCount
      invariant |lanes| == f && Flatten(lanes) == plans[..LaneStart(f, |plans|, forkCount)]
      invariant forall g :: 0 <= g < f ==> |plans| / forkCount <= |lanes[g]| <= |plans| / forkCount + 1
    {
      LaneBounds(f, |plans|, forkCount);
      LaneSize(f, |plans|, forkCount);
      var start, end := LaneStart(f, |plans|, forkCount), LaneStart(f + 1, |plans|, forkCount);
      LaneMore(lanes, plans, start, end);
      lanes := lanes + [plans[start..end]];
    }
  }

  // -------------------------------------------------------------------------
  // Interleavings of the lanes' writes
  // -------------------------------------------------------------------------

  predicate Covers(w: Write, x: nat) {
    w.at <= x < w.at + |w.data|
  }

  /** The write puts eager shares where they belong. */
  ghost predicate Right(w: Write, eager: seq<Fe>) {
    w.at + |w.data| <= |eager| && w.data == eager[w.at..w.at + |w.data|]
  }

  ghost predicate AllRight(ws: seq<Write>, eager: seq<Fe>) {
    forall i :: 0 <= i < |ws| ==> Right(ws[i], eager)
  }

  /** The writes of one lane: those of its plans, one after the other. */
  function LaneWrites(plans: seq<Plan>, sent: Plan -> seq<seq<Fe>>, k: nat): seq<Write> {
    if plans == [] then []
    else PlanWrites(plans[0].start * k, sent(plans[0])) + LaneWrites(plans[1..], sent, k)
  }

  function AllLanes(lanes: seq<seq<Plan>>, sent: Plan -> seq<seq<Fe>>, k: nat): (r: seq<seq<Write>>)
    ensures |r| == |lanes|
  {
    seq(|lanes|, i requires 0 <= i < |lanes| => LaneWrites(lanes[i], sent, k))
  }

  /** How many of the writes touch cell `x`. */
  function Touches(ws: seq<Write>, x: nat): nat {
    if ws == [] then 0 else (if Covers(ws[0], x) then 1 else 0) + Touches(ws[1..], x)
  }

  function Pending(lanes: seq<seq<Write>>, x: nat): nat {
    if lanes == [] then 0 else Touches(lanes[0], x) + Pending(lanes[1..], x)
  }

  /**
    The lanes make progress in any order: each step of the schedule names a
    lane, which performs its next write if it has one.
   */
  function RunLanes(store: seq<Fe>, lanes: seq<seq<Write>>, schedule: seq<nat>): (seq<Fe>, seq<seq<Write>>)
    decreases |schedule|
  {
    if schedule == [] then (store, lanes)
    else
      var l := schedule[0];
      if l < |lanes| && lanes[l] != [] && lanes[l][0].at + |lanes[l][0].data| <= |store| then
        RunLanes(Patch(store, lanes[l][0].at, lanes[l][0].data), lanes[l := lanes[l][1..]], schedule[1..])
      else RunLanes(store, lanes, schedule[1..])
  }

  ghost predicate AllWritten(lanes: seq<seq<Write>>) {
    forall l :: 0 <= l < |lanes| ==> lanes[l] == []
  }

  ghost predicate LanesRight(lanes: seq<seq<Write>>, eager: seq<Fe>) {
    forall l :: 0 <= l < |lanes| ==> AllRight(lanes[l], eager)
  }

  lemma {:induction false} PendingNone(lanes: seq<seq<Write>>, x: nat)
    requires AllWritten(lanes)
    ensures Pending(lanes, x) == 0
  {
    if lanes != [] {
      PendingNone(lanes[1..], x);
    }
  }

  lemma {:induction false} PendingStep(lanes: seq<seq<Write>>, l: nat, x: nat)
    requires l < |lanes| && lanes[l] != []
    ensures Pending(lanes, x)
         == (if Covers(lanes[l][0], x) then 1 else 0) + Pending(lanes[l := lanes[l][1..]], x)
  {
    var after := lanes[l := lanes[l][1..]];
    if l == 0 {
      assert after[1..] == lanes[1..];
    } else {
      PendingStep(lanes[1..], l - 1, x);
      assert after[1..] == lanes[1..][l - 1 := lanes[l][1..]];
    }
  }

  /** A cell that is right, or that some lane has still to write, ends up right. */
  lemma {:induction false} CellEndsRight(store: seq<Fe>, lanes: seq<seq<Write>>, schedule: seq<nat>,
                                         eager: seq<Fe>, x: nat)
    requires |store| == |eager| && x < |eager| && LanesRight(lanes, eager)
    requires store[x] == eager[x] || 0 < Pending(lanes, x)
    ensures |RunLanes(store, lanes, schedule).0| == |eager|
    ensures AllWritten(RunLanes(store, lanes, schedule).1) ==> RunLanes(store, lanes, schedule).0[x] == eager[x]
    decreases |schedule|
  {
    if schedule == [] {
      if AllWritten(lanes) {
        PendingNone(lanes, x);
      }
    } else {
      var l := schedule[0];
      if l < |lanes| && lanes[l] != [] {
        var w := lanes[l][0];
        assert Right(w, eager);
        PendingStep(lanes, l, x);
        var store' := Patch(store, w.at, w.data);
        assert store'[x] == if Covers(w, x) then w.data[x - w.at] else store[x];
        CellEndsRight(store', lanes[l := lanes[l][1..]], schedule[1..], eager, x);
      } else {
        CellEndsRight(store, lanes, schedule[1..], eager, x);
      }
    }
  }

  function WritesLeft(lanes: seq<seq<Write>>): nat {
    if lanes == [] then 0 else |lanes[0]| + WritesLeft(lanes[1..])
  }

  lemma {:induction false} WritesLeftStep(lanes: seq<seq<Write>>, l: nat)
    requires l < |lanes| && lanes[l] != []
    ensures WritesLeft(lanes) == 1 + WritesLeft(lanes[l := lanes[l][1..]])
  {
    var after := lanes[l := lanes[l][1..]];
    if l == 0 {
      assert after[1..] == lanes[1..];
    } else {
      WritesLeftStep(lanes[1..], l - 1);
      assert after[1..] == lanes[1..][l - 1 := lanes[l][1..]];
    }
  }

  /** No lane is ever held up by another: some schedule finishes them all. */
  lemma {:induction false} SomeScheduleFinishes(store: seq<Fe>, lanes: seq<seq<Write>>, eager: seq<Fe>)
    returns (schedule: seq<nat>)
    requires |store| == |eager| && LanesRight(lanes, eager)
    ensures AllWritten(RunLanes(store, lanes, schedule).1)
    decreases WritesLeft(lanes)
  {
    if AllWritten(lanes) {
      return [];
    }
    var l: nat :| l < |lanes| && lanes[l] != [];
    var w := lanes[l][0];
    assert Right(w, eager);
    WritesLeftStep(lanes, l);
    var rest := SomeScheduleFinishes(Patch(store, w.at, w.data), lanes[l := lanes[l][1..]], eager);
    schedule := [l] + rest;
    assert schedule[1..] == rest;
  }

  lemma {:induction false} TouchesJoin(a: seq<Write>, b: seq<Write>, x: nat)
    ensures Touches(a + b, x) == Touches(a, x) + Touches(b, x)
  {
    if a == [] {
      assert a + b == b;
    } else {
      assert (a + b)[1..] == a[1..] + b;
      TouchesJoin(a[1..], b, x);
    }
  }

  lemma SliceParts(eager: seq<Fe>, at: nat, m: seq<Fe>, rest: seq<Fe>)
    requires at + |m| + |rest| <= |eager| && m + rest == eager[at..at + |m| + |rest|]
    ensures m == eager[at..at + |m|] && rest == eager[at + |m|..at + |m| + |rest|]
  {
    var part := eager[at..at + |m| + |rest|];
    assert m == part[..|m|] && rest == part[|m|..];
  }

  lemma FirstRight(w: Write, ws: seq<Write>, eager: seq<Fe>)
    requires Right(w, eager) && AllRight(ws, eager)
    ensures AllRight([w] + ws, eager)
  {
  }

  lemma FirstTouches(w: Write, ws: seq<Write>, x: nat)
    ensures Touches([w] + ws, x) == (if Covers(w, x) then 1 else 0) + Touches(ws, x)
  {
    assert ([w] + ws)[1..] == ws;
  }

  /** `data` lies in the eager shares at `at`. */
  ghost predicate Lies(data: seq<Fe>, eager: seq<Fe>, at: nat) {
    at + |data| <= |eager| && data == eager[at..at + |data|]
  }

  lemma LiesInParts(eager: seq<Fe>, at: nat, m: seq<Fe>, rest: seq<Fe>)
    requires Lies(m + rest, eager, at)
    ensures Right(Write(at, m), eager) && Lies(rest, eager, at + |m|)
  {
    SliceParts(eager, at, m, rest);
  }

  lemma FlattenFirst<T>(msgs: seq<seq<T>>)
    requires msgs != []
    ensures Flatten(msgs) == msgs[0] + Flatten(msgs[1..])
  {
  }

  /** The writes of a plan are eager shares. */
  lemma {:induction false} PlanWritesRight(at: nat, msgs: seq<seq<Fe>>, eager: seq<Fe>)
    requires Lies(Flatten(msgs), eager, at)
    ensures AllRight(PlanWrites(at, msgs), eager)
    decreases |msgs|
  {
    if msgs != [] {
      FlattenFirst(msgs);
      LiesInParts(eager, at, msgs[0], Flatten(msgs[1..]));
      PlanWritesRight(at + |msgs[0]|, msgs[1..], eager);
      FirstRight(Write(at, msgs[0]), PlanWrites(at + |msgs[0]|, msgs[1..]), eager);
    }
  }

  /** They touch each cell of the plan's range once, and no other. */
  lemma {:induction false} PlanWritesTouch(at: nat, msgs: seq<seq<Fe>>, x: nat)
    ensures Touches(PlanWrites(at, msgs), x) == if at <= x < at + |Flatten(msgs)| then 1 else 0
    decreases |msgs|
  {
    if msgs != [] {
      FlattenFirst(msgs);
      PlanWritesTouch(at + |msgs[0]|, msgs[1..], x);
      FirstTouches(Write(at, msgs[0]), PlanWrites(at + |msgs[0]|, msgs[1..]), x);
    }
  }

  lemma PlanWritesTile(at: nat, msgs: seq<seq<Fe>>, eager: seq<Fe>, x: nat)
    requires Lies(Flatten(msgs), eager, at)
    ensures AllRight(PlanWrites(at, msgs), eager)
    ensures Touches(PlanWrites(at, msgs), x) == if at <= x < at + |Flatten(msgs)| then 1 else 0
  {
    PlanWritesRight(at, msgs, eager);
    PlanWritesTouch(at, msgs, x);
  }

  lemma {:induction false} LaneWritesJoin(a: seq<Plan>, b: seq<Plan>, sent: Plan -> seq<seq<Fe>>, k: nat)
    ensures LaneWrites(a + b, sent, k) == LaneWrites(a, sent, k) + LaneWrites(b, sent, k)
  {
    if a == [] {
      assert a + b == b;
    } else {
      assert (a + b)[1..] == a[1..] + b;
      LaneWritesJoin(a[1..], b, sent, k);
    }
  }

  /** What lanes have to write is what their plans, taken in order, have to write. */
  lemma {:induction false} PendingIsTotal(lanes: seq<seq<Plan>>, sent: Plan -> seq<seq<Fe>>, k: nat, x: nat)
    ensures Pending(AllLanes(lanes, sent, k), x) == Touches(LaneWrites(Flatten(lanes), sent, k), x)
  {
    if lanes != [] {
      PendingIsTotal(lanes[1..], sent, k, x);
      assert AllLanes(lanes, sent, k)[1..] == AllLanes(lanes[1..], sent, k);
      LaneWritesJoin(lanes[0], Flatten(lanes[1..]), sent, k);
      TouchesJoin(LaneWrites(lanes[0], sent, k), LaneWrites(Flatten(lanes[1..]), sent, k), x);
    }
  }

  /** Each plan's messages carry exactly its slice of the eager shares. */
  ghost predicate Carries(plans: seq<Plan>, sent: Plan -> seq<seq<Fe>>, eager: seq<Fe>, k: nat) {
    forall i :: 0 <= i < |plans| ==> PlanCarried(plans[i], sent(plans[i]), eager, k)
  }

  ghost predicate PlanCarried(p: Plan, msgs: seq<seq<Fe>>, eager: seq<Fe>, k: nat) {
    && 0 <= p.start * k
    && p.start * k + |Flatten(msgs)| == (p.start + p.items) * k <= |eager|
    && Flatten(msgs) == eager[p.start * k..(p.start + p.items) * k]
  }

  /** Tiling plans touch every cell of their items exactly once. */
  lemma {:induction false} TilesTouchOnce(plans: seq<Plan>, from: nat, to: nat, sent: Plan -> seq<seq<Fe>>,
                                          eager: seq<Fe>, k: nat, x: nat)
    requires Tiles(plans, from, to) && Carries(plans, sent, eager, k)
    ensures AllRight(LaneWrites(plans, sent, k), eager)
    ensures Touches(LaneWrites(plans, sent, k), x) == if from * k <= x < to * k then 1 else 0
    ensures from * k <= to * k
    decreases |plans|
  {
    if plans != [] {
      var p := plans[0];
      assert PlanCarried(p, sent(p), eager, k);
      TilesTouchOnce(plans[1..], from + p.items, to, sent, eager, k, x);
      PlanWritesTile(p.start * k, sent(p), eager, x);
      TouchesJoin(PlanWrites(p.start * k, sent(p)), LaneWrites(plans[1..], sent, k), x);
    }
  }

  lemma RightParts(a: seq<Write>, b: seq<Write>, eager: seq<Fe>)
    requires AllRight(a + b, eager)
    ensures AllRight(a, eager) && AllRight(b, eager)
  {
    var all := a + b;
    assert forall i :: 0 <= i < |a| ==> a[i] == all[i];
    assert forall i :: 0 <= i < |b| ==> b[i] == all[|a| + i];
  }

  lemma {:induction false} LanesStayRight(lanes: seq<seq<Plan>>, sent: Plan -> seq<seq<Fe>>, eager: seq<Fe>, k: nat)
    requires AllRight(LaneWrites(Flatten(lanes), sent, k), eager)
    ensures LanesRight(AllLanes(lanes, sent, k), eager)
  {
    if lanes != [] {
      LaneWritesJoin(lanes[0], Flatten(lanes[1..]), sent, k);
      RightParts(LaneWrites(lanes[0], sent, k), LaneWrites(Flatten(lanes[1..]), sent, k), eager);
      LanesStayRight(lanes[1..], sent, eager, k);
      assert AllLanes(lanes, sent, k)[1..] == AllLanes(lanes[1..], sent, k);
    }
  }

  /**
    Lane-parallel streaming refines monolithic generation: whatever lanes the
    plans are dealt to and in whatever order the lanes progress, once all are
    done the store holds the eager shares, whatever it held before.
   */
  lemma LanesRefineEager(total: nat, k: nat, plans: seq<Plan>, lanes: seq<seq<Plan>>,
                         sent: Plan -> seq<seq<Fe>>, eager: seq<Fe>, store: seq<Fe>, schedule: seq<nat>)
    requires Tiles(plans, 0, total) && Flatten(lanes) == plans
    requires |eager| == |store| == total * k && Carries(plans, sent, eager, k)
    requires AllWritten(RunLanes(store, AllLanes(lanes, sent, k), schedule).1)
    ensures RunLanes(store, AllLanes(lanes, sent, k), schedule).0 == eager
  {
    var final := RunLanes(store, AllLanes(lanes, sent, k), schedule).0;
    TilesTouchOnce(plans, 0, total, sent, eager, k, 0);
    LanesStayRight(lanes, sent, eager, k);
    forall x: nat | x < |eager|
      ensures |final| == |eager| && final[x] == eager[x]
    {
      TilesTouchOnce(plans, 0, total, sent, eager, k, x);
      PendingIsTotal(lanes, sent, k, x);
      CellEndsRight(store, AllLanes(lanes, sent, k), schedule, eager, x);
    }
    RunKeepsLength(store, AllLanes(lanes, sent, k), schedule);
  }

  lemma RowsSlice(ks: Keystream, l: Layout, s01: Snap, s20: Snap, first: nat, total: nat, p: Plan)
    requires p.start + p.items <= total
    ensures Alpha2Rows(ks, l, s01, s20, first, total)[p.start..p.start + p.items]
         == Alpha2Rows(ks, l, s01, s20, first + p.start, p.items)
  {
  }

  /** Messages that carry a plan's rows carry its slice of all the rows. */
  lemma CarriedRows(p: Plan, msgs: seq<seq<Fe>>, rows: seq<seq<Fe>>, k: nat)
    requires Uniform(rows, k) && p.start + p.items <= |rows|
    requires Flatten(msgs) == Flatten(rows[p.start..p.start + p.items])
    ensures PlanCarried(p, msgs, Flatten(rows), k)
  {
    FlattenRead(rows, k, p.start, p.start + p.items);
    FlattenLength(rows[p.start..p.start + p.items], k);
    Distribute(p.start, p.items, k);
  }

  lemma PlanCarriesRows(
      ks: Keystream, l: Layout, s01: Snap, s20: Snap, first: nat, total: nat, p: Plan, msgs: seq<Row>)
    requires p.start + p.items <= total
    requires Flatten(msgs) == Flatten(Alpha2Rows(ks, l, s01, s20, first + p.start, p.items))
    ensures PlanCarried(p, msgs, Flatten(Alpha2Rows(ks, l, s01, s20, first, total)), l.k)
  {
    Alpha2RowsUniform(ks, l, s01, s20, first, total);
    RowsSlice(ks, l, s01, s20, first, total, p);
    CarriedRows(p, msgs, Alpha2Rows(ks, l, s01, s20, first, total), l.k);
  }

  lemma {:induction false} TilesInside(plans: seq<Plan>, from: nat, to: nat, i: nat)
    requires Tiles(plans, from, to) && i < |plans|
    ensures plans[i].start + plans[i].items <= to
    ensures from <= to
    decreases |plans|
  {
    if i > 0 {
      TilesInside(plans[1..], from + plans[0].items, to, i - 1);
    } else if |plans| > 1 {
      TilesInside(plans[1..], from + plans[0].items, to, 0);
    }
  }

  ghost predicate SentRows(sent: map<Plan, seq<Row>>, ks: Keystream, l: Layout, s01: Snap, s20: Snap, first: nat) {
    forall p :: p in sent ==> Flatten(sent[p]) == Flatten(Alpha2Rows(ks, l, s01, s20, first + p.start, p.items))
  }

  /** Every plan is cut as P0 cuts it. */
  ghost predicate SentFramed(sent: map<Plan, seq<Row>>, k: nat, limit: nat)
    requires 0 < k && 0 < limit
  {
    forall p :: p in sent ==> Lengths(sent[p]) == Frames(p.items, ItemsPerMessage(limit, k), k, limit)
  }

  function Messages(sent: map<Plan, seq<Row>>, p: Plan): seq<Row> {
    if p in sent then sent[p] else []
  }

  function MessagesOf(sent: map<Plan, seq<Row>>): Plan -> seq<Row> {
    p => Messages(sent, p)
  }

  /** P0's messages for every plan. */
  method SendPlans(ks: Keystream, l: Layout, s01: Snap, s20: Snap, first: nat, plans: seq<Plan>, limit: nat)
    returns (sent: map<Plan, seq<Row>>)
    requires l.Valid() && 0 < limit
    ensures forall i :: 0 <= i < |plans| ==> plans[i] in sent
    ensures SentRows(sent, ks, l, s01, s20, first) && SentFramed(sent, l.k, limit)
  {
    sent := map[];
    for i := 0 to |plans|
      invariant forall j :: 0 <= j < i ==> plans[j] in sent
      invariant SentRows(sent, ks, l, s01, s20, first) && SentFramed(sent, l.k, limit)
    {
      var msgs := SendPlan(ks, l, s01, s20, first + plans[i].start, plans[i].items, limit);
      sent := sent[plans[i] := msgs];
    }
  }

  lemma SentPlansCarry(ks: Keystream, l: Layout, s01: Snap, s20: Snap, first: nat, total: nat,
                       plans: seq<Plan>, sent: map<Plan, seq<Row>>)
    requires Tiles(plans, 0, total) && SentRows(sent, ks, l, s01, s20, first)
    requires forall i :: 0 <= i < |plans| ==> plans[i] in sent
    ensures Carries(plans, MessagesOf(sent), Flatten(Alpha2Rows(ks, l, s01, s20, first, total)), l.k)
  {
    forall i | 0 <= i < |plans|
      ensures PlanCarried(plans[i], Messages(sent, plans[i]), Flatten(Alpha2Rows(ks, l, s01, s20, first, total)), l.k)
    {
      TilesInside(plans, 0, total, i);
      PlanCarriesRows(ks, l, s01, s20, first, total, plans[i], Messages(sent, plans[i]));
    }
  }

  /** Schedules of the lanes can complete, and each one that does fills the store with `eager`. */
  ghost predicate FillsWith(lanes: seq<seq<Write>>, eager: seq<Fe>) {
    forall store: seq<Fe> :: |store| == |eager| ==>
      && (exists schedule :: AllWritten(RunLanes(store, lanes, schedule).1))
      && forall schedule :: AllWritten(RunLanes(store, lanes, schedule).1) ==>
           RunLanes(store, lanes, schedule).0 == eager
  }

  lemma DealtPlansFill(total: nat, k: nat, plans: seq<Plan>, lanes: seq<seq<Plan>>,
                       sent: Plan -> seq<seq<Fe>>, eager: seq<Fe>)
    requires Tiles(plans, 0, total) && Flatten(lanes) == plans
    requires |eager| == total * k && Carries(plans, sent, eager, k)
    ensures FillsWith(AllLanes(lanes, sent, k), eager)
  {
    var writes := AllLanes(lanes, sent, k);
    TilesTouchOnce(plans, 0, total, sent, eager, k, 0);
    LanesStayRight(lanes, sent, eager, k);
    forall store: seq<Fe> | |store| == |eager|
      ensures exists schedule :: AllWritten(RunLanes(store, writes, schedule).1)
      ensures forall schedule :: AllWritten(RunLanes(store, writes, schedule).1) ==>
                RunLanes(store, writes, schedule).0 == eager
    {
      var schedule := SomeScheduleFinishes(store, writes, eager);
      forall schedule | AllWritten(RunLanes(store, writes, schedule).1)
        ensures RunLanes(store, writes, schedule).0 == eager
      {
        LanesRefineEager(total, k, plans, lanes, sent, eager, store, schedule);
      }
    }
  }

  /** P2 finds every plan framed as it expects, reading `step` items at a time. */
  ghost predicate AllFramed(plans: seq<Plan>, k: nat, limit: nat, step: nat)
    requires 0 < k && 0 < limit && 0 < step
  {
    forall i :: 0 <= i < |plans| ==> PlanFramed(plans[i], k, limit, step)
  }

  ghost predicate PlanFramed(p: Plan, k: nat, limit: nat, step: nat)
    requires 0 < k && 0 < limit && 0 < step
  {
    Frames(p.items, ItemsPerMessage(limit, k), k, limit) == Frames(p.items, step, k, limit)
  }

  lemma AllFramedJoin(a: seq<Plan>, b: seq<Plan>, k: nat, limit: nat, step: nat)
    requires 0 < k && 0 < limit && 0 < step
    ensures AllFramed(a + b, k, limit, step) <==> AllFramed(a, k, limit, step) && AllFramed(b, k, limit, step)
  {
    var all := a + b;
    assert forall i :: 0 <= i < |a| ==> a[i] == all[i];
    assert forall i :: 0 <= i < |b| ==> b[i] == all[|a| + i];
  }

  // -------------------------------------------------------------------------
  // One lane's connection
  // -------------------------------------------------------------------------

  /** The messages of a lane's plans, in the order they travel on its connection. */
  function LaneQueue(plans: seq<Plan>, sent: Plan -> seq<Row>): seq<Row> {
    if plans == [] then [] else sent(plans[0]) + LaneQueue(plans[1..], sent)
  }

  /** The messages of each plan are cut as P0 cuts them. */
  ghost predicate LaneFramed(plans: seq<Plan>, sent: Plan -> seq<Row>, k: nat, limit: nat)
    requires 0 < k && 0 < limit
  {
    forall i :: 0 <= i < |plans| ==>
      Lengths(sent(plans[i])) == Frames(plans[i].items, ItemsPerMessage(limit, k), k, limit)
  }

  /** The next plan of a lane, from what is left of its queue. */
  method RecvLanePlan(left: seq<Row>, p: Plan, ghost msgs: seq<Row>, ghost rest: seq<Row>,
                      k: nat, limit: nat, step: nat)
    returns (ok: bool, taken: nat, writes: seq<Write>)
    requires 0 < k && 0 < limit && 0 < step && left == msgs + rest
    requires Lengths(msgs) == Frames(p.items, ItemsPerMessage(limit, k), k, limit)
    ensures ok <==> PlanFramed(p, k, limit, step)
    ensures ok ==> taken == |msgs| && 0 <= p.start * k && writes == PlanWrites(p.start * k, msgs)
  {
    MulMono(0, p.start, k);
    FramedVolume(msgs, p.items, ItemsPerMessage(limit, k), k, limit);
    VolumeIs(p.items, ItemsPerMessage(limit, k), k);
    VolumeIs(p.items, step, k);
    PlanFramedIff(msgs, rest, p.items, ItemsPerMessage(limit, k), step, k, limit);
    ok, taken, writes := RecvPlan(left, p.start * k, p.items, step, k, limit);
    if ok {
      assert left[..|msgs|] == msgs;
    }
  }

  /**
    P2's end of one lane: it takes the plans dealt to the lane off one queue, one
    after the other.  It accepts exactly if each is framed alike at both ends,
    and then it has made the lane's writes.
   */
  method RecvLane(queue: seq<Row>, plans: seq<Plan>, ghost sent: Plan -> seq<Row>, k: nat, limit: nat, step: nat)
    returns (ok: bool, writes: seq<Write>)
    requires 0 < k && 0 < limit && 0 < step && queue == LaneQueue(plans, sent) && LaneFramed(plans, sent, k, limit)
    ensures ok <==> AllFramed(plans, k, limit, step)
    ensures ok ==> writes == LaneWrites(plans, sent, k)
  {
    var left := queue;
    writes := [];
    assert plans[0..] == plans;
    for i := 0 to |plans|
      invariant left == LaneQueue(plans[i..], sent) && AllFramed(plans[..i], k, limit, step)
      invariant writes == LaneWrites(plans[..i], sent, k)
    {
      var p := plans[i];
      ghost var msgs, rest := sent(p), LaneQueue(plans[i + 1..], sent);
      assert plans[i..][0] == p && plans[i..][1..] == plans[i + 1..];
      var good, taken, now := RecvLanePlan(left, p, msgs, rest, k, limit, step);
      if !good {
        return false, writes;
      }
      LaneSnoc(plans, i, sent, k, limit, step);
      left, writes := left[taken..], writes + now;
    }
    assert plans[..|plans|] == plans;
    ok := true;
  }

  lemma LaneSnoc(plans: seq<Plan>, i: nat, sent: Plan -> seq<Row>, k: nat, limit: nat, step: nat)
    requires 0 < k && 0 < limit && 0 < step && i < |plans| && 0 <= plans[i].start * k
    ensures LaneWrites(plans[..i + 1], sent, k)
         == LaneWrites(plans[..i], sent, k) + PlanWrites(plans[i].start * k, sent(plans[i]))
    ensures AllFramed(plans[..i + 1], k, limit, step) <==>
      AllFramed(plans[..i], k, limit, step) && PlanFramed(plans[i], k, limit, step)
  {
    var one := [plans[i]];
    assert plans[..i + 1] == plans[..i] + one && one[1..] == [];
    LaneWritesJoin(plans[..i], one, sent, k);
    AllFramedJoin(plans[..i], one, k, limit, step);
    assert LaneWrites(one, sent, k) == PlanWrites(plans[i].start * k, sent(plans[i]));
  }

  /** What holds of all lanes holds of each. */
  lemma OneLane(dealt: seq<seq<Plan>>, f: nat, sent: Plan -> seq<Row>, k: nat, limit: nat, step: nat)
    requires 0 < k && 0 < limit && 0 < step && f < |dealt| && LaneFramed(Flatten(dealt), sent, k, limit)
    ensures LaneFramed(dealt[f], sent, k, limit)
    ensures AllFramed(Flatten(dealt[..f + 1]), k, limit, step) <==>
      AllFramed(Flatten(dealt[..f]), k, limit, step) && AllFramed(dealt[f], k, limit, step)
    ensures AllFramed(Flatten(dealt), k, limit, step) ==> AllFramed(dealt[f], k, limit, step)
  {
    DealtSplit(dealt, f);
    AllFramedJoin(Flatten(dealt[..f]), dealt[f], k, limit, step);
    AllFramedJoin(Flatten(dealt[..f]) + dealt[f], Flatten(dealt[f + 1..]), k, limit, step);
    LaneFramedPart(Flatten(dealt[..f]), dealt[f], Flatten(dealt[f + 1..]), sent, k, limit);
  }

  lemma AllLanesMore(dealt: seq<seq<Plan>>, f: nat, sent: Plan -> seq<Row>, k: nat)
    requires f < |dealt|
    ensures AllLanes(dealt[..f + 1], sent, k) == AllLanes(dealt[..f], sent, k) + [LaneWrites(dealt[f], sent, k)]
  {
  }

  /** All lanes; what P2 accepts it has written. */
  method RecvLanes(dealt: seq<seq<Plan>>, sent: Plan -> seq<Row>, k: nat, limit: nat, step: nat)
    returns (ok: bool, lanes: seq<seq<Write>>)
    requires 0 < k && 0 < limit && 0 < step && LaneFramed(Flatten(dealt), sent, k, limit)
    ensures ok <==> AllFramed(Flatten(dealt), k, limit, step)
    ensures ok ==> lanes == AllLanes(dealt, sent, k)
  {
    lanes := [];
    for f := 0 to |dealt|
      invariant AllFramed(Flatten(dealt[..f]), k, limit, step) && lanes == AllLanes(dealt[..f], sent, k)
    {
      OneLane(dealt, f, sent, k, limit, step);
      AllLanesMore(dealt, f, sent, k);
      var good, writes := RecvLane(LaneQueue(dealt[f], sent), dealt[f], sent, k, limit, step);
      if !good {
        return false, lanes;
      }
      lanes := lanes + [writes];
    }
    assert dealt[..|dealt|] == dealt;
    ok := true;
  }

  lemma DealtNext<T>(dealt: seq<seq<T>>, f: nat)
    requires f < |dealt|
    ensures Flatten(dealt[..f + 1]) == Flatten(dealt[..f]) + dealt[f]
  {
    assert dealt[..f + 1] == dealt[..f] + [dealt[f]];
    Snoc(dealt[..f], dealt[f]);
  }

  lemma DealtSplit<T>(dealt: seq<seq<T>>, f: nat)
    requires f < |dealt|
    ensures Flatten(dealt[..f + 1]) == Flatten(dealt[..f]) + dealt[f]
    ensures Flatten(dealt) == Flatten(dealt[..f]) + dealt[f] + Flatten(dealt[f + 1..])
  {
    var a, b := dealt[..f + 1], dealt[f + 1..];
    assert dealt == a + b;
    FlattenAppend(a, b);
    DealtNext(dealt, f);
  }

  lemma LaneFramedPart(a: seq<Plan>, b: seq<Plan>, c: seq<Plan>, sent: Plan -> seq<Row>, k: nat, limit: nat)
    requires 0 < k && 0 < limit && LaneFramed(a + b + c, sent, k, limit)
    ensures LaneFramed(b, sent, k, limit)
  {
    var all := a + b + c;
    assert forall i :: 0 <= i < |b| ==> b[i] == all[|a| + i];
  }

  /**
    The whole of edaBit streaming over given lanes: P0 sends the plans of each
    lane on that lane's connection, P2 takes them off it `step` items at a time.
    P2 accepts exactly when every plan is framed alike at both ends, and then its
    writes, in whatever order the lanes perform them, leave it with the eager
    second shares of items `first .. first + total`.
   */
  method StreamLanes(ks: Keystream, l: Layout, s01: Snap, s20: Snap, first: nat, total: nat,
                     dealt: seq<seq<Plan>>, limit: nat, step: nat)
    returns (ok: bool, lanes: seq<seq<Write>>, ghost sent: map<Plan, seq<Row>>)
    requires l.Valid() && 0 < limit && 0 < step && Tiles(Flatten(dealt), 0, total)
    ensures ok <==> AllFramed(Flatten(dealt), l.k, limit, step)
    ensures SentAll(sent, Flatten(dealt)) && SentRows(sent, ks, l, s01, s20, first)
    ensures ok ==> lanes == AllLanes(dealt, MessagesOf(sent), l.k)
    ensures ok ==> FillsWith(lanes, Flatten(Alpha2Rows(ks, l, s01, s20, first, total)))
  {
    var plans := Flatten(dealt);
    var out := SendPlans(ks, l, s01, s20, first, plans, limit);
    sent := out;
    ok, lanes := RecvLanes(dealt, MessagesOf(out), l.k, limit, step);
    if ok {
      SentPlansFill(ks, l, s01, s20, first, total, dealt, sent);
    }
  }

  ghost predicate SentAll(sent: map<Plan, seq<Row>>, plans: seq<Plan>) {
    forall i :: 0 <= i < |plans| ==> plans[i] in sent
  }

  lemma SentPlansFill(ks: Keystream, l: Layout, s01: Snap, s20: Snap, first: nat, total: nat,
                      dealt: seq<seq<Plan>>, sent: map<Plan, seq<Row>>)
    requires Tiles(Flatten(dealt), 0, total) && SentAll(sent, Flatten(dealt)) && SentRows(sent, ks, l, s01, s20, first)
    ensures FillsWith(AllLanes(dealt, MessagesOf(sent), l.k), Flatten(Alpha2Rows(ks, l, s01, s20, first, total)))
  {
    var plans := Flatten(dealt);
    Alpha2RowsUniform(ks, l, s01, s20, first, total);
    FlattenLength(Alpha2Rows(ks, l, s01, s20, first, total), l.k);
    SentPlansCarry(ks, l, s01, s20, first, total, plans, sent);
    DealtPlansFill(total, l.k, plans, dealt, MessagesOf(sent), Flatten(Alpha2Rows(ks, l, s01, s20, first, total)));
  }

  /** The same for every segment size and number of lanes. */
  method StreamInLanes(ks: Keystream, l: Layout, s01: Snap, s20: Snap, first: nat, total: nat,
                       segmentItems: nat, forks: nat, limit: nat, step: nat)
    returns (ok: bool, plans: seq<Plan>, lanes: seq<seq<Write>>)
    requires l.Valid() && 0 < limit && 0 < forks && 0 < step
    ensures plans == SegmentPlans(0, total, Max(segmentItems, 1)) && (ok <==> AllFramed(plans, l.k, limit, step))
    ensures ok ==> |lanes| <= forks && FillsWith(lanes, Flatten(Alpha2Rows(ks, l, s01, s20, first, total)))
  {
    plans := BuildSegmentPlans(total, segmentItems);
    var dealt := ParSegmentPlans(forks, plans);
    ghost var sent;
    ok, lanes, sent := StreamLanes(ks, l, s01, s20, first, total, dealt, limit, step);
  }

  /** Initial generation: P2 accepts exactly when the configured sizes agree for every plan. */
  lemma InitialAllFramedIff(plans: seq<Plan>, l: Layout, limit: nat, storeBatch: nat)
    requires l.Valid() && 0 < limit
    ensures AllFramed(plans, l.k, limit, ItemsPerBatch(storeBatch, limit, l.k))
       <==> forall i :: 0 <= i < |plans| ==>
              SizesAgree(plans[i].items, ItemsPerMessage(limit, l.k), ItemsPerBatch(storeBatch, limit, l.k), l.k, limit)
  {
    forall i | 0 <= i < |plans|
      ensures Frames(plans[i].items, ItemsPerMessage(limit, l.k), l.k, limit)
           == Frames(plans[i].items, ItemsPerBatch(storeBatch, limit, l.k), l.k, limit)
         <==> SizesAgree(plans[i].items, ItemsPerMessage(limit, l.k), ItemsPerBatch(storeBatch, limit, l.k), l.k, limit)
    {
      InitialFramingAgreesIff(plans[i].items, l.k, limit, storeBatch);
    }
  }

  lemma {:induction false} RunKeepsLength(store: seq<Fe>, lanes: seq<seq<Write>>, schedule: seq<nat>)
    ensures |RunLanes(store, lanes, schedule).0| == |store|
    decreases |schedule|
  {
    if schedule != [] {
      var l := schedule[0];
      if l < |lanes| && lanes[l] != [] && lanes[l][0].at + |lanes[l][0].data| <= |store| {
        RunKeepsLength(Patch(store, lanes[l][0].at, lanes[l][0].data), lanes[l := lanes[l][1..]], schedule[1..]);
      } else {
        RunKeepsLength(store, lanes, schedule[1..]);
      }
    }
  }
}
