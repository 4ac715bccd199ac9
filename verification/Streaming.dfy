/**
  Streaming the second shares from P0 to P2: segments, lanes, batches and
  messages.  Whatever the segment size, the number of lanes and the order in
  which the lanes make progress, P2's store ends up as the eager vector.
 */
module Streaming {
  import opened Arith
  import opened Field
  import opened FlatRows
  import opened Framing
  import opened RngStream
  import opened EdaBitsSpec
  import opened EdaBits

  function Lengths<T>(msgs: seq<seq<T>>): (r: seq<nat>)
    ensures |r| == |msgs| && forall i :: 0 <= i < |msgs| ==> r[i] == |msgs[i]|
  {
    seq<nat>(|msgs|, i requires 0 <= i < |msgs| => |msgs[i]|)
  }

  lemma LengthsAppend<T>(a: seq<seq<T>>, b: seq<seq<T>>)
    ensures Lengths(a + b) == Lengths(a) + Lengths(b)
  {
  }

  /** One more message. */
  lemma Snoc<T>(msgs: seq<seq<T>>, m: seq<T>)
    ensures Lengths(msgs + [m]) == Lengths(msgs) + [|m|]
    ensures Flatten(msgs + [m]) == Flatten(msgs) + m
  {
    FlattenAppend(msgs, [m]);
    assert Flatten([m]) == m + Flatten<T>([]);
  }

  lemma Regroup<T>(a: seq<T>, x: T, b: seq<T>)
    ensures a + [x] + b == a + ([x] + b)
  {
  }

  // -------------------------------------------------------------------------
  // Messages
  // -------------------------------------------------------------------------

  /** The first `done` elements are in the messages, the rest is still to be cut. */
  ghost predicate Cutting<T>(data: seq<T>, limit: nat, msgs: seq<seq<T>>, rest: seq<T>, done: nat)
    requires 0 < limit
  {
    && done + |rest| == |data| && 0 < |rest| && rest == data[done..]
    && Lengths(msgs) + Cut(|rest|, limit) == Cut(|data|, limit) && Flatten(msgs) == data[..done]
  }

  lemma CutsOff<T>(data: seq<T>, limit: nat, msgs: seq<seq<T>>, rest: seq<T>, done: nat)
    requires 0 < limit && Cutting(data, limit, msgs, rest, done) && |rest| > limit
    ensures Cutting(data, limit, msgs + [rest[..limit]], rest[limit..], done + limit)
  {
    Snoc(msgs, rest[..limit]);
    Regroup(Lengths(msgs), limit, Cut(|rest| - limit, limit));
    assert data[..done] + rest[..limit] == data[..done + limit];
  }

  /** Cuts data into messages by repeatedly splitting off the tail. */
  method SendSuperchunk<T>(data: seq<T>, limit: nat) returns (msgs: seq<seq<T>>)
    requires 0 < limit
    ensures Lengths(msgs) == Cut(|data|, limit) && Flatten(msgs) == data
  {
    msgs := [];
    if data == [] {
      return;
    }
    var rest, done := data, 0;
    while |rest| > limit
      invariant Cutting(data, limit, msgs, rest, done)
    {
      CutsOff(data, limit, msgs, rest, done);
      msgs := msgs + [rest[..limit]];
      rest, done := rest[limit..], done + limit;
    }
    Snoc(msgs, rest);
    assert Cut(|rest|, limit) == [|rest|];
    assert data[..done] + rest == data;
    msgs := msgs + [rest];
  }

  /** The next `expected` elements of a queue are framed as the receiver expects. */
  ghost predicate Framed<T>(queue: seq<seq<T>>, lens: seq<nat>) {
    |lens| <= |queue| && Lengths(queue[..|lens|]) == lens
  }

  // -------------------------------------------------------------------------
  // Writes
  // -------------------------------------------------------------------------

  datatype Write = Write(at: nat, data: Row)

  /** The writes P2 makes for messages that arrive one after the other: one per message, at a running offset. */
  function PlanWrites(at: nat, msgs: seq<Row>): seq<Write>
    decreases |msgs|
  {
    if msgs == [] then [] else [Write(at, msgs[0])] + PlanWrites(at + |msgs[0]|, msgs[1..])
  }

  lemma {:induction false} PlanWritesJoin(at: nat, a: seq<Row>, b: seq<Row>)
    ensures PlanWrites(at, a + b) == PlanWrites(at, a) + PlanWrites(at + |Flatten(a)|, b)
    decreases |a|
  {
    if a == [] {
      assert a + b == b;
    } else {
      assert (a + b)[1..] == a[1..] + b;
      PlanWritesJoin(at + |a[0]|, a[1..], b);
    }
  }

  lemma PlanWritesSnoc(at: nat, msgs: seq<Row>, m: Row)
    ensures PlanWrites(at, msgs + [m]) == PlanWrites(at, msgs) + [Write(at + |Flatten(msgs)|, m)]
  {
    PlanWritesJoin(at, msgs, [m]);
    assert [m][1..] == [];
  }

  /** The writes performed one after the other; one that does not fit stops them. */
  function InOrder(store: Row, ws: seq<Write>): Row
    decreases |ws|
  {
    if ws == [] || ws[0].at + |ws[0].data| > |store| then store
    else InOrder(Patch(store, ws[0].at, ws[0].data), ws[1..])
  }

  lemma PatchMore<T>(s: seq<T>, start: nat, a: seq<T>, b: seq<T>)
    requires start + |a| + |b| <= |s|
    ensures Patch(Patch(s, start, a), start + |a|, b) == Patch(s, start, a + b)
  {
  }

  /** The writes of a plan, one after the other, are the one write of all its messages. */
  lemma {:induction false} PlanWritesAreOne(store: Row, at: nat, msgs: seq<Row>)
    requires at + |Flatten(msgs)| <= |store|
    ensures InOrder(store, PlanWrites(at, msgs)) == Patch(store, at, Flatten(msgs))
    decreases |msgs|
  {
    if msgs == [] {
      assert Patch(store, at, []) == store;
    } else {
      var m, rest := msgs[0], msgs[1..];
      assert PlanWrites(at, msgs)[1..] == PlanWrites(at + |m|, rest);
      PlanWritesAreOne(Patch(store, at, m), at + |m|, rest);
      PatchMore(store, at, m, Flatten(rest));
    }
  }

  /**
    Receives `expected` elements, message by message, and writes each at the
    running offset.  It fails on the first message that does not have the
    expected length.
   */
  method RecvMessages(queue: seq<Row>, start: nat, expected: nat, limit: nat)
    returns (ok: bool, taken: nat, writes: seq<Write>)
    requires 0 < limit
    ensures ok <==> Framed(queue, Cut(expected, limit))
    ensures ok ==> taken == |Cut(expected, limit)| && |Flatten(queue[..taken])| == expected
    ensures ok ==> writes == PlanWrites(start, queue[..taken])
  {
    taken, writes := 0, [];
    var received := 0;
    ghost var lens := Cut(expected, limit);
    while received < expected
      invariant 0 <= received <= expected && taken <= |queue| && taken <= |lens|
      invariant Lengths(queue[..taken]) == lens[..taken] && Cut(expected - received, limit) == lens[taken..]
      invariant |Flatten(queue[..taken])| == received && writes == PlanWrites(start, queue[..taken])
    {
      var chunk := Min(expected - received, limit);
      assert lens[taken] == lens[taken..][0] == chunk;
      if taken == |queue| || |queue[taken]| != chunk {
        assert |lens| <= |queue| ==> Lengths(queue[..|lens|])[taken] == |queue[taken]|;
        return false, taken, writes;
      }
      assert queue[..taken + 1] == queue[..taken] + [queue[taken]];
      assert lens[..taken + 1] == lens[..taken] + [chunk] && lens[taken + 1..] == lens[taken..][1..];
      Snoc(queue[..taken], queue[taken]);
      PlanWritesSnoc(start, queue[..taken], queue[taken]);
      writes := writes + [Write(start + received, queue[taken])];
      taken, received := taken + 1, received + chunk;
    }
    ok := true;
  }

  // -------------------------------------------------------------------------
  // One segment
  // -------------------------------------------------------------------------

  /** The second shares of items `start .. start + n`. */
  function Alpha2Rows(ks: Keystream, l: Layout, s01: Snap, s20: Snap, start: nat, n: nat): (rows: seq<Row>)
    ensures |rows| == n
    ensures forall i :: 0 <= i < n ==> rows[i] == Alpha2Row(ks, l, s01, s20, start + i)
  {
    seq(n, i requires 0 <= i < n => Alpha2Row(ks, l, s01, s20, start + i))
  }

  lemma Alpha2RowsUniform(ks: Keystream, l: Layout, s01: Snap, s20: Snap, start: nat, n: nat)
    ensures Uniform(Alpha2Rows(ks, l, s01, s20, start, n), l.k)
  {
    var rows := Alpha2Rows(ks, l, s01, s20, start, n);
    forall i | 0 <= i < n
      ensures |rows[i]| == l.k
    {
      assert rows[i] == Alpha2Row(ks, l, s01, s20, start + i);
    }
  }

  lemma Alpha2RowsJoin(ks: Keystream, l: Layout, s01: Snap, s20: Snap, start: nat, a: nat, b: nat)
    ensures Alpha2Rows(ks, l, s01, s20, start, a) + Alpha2Rows(ks, l, s01, s20, start + a, b)
         == Alpha2Rows(ks, l, s01, s20, start, a + b)
  {
  }

  /** P0's messages for one chunk of a segment. */
  method SendChunk(
      ks: Keystream, l: Layout, s01: Snap, s20: Snap, start: nat, n: nat, limit: nat) returns (msgs: seq<Row>)
    requires l.Valid() && 0 < limit
    ensures 0 <= n * l.k && Lengths(msgs) == Cut(n * l.k, limit)
    ensures Flatten(msgs) == Flatten(Alpha2Rows(ks, l, s01, s20, start, n))
  {
    var rows := Alpha2Chunk(ks, l, s01, s20, start, n);
    assert rows == Alpha2Rows(ks, l, s01, s20, start, n);
    Alpha2RowsUniform(ks, l, s01, s20, start, n);
    FlattenLength(rows, l.k);
    msgs := SendSuperchunk(Flatten(rows), limit);
  }

  /** The messages carry the first `done` items; the rest is still to be framed. */
  ghost predicate PartSent(ks: Keystream, l: Layout, s01: Snap, s20: Snap, start: nat, items: nat, done: nat,
                           limit: nat, msgs: seq<Row>)
    requires l.Valid() && 0 < limit
  {
    var step := ItemsPerMessage(limit, l.k);
    && done <= items && Flatten(msgs) == Flatten(Alpha2Rows(ks, l, s01, s20, start, done))
    && Lengths(msgs) + Frames(items - done, step, l.k, limit) == Frames(items, step, l.k, limit)
  }

  lemma PartSentMore(ks: Keystream, l: Layout, s01: Snap, s20: Snap, start: nat, items: nat, done: nat, limit: nat,
                     msgs: seq<Row>, n: nat, part: seq<Row>)
    requires l.Valid() && 0 < limit && PartSent(ks, l, s01, s20, start, items, done, limit, msgs)
    requires done < items && n == Min(items - done, ItemsPerMessage(limit, l.k))
    requires 0 <= n * l.k && Lengths(part) == Cut(n * l.k, limit)
    requires Flatten(part) == Flatten(Alpha2Rows(ks, l, s01, s20, start + done, n))
    ensures PartSent(ks, l, s01, s20, start, items, done + n, limit, msgs + part)
  {
    Alpha2RowsJoin(ks, l, s01, s20, start, done, n);
    FlattenBoth(msgs, part, Alpha2Rows(ks, l, s01, s20, start, done), Alpha2Rows(ks, l, s01, s20, start + done, n));
    FramesMore(msgs, part, items - done, n, ItemsPerMessage(limit, l.k), l.k, limit);
  }

  /** The next few items, cut into messages. */
  method SendNext(ks: Keystream, l: Layout, s01: Snap, s20: Snap, start: nat, items: nat, done: nat, limit: nat,
                  msgs: seq<Row>) returns (msgs': seq<Row>, done': nat)
    requires l.Valid() && 0 < limit && PartSent(ks, l, s01, s20, start, items, done, limit, msgs) && done < items
    ensures done < done' && PartSent(ks, l, s01, s20, start, items, done', limit, msgs')
  {
    var n := Min(items - done, ItemsPerMessage(limit, l.k));
    var part := SendChunk(ks, l, s01, s20, start + done, n, limit);
    PartSentMore(ks, l, s01, s20, start, items, done, limit, msgs, n, part);
    msgs', done' := msgs + part, done + n;
  }

  /** P0 sends a segment: a few items at a time, each batch cut into messages. */
  method SendPlan(
      ks: Keystream, l: Layout, s01: Snap, s20: Snap, start: nat, items: nat, limit: nat) returns (msgs: seq<Row>)
    requires l.Valid() && 0 < limit
    ensures Lengths(msgs) == Frames(items, ItemsPerMessage(limit, l.k), l.k, limit)
    ensures Flatten(msgs) == Flatten(Alpha2Rows(ks, l, s01, s20, start, items))
  {
    var done: nat := 0;
    msgs := [];
    while done < items
      invariant PartSent(ks, l, s01, s20, start, items, done, limit, msgs)
    {
      msgs, done := SendNext(ks, l, s01, s20, start, items, done, limit, msgs);
    }
  }

  lemma FlattenBoth<T>(a: seq<seq<T>>, b: seq<seq<T>>, x: seq<seq<T>>, y: seq<seq<T>>)
    requires Flatten(a) == Flatten(x) && Flatten(b) == Flatten(y)
    ensures Flatten(a + b) == Flatten(x + y)
  {
    FlattenAppend(a, b);
    FlattenAppend(x, y);
  }

  lemma FramesMore<T>(
      msgs: seq<seq<T>>, part: seq<seq<T>>, items: nat, n: nat, step: nat, k: nat, limit: nat)
    requires 0 < items && 0 < step && 0 < limit && n == Min(items, step)
    requires 0 <= n * k && Lengths(part) == Cut(n * k, limit)
    ensures Lengths(msgs + part) + Frames(items - n, step, k, limit) == Lengths(msgs) + Frames(items, step, k, limit)
  {
    LengthsAppend(msgs, part);
    RegroupSeq(Lengths(msgs), Lengths(part), Frames(items - n, step, k, limit));
  }

  lemma RegroupSeq<T>(a: seq<T>, b: seq<T>, c: seq<T>)
    ensures a + b + c == a + (b + c)
  {
  }

  lemma FramedSplit<T>(q: seq<seq<T>>, a: seq<nat>, b: seq<nat>)
    ensures Framed(q, a + b) <==> Framed(q, a) && Framed(q[|a|..], b)
  {
    if |a| + |b| <= |q| {
      var front, back := q[..|a|], q[|a|..][..|b|];
      assert q[..|a + b|] == front + back;
      LengthsAppend(front, back);
      assert (a + b)[..|a|] == a && (a + b)[|a|..] == b;
      assert (Lengths(front) + Lengths(back))[..|a|] == Lengths(front);
      assert (Lengths(front) + Lengths(back))[|a|..] == Lengths(back);
    }
  }

  /** The messages framed as `front` have been written, `written` elements from `start` on. */
  ghost predicate Stored(queue: seq<Row>, front: seq<nat>, start: nat, written: nat, writes: seq<Write>) {
    && Framed(queue, front) && |Flatten(queue[..|front|])| == written
    && writes == PlanWrites(start, queue[..|front|])
  }

  /** The first `offset` items have arrived, framed as expected, and have been written. */
  ghost predicate Receiving(queue: seq<Row>, front: seq<nat>, start: nat, written: nat, writes: seq<Write>,
                            offset: nat, items: nat, step: nat, k: nat, limit: nat)
    requires 0 < limit && 0 < step
  {
    && offset <= items && written + Volume(items - offset, step, k) == Volume(items, step, k)
    && front + Frames(items - offset, step, k, limit) == Frames(items, step, k, limit)
    && Stored(queue, front, start, written, writes)
  }

  method RecvNext(queue: seq<Row>, ghost front: seq<nat>, taken: nat, start: nat, written: nat, writes: seq<Write>,
                  count: nat, limit: nat)
    returns (good: bool, more: nat, writes': seq<Write>)
    requires 0 < limit && taken == |front| && Stored(queue, front, start, written, writes)
    ensures good <==> Framed(queue, front + Cut(count, limit))
    ensures good ==> more == |Cut(count, limit)|
    ensures good ==> Stored(queue, front + Cut(count, limit), start, written + count, writes')
  {
    FramedSplit(queue, front, Cut(count, limit));
    var now;
    good, more, now := RecvMessages(queue[taken..], start + written, count, limit);
    writes' := writes + now;
    if good {
      QueueSplit(queue, taken, more);
      PlanWritesJoin(start, queue[..taken], queue[taken..][..more]);
    }
  }

  /** One batch of `n` items; a framing other than the expected one is noticed. */
  method RecvBatch(queue: seq<Row>, ghost front: seq<nat>, taken: nat, start: nat, written: nat, writes: seq<Write>,
                   offset: nat, items: nat, step: nat, k: nat, limit: nat, n: nat)
    returns (good: bool, more: nat, writes': seq<Write>, ghost front': seq<nat>, count: nat)
    requires 0 < limit && 0 < step
    requires Receiving(queue, front, start, written, writes, offset, items, step, k, limit) && offset < items
    requires taken == |front| && n == Min(items - offset, step)
    ensures good ==> Receiving(queue, front', start, written + count, writes', offset + n, items, step, k, limit)
    ensures good ==> taken + more == |front'|
    ensures !good ==> !Framed(queue, Frames(items, step, k, limit))
  {
    MulMono(0, n, k);
    count := n * k;
    ghost var now, later := Cut(count, limit), Frames(items - offset - n, step, k, limit);
    RegroupSeq(front, now, later);
    front' := front + now;
    good, more, writes' := RecvNext(queue, front, taken, start, written, writes, count, limit);
    if !good {
      FramedSplit(queue, front', later);
    }
  }

  /**
    P2 receives a segment, `step` items at a time, and writes its messages from
    element `start` on.  It succeeds exactly if the messages are framed that way.
   */
  method RecvPlan(queue: seq<Row>, start: nat, items: nat, step: nat, k: nat, limit: nat)
    returns (ok: bool, taken: nat, writes: seq<Write>)
    requires 0 < limit && 0 < step
    ensures ok <==> Framed(queue, Frames(items, step, k, limit))
    ensures ok ==> taken == |Frames(items, step, k, limit)| && |Flatten(queue[..taken])| == Volume(items, step, k)
    ensures ok ==> writes == PlanWrites(start, queue[..taken])
  {
    taken, writes := 0, [];
    var offset: nat, written: nat := 0, 0;
    ghost var front: seq<nat> := [];
    while offset < items
      invariant taken == |front| && Receiving(queue, front, start, written, writes, offset, items, step, k, limit)
    {
      var n := Min(items - offset, step);
      var good, more, count;
      good, more, writes, front, count :=
        RecvBatch(queue, front, taken, start, written, writes, offset, items, step, k, limit, n);
      if !good {
        return false, taken, writes;
      }
      taken, offset, written := taken + more, offset + n, written + count;
    }
    ok := true;
  }

  lemma QueueSplit<T>(queue: seq<seq<T>>, taken: nat, more: nat)
    requires taken + more <= |queue|
    ensures queue[..taken + more] == queue[..taken] + queue[taken..][..more]
    ensures Flatten(queue[..taken + more]) == Flatten(queue[..taken]) + Flatten(queue[taken..][..more])
  {
    assert queue[..taken + more] == queue[..taken] + queue[taken..][..more];
    FlattenAppend(queue[..taken], queue[taken..][..more]);
  }

  /** Elements of `n` items, counted batch by batch. */
  function Volume(n: nat, step: nat, k: nat): nat
    requires 0 < step
  {
    if n == 0 then 0 else
      MulMono(0, Min(n, step), k);
      Min(n, step) * k + Volume(n - Min(n, step), step, k)
  }

  lemma {:induction false} VolumeIs(n: nat, step: nat, k: nat)
    requires 0 < step
    ensures Volume(n, step, k) == n * k
    decreases n
  {
    if n > 0 {
      VolumeIs(n - Min(n, step), step, k);
      Distribute(Min(n, step), n - Min(n, step), k);
    }
  }

  /** One segment, sent by P0 and received by P2 in steps of `step` items. */
  method Transfer(ks: Keystream, l: Layout, s01: Snap, s20: Snap, start: nat, items: nat,
                  limit: nat, step: nat, store: seq<Fe>, base: nat)
    returns (ok: bool, store': seq<Fe>)
    requires l.Valid() && 0 < limit && 0 < step && 0 <= items * l.k && base + items * l.k <= |store|
    ensures ok <==> Frames(items, ItemsPerMessage(limit, l.k), l.k, limit) == Frames(items, step, l.k, limit)
    ensures ok ==> |Flatten(Alpha2Rows(ks, l, s01, s20, start, items))| == items * l.k
    ensures ok ==> store' == Patch(store, base, Flatten(Alpha2Rows(ks, l, s01, s20, start, items)))
  {
    var msgs := SendPlan(ks, l, s01, s20, start, items, limit);
    var taken, writes;
    VolumeIs(items, step, l.k);
    ok, taken, writes := RecvPlan(msgs, base, items, step, l.k, limit);
    store' := InOrder(store, writes);
    FramesPositive(items, ItemsPerMessage(limit, l.k), l.k, limit);
    Alpha2RowsUniform(ks, l, s01, s20, start, items);
    FlattenLength(Alpha2Rows(ks, l, s01, s20, start, items), l.k);
    if ok {
      assert forall i :: 0 <= i < |msgs| ==> |msgs[i]| == Lengths(msgs)[i];
      PrefixIsAll(msgs, taken);
      PlanWritesAreOne(store, base, msgs);
    }
    assert msgs[..|msgs|] == msgs;
  }

  /**
    A segment of the initial generation lands in P2's store as the eager shares
    if and only if the configured sizes agree.
   */
  method StreamPlan(ks: Keystream, l: Layout, s01: Snap, s20: Snap, start: nat, items: nat,
                    limit: nat, storeBatch: nat, store: seq<Fe>, base: nat)
    returns (ok: bool, store': seq<Fe>)
    requires l.Valid() && 0 < limit && 0 <= items * l.k && base + items * l.k <= |store|
    ensures ok <==> SizesAgree(items, ItemsPerMessage(limit, l.k), ItemsPerBatch(storeBatch, limit, l.k), l.k, limit)
    ensures ok ==> |Flatten(Alpha2Rows(ks, l, s01, s20, start, items))| == items * l.k
    ensures ok ==> store' == Patch(store, base, Flatten(Alpha2Rows(ks, l, s01, s20, start, items)))
  {
    InitialFramingAgreesIff(items, l.k, limit, storeBatch);
    ok, store' := Transfer(ks, l, s01, s20, start, items, limit, ItemsPerBatch(storeBatch, limit, l.k), store, base);
  }

  /** A segment of an extension always does: there the receiver steps as the sender does. */
  method StreamExtensionPlan(ks: Keystream, l: Layout, s01: Snap, s20: Snap, start: nat, items: nat,
                             limit: nat, store: seq<Fe>, base: nat)
    returns (store': seq<Fe>)
    requires l.Valid() && 0 < limit && 0 <= items * l.k && base + items * l.k <= |store|
    ensures |Flatten(Alpha2Rows(ks, l, s01, s20, start, items))| == items * l.k
    ensures store' == Patch(store, base, Flatten(Alpha2Rows(ks, l, s01, s20, start, items)))
  {
    var ok;
    ok, store' := Transfer(ks, l, s01, s20, start, items, limit, ItemsPerMessage(limit, l.k), store, base);
  }

  /**
    A queue that starts with the messages of one segment passes for the segment
    in other steps exactly if the framing is the same: neither framing has empty
    messages, and both carry the same elements.
   */
  lemma PlanFramedIff(msgs: seq<Row>, rest: seq<Row>, items: nat, own: nat, step: nat, k: nat, limit: nat)
    requires 0 < limit && 0 < step && 0 < own && 0 < k
    requires Lengths(msgs) == Frames(items, own, k, limit) && |Flatten(msgs)| == Volume(items, step, k)
    ensures Framed(msgs + rest, Frames(items, step, k, limit))
       <==> Frames(items, own, k, limit) == Frames(items, step, k, limit)
  {
    var lens, queue := Frames(items, step, k, limit), msgs + rest;
    assert queue[..|msgs|] == msgs;
    if Framed(queue, lens) {
      var front := queue[..|lens|];
      FramesPositive(items, own, k, limit);
      FramesPositive(items, step, k, limit);
      FramedVolume(front, items, step, k, limit);
      assert forall i :: 0 <= i < |msgs| ==> 0 < |msgs[i]| by {
        assert forall i :: 0 <= i < |msgs| ==> |msgs[i]| == Lengths(msgs)[i];
      }
      assert forall i :: 0 <= i < |front| ==> 0 < |front[i]| by {
        assert forall i :: 0 <= i < |front| ==> |front[i]| == Lengths(front)[i];
      }
      if |lens| <= |msgs| {
        assert front == msgs[..|lens|];
        PrefixIsAll(msgs, |lens|);
      } else {
        assert msgs == front[..|msgs|];
        PrefixIsAll(front, |msgs|);
      }
    }
  }

  /** Messages framed in steps carry the elements of the steps. */
  lemma {:induction false} FramedVolume(msgs: seq<Row>, items: nat, step: nat, k: nat, limit: nat)
    requires 0 < limit && 0 < step && Lengths(msgs) == Frames(items, step, k, limit)
    ensures |Flatten(msgs)| == Volume(items, step, k)
    decreases items
  {
    if items > 0 {
      var n := Min(items, step);
      MulMono(0, n, k);
      var now, later := Cut(n * k, limit), Frames(items - n, step, k, limit);
      var a, b := msgs[..|now|], msgs[|now|..];
      LengthsSplit(msgs, now, later);
      CutVolume(a, n * k, limit);
      FramedVolume(b, items - n, step, k, limit);
      FlattenAppend(a, b);
    }
  }

  lemma LengthsSplit<T>(msgs: seq<seq<T>>, a: seq<nat>, b: seq<nat>)
    requires Lengths(msgs) == a + b
    ensures |a| <= |msgs| && msgs[..|a|] + msgs[|a|..] == msgs
    ensures Lengths(msgs[..|a|]) == a && Lengths(msgs[|a|..]) == b
  {
    assert |msgs| == |a| + |b|;
    assert Lengths(msgs[..|a|]) == (a + b)[..|a|] && Lengths(msgs[|a|..]) == (a + b)[|a|..];
  }

  lemma {:induction false} CutVolume(msgs: seq<Row>, len: nat, limit: nat)
    requires 0 < limit && Lengths(msgs) == Cut(len, limit)
    ensures |Flatten(msgs)| == len
    decreases len
  {
    if len > 0 {
      assert |msgs[0]| == Lengths(msgs)[0];
      assert Lengths(msgs[1..]) == Lengths(msgs)[1..] == Cut(len - Min(len, limit), limit);
      CutVolume(msgs[1..], len - Min(len, limit), limit);
    } else {
      assert |msgs| == 0;
    }
  }

  /** No message is empty, so messages that carry everything are all the messages. */
  lemma PrefixIsAll<T>(msgs: seq<seq<T>>, taken: nat)
    requires taken <= |msgs| && forall i :: 0 <= i < |msgs| ==> 0 < |msgs[i]|
    requires |Flatten(msgs[..taken])| == |Flatten(msgs)|
    ensures taken == |msgs|
  {
    assert msgs == msgs[..taken] + msgs[taken..];
    FlattenAppend(msgs[..taken], msgs[taken..]);
  }
}
