/**
  How P0 cuts the second shares into messages, how P2 expects them cut, and
  exactly when the two agree.  A mismatch is fatal: a receiver that expects a
  different length refuses the message.
 */
module Framing {
  import opened Arith

  /** Lengths of the messages that carry `len` elements, at most `limit` in each. */
  function Cut(len: nat, limit: nat): seq<nat>
    requires 0 < limit
  {
    if len == 0 then [] else [Min(len, limit)] + Cut(len - Min(len, limit), limit)
  }

  /** Message lengths of `n` items of `k` elements, handled `step` items at a time. */
  function Frames(n: nat, step: nat, k: nat, limit: nat): seq<nat>
    requires 0 < step && 0 < limit
  {
    if n == 0 then [] else
      MulMono(0, Min(n, step), k);
      Cut(Min(n, step) * k, limit) + Frames(n - Min(n, step), step, k, limit)
  }

  // -------------------------------------------------------------------------
  // Cutting
  // -------------------------------------------------------------------------

  /** A stretch of whole messages can be cut off in front. */
  lemma {:induction false} CutAdd(q: nat, limit: nat, rest: nat)
    requires 0 < limit
    ensures 0 <= q * limit && Cut(q * limit + rest, limit) == Cut(q * limit, limit) + Cut(rest, limit)
  {
    if q > 0 {
      CutAdd(q - 1, limit, rest);
      Distribute(q - 1, 1, limit);
      MulMono(1, q, limit);
    }
  }

  /** Message `q`, if there is one, starts at element `q * limit`. */
  lemma {:induction false} CutAt(len: nat, limit: nat, q: nat)
    requires 0 < limit && q * limit < len
    ensures q < |Cut(len, limit)| && Cut(len, limit)[q] == Min(limit, len - q * limit)
  {
    if q > 0 {
      Distribute(q - 1, 1, limit);
      MulMono(1, q, limit);
      CutAt(len - limit, limit, q - 1);
    }
  }

  // -------------------------------------------------------------------------
  // Frames
  // -------------------------------------------------------------------------

  /** Steps that end on message boundaries cannot be seen. */
  lemma {:induction false} FramesAreCut(n: nat, step: nat, k: nat, limit: nat, t: nat)
    requires 0 < step && 0 < limit
    requires n <= step || step * k == t * limit
    ensures 0 <= n * k && Frames(n, step, k, limit) == Cut(n * k, limit)
    decreases n
  {
    MulMono(0, n, k);
    if n > step {
      MulMono(0, n - step, k);
      FramesAreCut(n - step, step, k, limit, t);
      Distribute(step, n - step, k);
      CutAdd(t, limit, (n - step) * k);
    } else if n > 0 {
      assert Frames(0, step, k, limit) == [];
    }
  }

  lemma {:induction false} CutPositive(len: nat, limit: nat)
    requires 0 < limit
    ensures forall i :: 0 <= i < |Cut(len, limit)| ==> 0 < Cut(len, limit)[i]
  {
    if len > 0 {
      CutPositive(len - Min(len, limit), limit);
    }
  }

  /** No message is empty. */
  lemma {:induction false} FramesPositive(n: nat, step: nat, k: nat, limit: nat)
    requires 0 < step && 0 < limit
    ensures forall i :: 0 <= i < |Frames(n, step, k, limit)| ==> 0 < Frames(n, step, k, limit)[i]
    decreases n
  {
    if n > 0 {
      MulMono(0, Min(n, step), k);
      CutPositive(Min(n, step) * k, limit);
      FramesPositive(n - Min(n, step), step, k, limit);
    }
  }

  /** The first step decides the first messages. */
  lemma FirstStep(n: nat, step: nat, k: nat, limit: nat, q: nat)
    requires 0 < n && 0 < step && 0 < limit && q * limit < Min(n, step) * k
    ensures q < |Frames(n, step, k, limit)|
    ensures Frames(n, step, k, limit)[q] == Min(limit, Min(n, step) * k - q * limit)
  {
    CutAt(Min(n, step) * k, limit, q);
  }

  /** Items per message on the sending side. */
  function ItemsPerMessage(limit: nat, k: nat): (m: nat)
    requires 0 < k
    ensures 0 < m
  {
    Max(limit / k, 1)
  }

  /** Items per store batch on the receiving side of the initial generation. */
  function ItemsPerBatch(storeBatch: nat, limit: nat, k: nat): (b: nat)
    requires 0 < k
    ensures 0 < b
  {
    Max(storeBatch / k, ItemsPerMessage(limit, k))
  }

  /** The condition on the configured sizes under which `n` items arrive as they were sent. */
  predicate SizesAgree(n: nat, m: nat, b: nat, k: nat, limit: nat)
    requires 0 < m && 0 < limit
  {
    || n <= m || b == m
    || (if k <= limit then limit == m * k && (b % m == 0 || n <= b) else k % limit == 0)
  }

  lemma MessageSize(limit: nat, k: nat)
    requires 0 < k && 0 < limit
    ensures var m := ItemsPerMessage(limit, k);
            if k <= limit then m * k <= limit < m * k + k else m == 1
  {
    var q, r := limit / k, limit % k;
    assert limit == k * q + r;
    Commute(k, q);
    if q == 0 {
      assert limit < k;
    } else {
      MulGrows(k, q);
    }
  }

  /** A store batch holds as many whole items as fit, or one message's items if that is more. */
  lemma BatchSize(storeBatch: nat, limit: nat, k: nat)
    requires 0 < k && 0 < limit
    ensures var m, b := ItemsPerMessage(limit, k), ItemsPerBatch(storeBatch, limit, k);
            m <= b && storeBatch < b * k + k && (b == m || b * k <= storeBatch)
  {
    var b, q := ItemsPerBatch(storeBatch, limit, k), storeBatch / k;
    DivParts(storeBatch, k);
    MulMono(q, b, k);
  }

  lemma DivisorSteps(b: nat, m: nat, k: nat, limit: nat) returns (t: nat)
    requires 0 < m && limit == m * k && b % m == 0
    ensures b * k == t * limit
  {
    t := b / m;
    assert b == m * t;
    assert (m * t) * k == t * (m * k);
  }

  lemma AgreeWhenSizesAgree(n: nat, b: nat, k: nat, limit: nat)
    requires 0 < k && 0 < limit
    requires var m := ItemsPerMessage(limit, k); m <= b && SizesAgree(n, m, b, k, limit)
    ensures Frames(n, ItemsPerMessage(limit, k), k, limit) == Frames(n, b, k, limit)
  {
    var m := ItemsPerMessage(limit, k);
    if n <= m {
      FramesAreCut(n, m, k, limit, 0);
      FramesAreCut(n, b, k, limit, 0);
    } else if b != m {
      MessageSize(limit, k);
      if k <= limit {
        FramesAreCut(n, m, k, limit, 1);
        if b % m == 0 {
          var t := DivisorSteps(b, m, k, limit);
          FramesAreCut(n, b, k, limit, t);
        } else {
          FramesAreCut(n, b, k, limit, 0);
        }
      } else {
        var t := k / limit;
        assert k == limit * t;
        Commute(limit, t);
        FramesAreCut(n, 1, k, limit, t);
        assert b * (t * limit) == (b * t) * limit;
        FramesAreCut(n, b, k, limit, b * t);
      }
    }
  }

  /** The receiver's first message is longer than the sender's. */
  lemma HeadsDiffer(n: nat, m: nat, b: nat, k: nat, limit: nat)
    requires 0 < k <= limit && 0 < m < b && m < n && m * k < limit < m * k + k
    ensures Frames(n, m, k, limit) != Frames(n, b, k, limit)
  {
    MulGrows(k, m);
    Commute(k, m);
    FirstStep(n, m, k, limit, 0);
    MulMono(m + 1, Min(n, b), k);
    Distribute(m, 1, k);
    FirstStep(n, b, k, limit, 0);
  }

  /** A batch of `b` items ends `r` items into message `q`. */
  lemma BatchEnd(b: nat, m: nat, k: nat, limit: nat) returns (q: nat, r: nat)
    requires 0 < k && 0 < m && limit == m * k && b % m != 0
    ensures 0 < r < m && b * k == q * limit + r * k && 0 < r * k && r * k + k <= limit && 0 <= q * limit
  {
    q, r := b / m, b % m;
    assert b == m * q + r;
    Distribute(m * q, r, k);
    assert (m * q) * k == q * (m * k);
    MulGrows(k, r);
    Commute(k, r);
    RowFits(r, m, k);
    MulMono(0, q, limit);
  }

  /** The receiver ends its first batch inside a message of the sender. */
  lemma BatchEndsInside(n: nat, m: nat, b: nat, k: nat, limit: nat)
    requires 0 < k && 0 < m < b < n && limit == m * k && b % m != 0 && 0 < limit
    ensures Frames(n, m, k, limit) != Frames(n, b, k, limit)
  {
    var q, r := BatchEnd(b, m, k, limit);
    FirstStep(n, b, k, limit, q);
    RowFits(b, n, k);
    FramesAreCut(n, m, k, limit, 1);
    CutAt(n * k, limit, q);
  }

  /** One item ends `r` elements into its message `q`; two or more items reach past that message. */
  lemma ItemEnd(k: nat, limit: nat, items: nat) returns (q: nat, r: nat)
    requires 0 < limit && k % limit != 0 && 1 < items
    ensures 0 < r < limit && k == q * limit + r && 0 <= q * limit && q * limit + k <= items * k
  {
    q, r := k / limit, k % limit;
    assert k == limit * q + r;
    Commute(limit, q);
    MulMono(0, q, limit);
    MulMono(2, items, k);
  }

  /** One item does not fill whole messages, but the receiver runs items together. */
  lemma ItemsRunTogether(n: nat, b: nat, k: nat, limit: nat)
    requires 0 < limit < k && 1 < b && 1 < n && k % limit != 0
    ensures Frames(n, 1, k, limit) != Frames(n, b, k, limit)
  {
    var q, r := ItemEnd(k, limit, Min(n, b));
    FirstStep(n, 1, k, limit, q);
    FirstStep(n, b, k, limit, q);
  }

  /**
    Initial generation: for every number of items, width and message limit, the
    sender's and the receiver's message lengths are the same if and only if the
    configured sizes satisfy `SizesAgree`.
   */
  lemma InitialFramingAgreesIff(n: nat, k: nat, limit: nat, storeBatch: nat)
    requires 0 < k && 0 < limit
    ensures var m, b := ItemsPerMessage(limit, k), ItemsPerBatch(storeBatch, limit, k);
            Frames(n, m, k, limit) == Frames(n, b, k, limit) <==> SizesAgree(n, m, b, k, limit)
  {
    var m, b := ItemsPerMessage(limit, k), ItemsPerBatch(storeBatch, limit, k);
    if SizesAgree(n, m, b, k, limit) {
      AgreeWhenSizesAgree(n, b, k, limit);
    } else {
      MessageSize(limit, k);
      if limit < k {
        ItemsRunTogether(n, b, k, limit);
      } else if limit != m * k {
        HeadsDiffer(n, m, b, k, limit);
      } else {
        BatchEndsInside(n, m, b, k, limit);
      }
    }
  }

  /**
    The default sizes, 2 MiB messages and 16 MiB batches of 32-byte elements
    (65536 and 524288 of them), satisfy the condition for every supported width and every number of items.
   */
  lemma DefaultSizesAgree(n: nat, k: nat)
    requires k in {8, 16, 32, 64, 128}
    ensures SizesAgree(n, ItemsPerMessage(65536, k), ItemsPerBatch(524288, 65536, k), k, 65536)
  {
    if k == 8 {
      assert ItemsPerMessage(65536, 8) == 8192 && ItemsPerBatch(524288, 65536, 8) == 65536;
    } else if k == 16 {
      assert ItemsPerMessage(65536, 16) == 4096 && ItemsPerBatch(524288, 65536, 16) == 32768;
    } else if k == 32 {
      assert ItemsPerMessage(65536, 32) == 2048 && ItemsPerBatch(524288, 65536, 32) == 16384;
    } else if k == 64 {
      assert ItemsPerMessage(65536, 64) == 1024 && ItemsPerBatch(524288, 65536, 64) == 8192;
    } else {
      assert ItemsPerMessage(65536, 128) == 512 && ItemsPerBatch(524288, 65536, 128) == 4096;
    }
  }

  /** Sizes for which the initial generation of two items fails: messages of 12 elements, items of 8. */
  lemma FramingCanDisagree()
    ensures Frames(2, ItemsPerMessage(12, 8), 8, 12) != Frames(2, ItemsPerBatch(16, 12, 8), 8, 12)
  {
    InitialFramingAgreesIff(2, 8, 12, 16);
  }
}
