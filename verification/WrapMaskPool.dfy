/**
  The pool of wrap masks.  The random bits are regenerated from the seeds; the
  masks come from memory, or from a file that is zeroed behind the cursor.
 */
module WrapMaskPool {
  import opened Arith
  import opened Wrappers
  import opened RngStream
  import opened EdaBitsSpec
  import opened WrapMask

  /** A replicated additive sharing, as one party holds it. */
  datatype RingShare = RingShare(a: nat, b: nat)

  /** Every party also holds its predecessor's summand. */
  predicate HeldTwice(x: RingShare, y: RingShare, z: RingShare) {
    x.b == z.a && y.b == x.a && z.b == y.a
  }

  ghost predicate AllHeldTwice(x: seq<RingShare>, y: seq<RingShare>, z: seq<RingShare>) {
    |x| == |y| == |z| && forall i :: 0 <= i < |x| ==> HeldTwice(x[i], y[i], z[i])
  }

  datatype Batch = Batch(r0: seq<BitShare>, r1: seq<BitShare>, mask: seq<RingShare>)

  /** Random bit `i` as this party holds it. */
  function BitAt(ks: Keystream, s1: Snap, s2: Snap, i: nat): BitShare {
    BitShare(WordSign(ks, s1, i), WordSign(ks, s2, i))
  }

  function Bits(ks: Keystream, s1: Snap, s2: Snap, from: nat, n: nat): (r: seq<BitShare>)
    ensures |r| == n
  {
    seq(n, i requires 0 <= i < n => BitAt(ks, s1, s2, from + i))
  }

  /** The `2 * total` bits the generation draws: first all low bits, then all high ones. */
  function EagerBits(ks: Keystream, s1: Snap, s2: Snap, total: nat): (seq<BitShare>, seq<BitShare>) {
    (Bits(ks, s1, s2, 0, total), Bits(ks, s1, s2, total, total))
  }

  /** Draws the next `n` bits from both generators, which stand at bit `at`. */
  method Draw(rng1: Rng, rng2: Rng, s1: Snap, s2: Snap, at: nat, n: nat) returns (bits: seq<BitShare>)
    requires rng1 != rng2 && rng1.ks == rng2.ks && rng1.seed == s1.seed && rng2.seed == s2.seed
    requires rng1.wordPos == s1.pos + at && rng2.wordPos == s2.pos + at
    modifies rng1, rng2
    ensures bits == Bits(rng1.ks, s1, s2, at, n)
    ensures rng1.wordPos == s1.pos + at + n && rng2.wordPos == s2.pos + at + n
  {
    bits := [];
    for i := 0 to n
      invariant rng1.wordPos == s1.pos + at + i && rng2.wordPos == s2.pos + at + i
      invariant bits == Bits(rng1.ks, s1, s2, at, n)[..i]
    {
      var a := rng1.NextBool();
      var b := rng2.NextBool();
      assert BitShare(a, b) == BitAt(rng1.ks, s1, s2, at + i);
      bits := bits + [BitShare(a, b)];
    }
  }

  /** Replays the generators from the snapshot, skipping what is not wanted. */
  method Replay(
      ks: Keystream, s1: Snap, s2: Snap, total: nat, c: nat, n: nat) returns (r0: seq<BitShare>, r1: seq<BitShare>)
    requires c + n <= total
    ensures r0 == EagerBits(ks, s1, s2, total).0[c..c + n] && r1 == EagerBits(ks, s1, s2, total).1[c..c + n]
  {
    var rng1 := new Rng.FromSeed(ks, s1.seed);
    rng1.SetWordPos(s1.pos);
    var rng2 := new Rng.FromSeed(ks, s2.seed);
    rng2.SetWordPos(s2.pos);
    var _ := Draw(rng1, rng2, s1, s2, 0, c);
    r0 := Draw(rng1, rng2, s1, s2, c, n);
    var _ := Draw(rng1, rng2, s1, s2, c + n, total - c - n);
    var _ := Draw(rng1, rng2, s1, s2, total, c);
    r1 := Draw(rng1, rng2, s1, s2, total + c, n);
  }

  /** The generation draws all bits in one go; the first half are low bits, the second high bits. */
  method GenerateBits(ks: Keystream, s1: Snap, s2: Snap, n: nat) returns (all: seq<BitShare>)
    ensures |all| == 2 * n && (all[..n], all[n..]) == EagerBits(ks, s1, s2, n)
    ensures forall i :: 0 <= i < 2 * n ==> all[i] == BitAt(ks, s1, s2, i)
  {
    var rng1 := new Rng.FromSeed(ks, s1.seed);
    rng1.SetWordPos(s1.pos);
    var rng2 := new Rng.FromSeed(ks, s2.seed);
    rng2.SetWordPos(s2.pos);
    all := Draw(rng1, rng2, s1, s2, 0, 2 * n);
    ghost var (low, high) := EagerBits(ks, s1, s2, n);
    assert all[..n] == low && all[n..] == high;
  }

  // -------------------------------------------------------------------------
  // The pool
  // -------------------------------------------------------------------------

  /** `wrap_masks.meta`. */
  datatype Meta = Meta(s1: Snap, s2: Snap, total: nat, party: PartyId, cursor: nat)

  /** The pool directory. */
  class Dir {
    var meta: Option<Meta>
    var data: Option<seq<RingShare>>
  }

  datatype Store = NoMasks | Memory(v: seq<RingShare>) | OnFile

  function Zeroed(v: seq<RingShare>, from: nat, to: nat): (r: seq<RingShare>)
    ensures |r| == |v|
    ensures forall i :: 0 <= i < |v| ==> r[i] == if from <= i < to then RingShare(0, 0) else v[i]
  {
    seq(|v|, i requires 0 <= i < |v| => if from <= i < to then RingShare(0, 0) else v[i])
  }

  /** The file still holds the masks from position `c` on. */
  ghost predicate FileHolds(f: Option<seq<RingShare>>, generated: seq<RingShare>, c: nat) {
    f.Some? && |f.value| == |generated| && forall i :: c <= i < |generated| ==> f.value[i] == generated[i]
  }

  /** What a directory must hold for the pool loaded from it to hand out the generated masks. */
  ghost predicate Readable(meta: Meta, data: Option<seq<RingShare>>, generated: seq<RingShare>) {
    meta.cursor <= meta.total == |generated| && (meta.total > 0 ==> FileHolds(data, generated, meta.cursor))
  }

  /** The bits and masks of positions `from .. to`. */
  ghost predicate Slice(b: Batch, all: (seq<BitShare>, seq<BitShare>), generated: seq<RingShare>, from: nat, to: nat) {
    && from <= to && to <= |all.0| && to <= |all.1| && to <= |generated|
    && b == Batch(all.0[from..to], all.1[from..to], generated[from..to])
  }

  class LazyWrapMasks {
    const ks: Keystream
    const s1: Snap
    const s2: Snap
    const total: nat
    const party: PartyId
    const dir: Dir
    const store: Store
    ghost const generated: seq<RingShare>
    var cursor: nat
    var saved: bool

    ghost predicate StoreSound()
      reads this, dir
    {
      match store
      case NoMasks => total == 0
      case Memory(v) => v == generated
      case OnFile => FileHolds(dir.data, generated, cursor)
    }

    /** The cursor in the meta file may lag behind, for a failed write of it goes unnoticed. */
    ghost predicate Valid()
      reads this, dir
    {
      && cursor <= total == |generated| && StoreSound()
      && (saved ==>
            && dir.meta.Some? && dir.meta.value.cursor <= cursor
            && dir.meta.value == Meta(s1, s2, total, party, dir.meta.value.cursor)
            && (total > 0 ==> FileHolds(dir.data, generated, cursor)))
    }

    ghost predicate Current()
      reads this, dir
    {
      saved ==> dir.meta.Some? && dir.meta.value.cursor == cursor
    }

    constructor New(ks: Keystream, s1: Snap, s2: Snap, masks: seq<RingShare>, party: PartyId, dir: Dir)
      ensures Valid() && Current() && this.ks == ks && this.s1 == s1 && this.s2 == s2
      ensures this.party == party && this.dir == dir && this.total == |masks| && generated == masks
      ensures cursor == 0 && !saved && store == Memory(masks)
    {
      this.ks, this.s1, this.s2, this.party, this.dir := ks, s1, s2, party, dir;
      this.total, this.store, this.generated := |masks|, Memory(masks), masks;
      cursor, saved := 0, false;
    }

    constructor Empty(ks: Keystream, party: PartyId, dir: Dir)
      ensures Valid() && Current() && this.ks == ks && s1 == s2 == Snap(seq(SEED_SIZE, _ => 0), 0)
      ensures this.party == party && this.dir == dir && total == 0 && generated == []
      ensures cursor == 0 && !saved && store == NoMasks
    {
      this.ks, this.party, this.dir := ks, party, dir;
      this.s1, this.s2 := Snap(seq(SEED_SIZE, _ => 0), 0), Snap(seq(SEED_SIZE, _ => 0), 0);
      this.total, this.store, this.generated := 0, NoMasks, [];
      cursor, saved := 0, false;
    }

    /** The pool as the meta file and the data file describe it. */
    constructor FromMeta(ks: Keystream, meta: Meta, store: Store, dir: Dir, ghost generated: seq<RingShare>)
      ensures this.ks == ks && s1 == meta.s1 && s2 == meta.s2 && total == meta.total && party == meta.party
      ensures this.dir == dir && this.store == store && this.generated == generated
      ensures cursor == meta.cursor && saved
    {
      this.ks, this.s1, this.s2, this.party, this.dir := ks, meta.s1, meta.s2, meta.party, dir;
      this.total, this.store, this.generated := meta.total, store, generated;
      cursor, saved := meta.cursor, true;
    }

    /** The masks of a range of the store. */
    method ReadMasks(n: nat) returns (mask: seq<RingShare>)
      requires Valid() && cursor + n <= total
      ensures mask == generated[cursor..cursor + n]
    {
      match store
      case NoMasks => mask := [];
      case Memory(v) => mask := v[cursor..cursor + n];
      case OnFile => mask := dir.data.value[cursor..cursor + n];
    }

    /**
      Hands out the next `n` masks, or fails and changes nothing.  The cursor is
      written to the meta file before the masks are zeroed in the data file;
      `persisted` says whether that write succeeds.
     */
    method TakeBatch(n: nat, persisted: bool) returns (r: Result<Batch>)
      requires Valid()
      modifies this`cursor, dir`meta, dir`data
      ensures Valid() && (old(Current()) && persisted ==> Current())
      ensures r.Ok? <==> old(cursor) + n <= total
      ensures cursor == if r.Ok? then old(cursor) + n else old(cursor)
      ensures r.Ok? ==> Slice(r.value, EagerBits(ks, s1, s2, total), generated, old(cursor), cursor)
      ensures dir.meta == if r.Ok? && n > 0 && saved && persisted then Some(old(dir.meta).value.(cursor := cursor))
                          else old(dir.meta)
      ensures dir.data == if r.Ok? && n > 0 && store.OnFile? then Some(Zeroed(old(dir.data).value, old(cursor), cursor))
                          else old(dir.data)
    {
      if cursor + n > total {
        return Err;
      }
      if n == 0 {
        return Ok(Batch([], [], []));
      }
      var c := cursor;
      var r0, r1 := Replay(ks, s1, s2, total, c, n);
      var mask := ReadMasks(n);
      cursor := cursor + n;
      if saved && persisted {
        dir.meta := Some(dir.meta.value.(cursor := cursor));
      }
      if store.OnFile? {
        dir.data := Some(Zeroed(dir.data.value, c, c + n));
      }
      r := Ok(Batch(r0, r1, mask));
    }

    /** Writes the masks, if they are in memory, and the meta file. */
    method Save()
      requires Valid()
      modifies this`saved, dir`meta, dir`data
      ensures Valid() && Current() && saved && dir.meta == Some(Meta(s1, s2, total, party, cursor))
      ensures dir.data == if store.Memory? && store.v != [] then Some(store.v) else old(dir.data)
    {
      if store.Memory? && store.v != [] {
        dir.data := Some(store.v);
      }
      dir.meta := Some(Meta(s1, s2, total, party, cursor));
      saved := true;
    }
  }

  /**
    Loads a pool.  Without a meta file it is empty; another party's meta file or
    a missing data file is an error.  What is loaded hands out the generated
    masks exactly if the directory is readable.
   */
  method Load(ks: Keystream, dir: Dir, party: PartyId, ghost generated: seq<RingShare>)
    returns (r: Result<LazyWrapMasks>)
    ensures r.Err? <==> dir.meta.Some? &&
                        (dir.meta.value.party != party || (dir.meta.value.total > 0 && dir.data.None?))
    ensures r.Ok? ==> fresh(r.value) && r.value.ks == ks && r.value.dir == dir && r.value.party == party
    ensures r.Ok? && dir.meta.None? ==> r.value.Valid() && r.value.total == 0 && !r.value.saved
    ensures r.Ok? && dir.meta.Some? ==>
      && r.value.s1 == dir.meta.value.s1 && r.value.s2 == dir.meta.value.s2 && r.value.generated == generated
      && r.value.total == dir.meta.value.total && r.value.cursor == dir.meta.value.cursor && r.value.saved
      && (r.value.Valid() <==> Readable(dir.meta.value, dir.data, generated))
  {
    if dir.meta.None? {
      var p := new LazyWrapMasks.Empty(ks, party, dir);
      return Ok(p);
    }
    var meta := dir.meta.value;
    if meta.party != party {
      return Err;
    }
    var store := NoMasks;
    if meta.total > 0 {
      if dir.data.None? {
        return Err;
      }
      store := if dir.data.value == [] then NoMasks else OnFile;
    }
    var p := new LazyWrapMasks.FromMeta(ks, meta, store, dir, generated);
    r := Ok(p);
  }

  // -------------------------------------------------------------------------
  // Runs of a pool
  // -------------------------------------------------------------------------

  /** Loads what a pool has left in its directory. */
  method Reload(p: LazyWrapMasks) returns (q: LazyWrapMasks)
    requires p.Valid() && p.saved
    ensures fresh(q) && q.ks == p.ks && q.s1 == p.s1 && q.s2 == p.s2 && q.total == p.total && q.party == p.party
    ensures q.dir == p.dir && q.generated == p.generated && q.saved && q.cursor == p.dir.meta.value.cursor
    ensures q.Valid() <==> Readable(p.dir.meta.value, p.dir.data, p.generated)
    ensures p.Current() ==> q.Valid() && q.Current()
  {
    var r := Load(p.ks, p.dir, p.party, p.generated);
    q := r.value;
  }

  /**
    A take whose cursor is not persisted, and then a restart.  The loaded pool
    starts again at the old cursor.  If the masks come from memory, the file
    still has them and the same masks are handed out a second time; if they come
    from the file, it has none left, and the loaded pool is sound only for masks
    that were zero anyway.
   */
  method ReloadStale(p: LazyWrapMasks, n: nat) returns (q: LazyWrapMasks)
    requires p.Valid() && p.saved && p.Current() && p.cursor + n <= p.total
    modifies p`cursor, p.dir`meta, p.dir`data
    ensures fresh(q) && q.cursor == old(p.cursor) && q.generated == p.generated && q.total == p.total
    ensures p.store.Memory? ==> q.Valid()
    ensures p.store.OnFile? ==>
      (q.Valid() <==> forall i :: old(p.cursor) <= i < old(p.cursor) + n ==> p.generated[i] == RingShare(0, 0))
  {
    ghost var c, data := p.cursor, p.dir.data;
    var _ := p.TakeBatch(n, false);
    q := Reload(p);
    if p.store.OnFile? && p.total > 0 {
      ZeroedHolds(data.value, p.generated, c, n);
    }
  }

  lemma ZeroedHolds(f: seq<RingShare>, generated: seq<RingShare>, c: nat, n: nat)
    requires FileHolds(Some(f), generated, c) && c + n <= |f|
    ensures FileHolds(Some(Zeroed(f, c, c + n)), generated, c)
       <==> forall i :: c <= i < c + n ==> generated[i] == RingShare(0, 0)
  {
    var z := Zeroed(f, c, c + n);
    if FileHolds(Some(z), generated, c) {
      forall i | c <= i < c + n
        ensures generated[i] == RingShare(0, 0)
      {
        assert z[i] == generated[i];
      }
    }
  }

  datatype Op = Take(n: nat) | SavePool | Restart

  /** The cursor after one operation, and after a run. */
  function CursorStep(total: nat, c: nat, op: Op): nat {
    if op.Take? && c + op.n <= total then c + op.n else c
  }

  function CursorAfter(total: nat, c: nat, ops: seq<Op>): nat
    decreases |ops|
  {
    if ops == [] then c else CursorAfter(total, CursorStep(total, c, ops[0]), ops[1..])
  }

  function Join(a: Batch, b: Batch): Batch {
    Batch(a.r0 + b.r0, a.r1 + b.r1, a.mask + b.mask)
  }

  lemma SliceMore(a: Batch, b: Batch, all: (seq<BitShare>, seq<BitShare>), generated: seq<RingShare>,
                  from: nat, mid: nat, to: nat)
    requires Slice(a, all, generated, from, mid) && Slice(b, all, generated, mid, to)
    ensures Slice(Join(a, b), all, generated, from, to)
  {
    assert all.0[from..mid] + all.0[mid..to] == all.0[from..to];
    assert all.1[from..mid] + all.1[mid..to] == all.1[from..to];
    assert generated[from..mid] + generated[mid..to] == generated[from..to];
  }

  /** The same generators and masks in the same directory. */
  ghost predicate SameMasks(p: LazyWrapMasks, q: LazyWrapMasks) {
    && p.ks == q.ks && p.s1 == q.s1 && p.s2 == q.s2 && p.total == q.total && p.generated == q.generated
    && p.dir == q.dir
  }

  /** The pool is sound and its directory up to date. */
  ghost predicate Ready(p: LazyWrapMasks)
    reads p, p.dir
  {
    p.Valid() && p.Current()
  }

  function EagerOf(p: LazyWrapMasks): (seq<BitShare>, seq<BitShare>) {
    EagerBits(p.ks, p.s1, p.s2, p.total)
  }

  /** One operation; a restart of a pool that was never saved is skipped. */
  method Apply(p: LazyWrapMasks, op: Op) returns (b: Batch, q: LazyWrapMasks)
    requires Ready(p)
    modifies p`cursor, p`saved, p.dir
    ensures q == p || fresh(q)
    ensures Ready(q) && SameMasks(p, q) && old(p.cursor) <= q.cursor == CursorStep(p.total, old(p.cursor), op)
    ensures Slice(b, EagerOf(p), p.generated, old(p.cursor), q.cursor)
  {
    b, q := Batch([], [], []), p;
    match op
    case Take(n) =>
      var r := p.TakeBatch(n, true);
      if r.Ok? {
        b := r.value;
      }
    case SavePool =>
      p.Save();
    case Restart =>
      if p.saved {
        q := Reload(p);
      }
  }

  /**
    Any run of takes, saves and restarts whose cursor writes succeed: the batches
    concatenate to the generated vectors, no mask twice and none skipped.  Takes
    that the pool cannot serve hand out nothing.
   */
  method Session(pool: LazyWrapMasks, ops: seq<Op>) returns (b: Batch, last: LazyWrapMasks)
    requires Ready(pool)
    modifies pool`cursor, pool`saved, pool.dir
    ensures last == pool || fresh(last)
    ensures Ready(last) && SameMasks(pool, last)
    ensures old(pool.cursor) <= last.cursor == CursorAfter(pool.total, old(pool.cursor), ops)
    ensures Slice(b, EagerOf(pool), pool.generated, old(pool.cursor), last.cursor)
    decreases |ops|
  {
    b, last := Batch([], [], []), pool;
    if ops != [] {
      ghost var c := pool.cursor;
      var first, next := Apply(pool, ops[0]);
      ghost var mid := next.cursor;
      var rest;
      rest, last := Session(next, ops[1..]);
      SliceMore(first, rest, EagerOf(pool), pool.generated, c, mid, last.cursor);
      b := Join(first, rest);
    }
  }

  // -------------------------------------------------------------------------
  // The three parties
  // -------------------------------------------------------------------------

  /** The low or high bit of mask `i` at the three parties. */
  ghost predicate BitsFit(ks: Keystream, s0: Snap, s1: Snap, s2: Snap, low: nat, high: nat, mask: Summands, k: nat)
    requires 2 <= k
  {
    Value(mask, k)
    == TwoBits(Combine(BitAt(ks, s0, s2, low), BitAt(ks, s1, s0, low), BitAt(ks, s2, s1, low)),
               Combine(BitAt(ks, s0, s2, high), BitAt(ks, s1, s0, high), BitAt(ks, s2, s1, high))) * Pow2(k - 2)
  }

  /** The three parties' masks are replicated, and those of their bits. */
  ghost predicate MasksFit(k: nat, ks: Keystream, s0: Snap, s1: Snap, s2: Snap,
                           m0: seq<RingShare>, m1: seq<RingShare>, m2: seq<RingShare>, n: nat)
    requires 2 <= k
  {
    && |m0| == |m1| == |m2| == n && AllHeldTwice(m0, m1, m2)
    && forall i :: 0 <= i < n ==> BitsFit(ks, s0, s1, s2, i, n + i, Summands(m0[i].a, m1[i].a, m2[i].a), k)
  }

  /** Each party shares a snapshot with its neighbours, and the masks are those of the bits. */
  ghost predicate Fit(k: nat, p0: LazyWrapMasks, p1: LazyWrapMasks, p2: LazyWrapMasks)
    requires 2 <= k
  {
    && p0.ks == p1.ks == p2.ks && p0.total == p1.total == p2.total
    && p0.s2 == p2.s1 && p1.s2 == p0.s1 && p2.s2 == p1.s1
    && MasksFit(k, p0.ks, p0.s1, p1.s1, p2.s1, p0.generated, p1.generated, p2.generated, p0.total)
  }

  // -------------------------------------------------------------------------
  // Generation
  // -------------------------------------------------------------------------

  /** The parties' joint conversion of shared bits to additive shares, `bit_inject_from_bits_many`. */
  type Inject = (seq<BitShare>, seq<BitShare>, seq<BitShare>) -> (seq<RingShare>, seq<RingShare>, seq<RingShare>)

  ghost predicate Replicated(x: seq<BitShare>, y: seq<BitShare>, z: seq<BitShare>) {
    |x| == |y| == |z| && forall i :: 0 <= i < |x| ==> Consistent(x[i], y[i], z[i])
  }

  ghost predicate Converted(k: nat, x: seq<BitShare>, y: seq<BitShare>, z: seq<BitShare>,
                            a: seq<RingShare>, b: seq<RingShare>, c: seq<RingShare>) {
    && |a| == |b| == |c| == |x| == |y| == |z| && AllHeldTwice(a, b, c)
    && forall i :: 0 <= i < |x| ==> Value(Summands(a[i].a, b[i].a, c[i].a), k) == AsBit(Combine(x[i], y[i], z[i]))
  }

  /** On consistent sharings the conversion keeps the values, and its results are replicated. */
  ghost predicate Converts(inject: Inject, k: nat) {
    forall x: seq<BitShare>, y: seq<BitShare>, z: seq<BitShare> :: Replicated(x, y, z) ==>
      Converted(k, x, y, z, inject(x, y, z).0, inject(x, y, z).1, inject(x, y, z).2)
  }

  /** A party's share of the mask from its shares of the two bits. */
  function MaskShare(r0: RingShare, r1: RingShare, k: nat): RingShare
    requires 2 <= k
  {
    RingShare(MaskSummand(r0.a, r1.a, k), MaskSummand(r0.b, r1.b, k))
  }

  /** One party's masks, from its additive shares of all low and then all high bits. */
  method ScaleMasks(k: nat, arith: seq<RingShare>, n: nat) returns (masks: seq<RingShare>)
    requires 2 <= k && |arith| == 2 * n
    ensures |masks| == n && forall i :: 0 <= i < n ==> masks[i] == MaskShare(arith[i], arith[n + i], k)
  {
    masks := [];
    for i := 0 to n
      invariant |masks| == i && forall j :: 0 <= j < i ==> masks[j] == MaskShare(arith[j], arith[n + j], k)
    {
      masks := masks + [MaskShare(arith[i], arith[n + i], k)];
    }
  }

  /** Bits drawn from common seeds are consistent, so the conversion keeps every one of them. */
  lemma DrawnConverted(k: nat, ks: Keystream, s0: Snap, s1: Snap, s2: Snap, n: nat, inject: Inject,
                       x: seq<BitShare>, y: seq<BitShare>, z: seq<BitShare>)
    requires Converts(inject, k) && |x| == |y| == |z| == n
    requires forall i :: 0 <= i < n ==>
      x[i] == BitAt(ks, s0, s2, i) && y[i] == BitAt(ks, s1, s0, i) && z[i] == BitAt(ks, s2, s1, i)
    ensures Converted(k, x, y, z, inject(x, y, z).0, inject(x, y, z).1, inject(x, y, z).2)
  {
    assert Replicated(x, y, z);
  }

  /** The masks made of converted bits fit the bits. */
  lemma ScaledFit(k: nat, ks: Keystream, s0: Snap, s1: Snap, s2: Snap, n: nat,
                  x: seq<BitShare>, y: seq<BitShare>, z: seq<BitShare>,
                  a: seq<RingShare>, b: seq<RingShare>, c: seq<RingShare>, i: nat)
    requires 2 <= k && i < n && |x| == |y| == |z| == 2 * n && Converted(k, x, y, z, a, b, c)
    requires forall j :: 0 <= j < 2 * n ==>
      x[j] == BitAt(ks, s0, s2, j) && y[j] == BitAt(ks, s1, s0, j) && z[j] == BitAt(ks, s2, s1, j)
    ensures HeldTwice(MaskShare(a[i], a[n + i], k), MaskShare(b[i], b[n + i], k), MaskShare(c[i], c[n + i], k))
    ensures BitsFit(ks, s0, s1, s2, i, n + i,
                    Summands(MaskShare(a[i], a[n + i], k).a, MaskShare(b[i], b[n + i], k).a,
                             MaskShare(c[i], c[n + i], k).a), k)
  {
    var j := n + i;
    assert HeldTwice(a[i], b[i], c[i]) && HeldTwice(a[j], b[j], c[j]);
    MaskValue(Summands(a[i].a, b[i].a, c[i].a), Summands(a[j].a, b[j].a, c[j].a), k,
              Combine(x[i], y[i], z[i]), Combine(x[j], y[j], z[j]));
  }

  /** Every party draws its bits, all convert them together, and every party scales its shares locally. */
  method GenerateMasks(k: nat, ks: Keystream, s0: Snap, s1: Snap, s2: Snap, n: nat, inject: Inject)
    returns (m0: seq<RingShare>, m1: seq<RingShare>, m2: seq<RingShare>)
    requires 2 <= k && Converts(inject, k)
    ensures MasksFit(k, ks, s0, s1, s2, m0, m1, m2, n)
  {
    var x := GenerateBits(ks, s0, s2, n);
    var y := GenerateBits(ks, s1, s0, n);
    var z := GenerateBits(ks, s2, s1, n);
    DrawnConverted(k, ks, s0, s1, s2, 2 * n, inject, x, y, z);
    var (a, b, c) := inject(x, y, z);
    m0 := ScaleMasks(k, a, n);
    m1 := ScaleMasks(k, b, n);
    m2 := ScaleMasks(k, c, n);
    forall i: nat | i < n
      ensures HeldTwice(m0[i], m1[i], m2[i])
      ensures BitsFit(ks, s0, s1, s2, i, n + i, Summands(m0[i].a, m1[i].a, m2[i].a), k)
    {
      ScaledFit(k, ks, s0, s1, s2, n, x, y, z, a, b, c, i);
    }
  }

  /** The generation at the three parties.  The pools fit, as the extraction needs. */
  method GeneratePools(k: nat, ks: Keystream, s0: Snap, s1: Snap, s2: Snap, n: nat, inject: Inject,
                       d0: Dir, d1: Dir, d2: Dir)
    returns (p0: LazyWrapMasks, p1: LazyWrapMasks, p2: LazyWrapMasks)
    requires 2 <= k && Converts(inject, k)
    ensures fresh(p0) && fresh(p1) && fresh(p2) && p0 != p1 && p1 != p2 && p0 != p2
    ensures Ready(p0) && Ready(p1) && Ready(p2) && p0.dir == d0 && p1.dir == d1 && p2.dir == d2
    ensures p0.cursor == p1.cursor == p2.cursor == 0 && p0.total == n
    ensures Fit(k, p0, p1, p2)
  {
    if n == 0 {
      p0 := new LazyWrapMasks.Empty(ks, ID0, d0);
      p1 := new LazyWrapMasks.Empty(ks, ID1, d1);
      p2 := new LazyWrapMasks.Empty(ks, ID2, d2);
      return;
    }
    var m0, m1, m2 := GenerateMasks(k, ks, s0, s1, s2, n, inject);
    p0 := new LazyWrapMasks.New(ks, s0, s2, m0, ID0, d0);
    p1 := new LazyWrapMasks.New(ks, s1, s0, m1, ID1, d1);
    p2 := new LazyWrapMasks.New(ks, s2, s1, m2, ID2, d2);
  }

  /** Three pools, their objects and directories apart, that stand at the same mask and fit. */
  ghost predicate InStep(k: nat, p0: LazyWrapMasks, p1: LazyWrapMasks, p2: LazyWrapMasks)
    requires 2 <= k
    reads p0, p0.dir, p1, p1.dir, p2, p2.dir
  {
    && p0 != p1 && p1 != p2 && p0 != p2 && p0.dir != p1.dir && p1.dir != p2.dir && p0.dir != p2.dir
    && p0.Valid() && p1.Valid() && p2.Valid() && p0.cursor == p1.cursor == p2.cursor && Fit(k, p0, p1, p2)
  }

  /** The parties use, save and restart their pools in step. */
  method CommonSession(k: nat, p0: LazyWrapMasks, p1: LazyWrapMasks, p2: LazyWrapMasks, ops: seq<Op>)
    returns (q0: LazyWrapMasks, q1: LazyWrapMasks, q2: LazyWrapMasks)
    requires 2 <= k && InStep(k, p0, p1, p2) && p0.Current() && p1.Current() && p2.Current()
    modifies p0, p0.dir, p1, p1.dir, p2, p2.dir
    ensures (q0 == p0 || fresh(q0)) && (q1 == p1 || fresh(q1)) && (q2 == p2 || fresh(q2))
    ensures q0.dir == p0.dir && q1.dir == p1.dir && q2.dir == p2.dir && q0.total == p0.total
    ensures InStep(k, q0, q1, q2) && q0.cursor == CursorAfter(p0.total, old(p0.cursor), ops)
  {
    var _, a := Session(p0, ops);
    var _, b := Session(p1, ops);
    var _, c := Session(p2, ops);
    q0, q1, q2 := a, b, c;
  }

  // -------------------------------------------------------------------------
  // Extraction
  // -------------------------------------------------------------------------

  /** A party's share of the difference. */
  function Minus(d: RingShare, r: RingShare, k: nat): RingShare {
    RingShare(Wrap(d.a - r.a, k), Wrap(d.b - r.b, k))
  }

  function Differences(ds: seq<RingShare>, rs: seq<RingShare>, k: nat): (r: seq<RingShare>)
    requires |ds| == |rs|
    ensures |r| == |ds| && forall i :: 0 <= i < |ds| ==> r[i] == Minus(ds[i], rs[i], k)
  {
    seq(|ds|, i requires 0 <= i < |ds| => Minus(ds[i], rs[i], k))
  }

  /** What a party sends to the next one when opening. */
  function Passed(c: seq<RingShare>): (r: seq<nat>)
    ensures |r| == |c| && forall i :: 0 <= i < |c| ==> r[i] == c[i].b
  {
    seq<nat>(|c|, i requires 0 <= i < |c| => c[i].b)
  }

  /** A party's own two summands and the one it received. */
  function Opened(c: seq<RingShare>, received: seq<nat>, k: nat): (r: seq<nat>)
    requires |c| == |received|
    ensures |r| == |c| && forall i :: 0 <= i < |c| ==> r[i] == Wrap(c[i].a + c[i].b + received[i], k)
  {
    seq<nat>(|c|, i requires 0 <= i < |c| => Wrap(c[i].a + c[i].b + received[i], k))
  }

  /** All parties open a replicated sharing to its value. */
  lemma OpenAlike(x: seq<RingShare>, y: seq<RingShare>, z: seq<RingShare>, k: nat, i: nat)
    requires AllHeldTwice(x, y, z) && i < |x|
    ensures Opened(x, Passed(z), k)[i] == Opened(y, Passed(x), k)[i] == Opened(z, Passed(y), k)[i]
         == Value(Summands(x[i].a, y[i].a, z[i].a), k)
  {
    assert HeldTwice(x[i], y[i], z[i]);
  }

  lemma DifferencesHeld(d0: seq<RingShare>, d1: seq<RingShare>, d2: seq<RingShare>,
                        m0: seq<RingShare>, m1: seq<RingShare>, m2: seq<RingShare>, k: nat)
    requires AllHeldTwice(d0, d1, d2) && AllHeldTwice(m0, m1, m2) && |d0| == |m0|
    ensures AllHeldTwice(Differences(d0, m0, k), Differences(d1, m1, k), Differences(d2, m2, k))
  {
    forall i | 0 <= i < |d0|
      ensures HeldTwice(Minus(d0[i], m0[i], k), Minus(d1[i], m1[i], k), Minus(d2[i], m2[i], k))
    {
      assert HeldTwice(d0[i], d1[i], d2[i]) && HeldTwice(m0[i], m1[i], m2[i]);
    }
  }

  /** A mask across the parties: consistent bits, and the two-bit number they share in the top bits. */
  ghost predicate MaskFits(k: nat, x0: BitShare, x1: BitShare, x2: BitShare, y0: BitShare, y1: BitShare, y2: BitShare,
                           mask: Summands)
    requires 2 <= k
  {
    && Consistent(x0, x1, x2) && Consistent(y0, y1, y2)
    && Value(mask, k) == TwoBits(Combine(x0, x1, x2), Combine(y0, y1, y2)) * Pow2(k - 2)
  }

  ghost predicate BatchesFit(k: nat, b0: Batch, b1: Batch, b2: Batch, n: nat)
    requires 2 <= k
  {
    && |b0.r0| == |b0.r1| == |b0.mask| == n && |b1.r0| == |b1.r1| == |b1.mask| == n
    && |b2.r0| == |b2.r1| == |b2.mask| == n && AllHeldTwice(b0.mask, b1.mask, b2.mask)
    && forall i :: 0 <= i < n ==> MaskFits(k, b0.r0[i], b1.r0[i], b2.r0[i], b0.r1[i], b1.r1[i], b2.r1[i],
                                           Summands(b0.mask[i].a, b1.mask[i].a, b2.mask[i].a))
  }

  /** The counts in the top bits, in a replicated additive sharing. */
  ghost predicate Shares(k: nat, d0: seq<RingShare>, d1: seq<RingShare>, d2: seq<RingShare>, ms: seq<nat>)
    requires 2 <= k
  {
    && |d0| == |d1| == |d2| == |ms| && AllHeldTwice(d0, d1, d2)
    && forall i :: 0 <= i < |ms| ==>
         ms[i] < 4 && Value(Summands(d0[i].a, d1[i].a, d2[i].a), k) == ms[i] * Pow2(k - 2)
  }

  /** The two bits of one position at one party. */
  function Unmasked(b: Batch, i: nat, c: nat, k: nat, party: PartyId): (BitShare, BitShare)
    requires i < |b.r0| && i < |b.r1| && 2 <= k
  {
    TwoBitAdd(TopOf(c, k), b.r0[i], b.r1[i], party)
  }

  /** The difference opens, at every party, to the value of the summands' differences. */
  lemma OpenedIs(k: nat, d0: seq<RingShare>, d1: seq<RingShare>, d2: seq<RingShare>,
                 m0: seq<RingShare>, m1: seq<RingShare>, m2: seq<RingShare>, i: nat)
    requires AllHeldTwice(d0, d1, d2) && AllHeldTwice(m0, m1, m2) && i < |d0| == |m0|
    ensures var c0, c1, c2 := Differences(d0, m0, k), Differences(d1, m1, k), Differences(d2, m2, k);
            Opened(c0, Passed(c2), k)[i] == Opened(c1, Passed(c0), k)[i] == Opened(c2, Passed(c1), k)[i]
            == Value(MinusSummands(Summands(d0[i].a, d1[i].a, d2[i].a), Summands(m0[i].a, m1[i].a, m2[i].a), k), k)
  {
    DifferencesHeld(d0, d1, d2, m0, m1, m2, k);
    OpenAlike(Differences(d0, m0, k), Differences(d1, m1, k), Differences(d2, m2, k), k, i);
  }

  /** One position across the parties. */
  lemma PositionCorrect(k: nat, d0: seq<RingShare>, d1: seq<RingShare>, d2: seq<RingShare>, ms: seq<nat>,
                        b0: Batch, b1: Batch, b2: Batch, open: nat, i: nat)
    requires 2 <= k && i < |ms| && Shares(k, d0, d1, d2, ms) && BatchesFit(k, b0, b1, b2, |ms|)
    requires open == Value(MinusSummands(Summands(d0[i].a, d1[i].a, d2[i].a),
                                         Summands(b0.mask[i].a, b1.mask[i].a, b2.mask[i].a), k), k)
    ensures SharesSum(ms[i], 0, Unmasked(b0, i, open, k, ID0), Unmasked(b1, i, open, k, ID1),
                      Unmasked(b2, i, open, k, ID2))
  {
    var diff, mask := Summands(d0[i].a, d1[i].a, d2[i].a), Summands(b0.mask[i].a, b1.mask[i].a, b2.mask[i].a);
    assert MaskFits(k, b0.r0[i], b1.r0[i], b2.r0[i], b0.r1[i], b1.r1[i], b2.r1[i], mask);
    ExtractCorrect(k, ms[i], diff, mask, b0.r0[i], b1.r0[i], b2.r0[i], b0.r1[i], b1.r1[i], b2.r1[i]);
  }

  /** The parties open the masked differences, each for itself, and add the top bits to their mask bits. */
  method Unmask(k: nat, b0: Batch, b1: Batch, b2: Batch,
                d0: seq<RingShare>, d1: seq<RingShare>, d2: seq<RingShare>, ghost ms: seq<nat>)
    returns (x0: seq<BitShare>, x1: seq<BitShare>, y0: seq<BitShare>, y1: seq<BitShare>,
             z0: seq<BitShare>, z1: seq<BitShare>)
    requires 2 <= k && Shares(k, d0, d1, d2, ms) && BatchesFit(k, b0, b1, b2, |ms|)
    ensures |x0| == |x1| == |y0| == |y1| == |z0| == |z1| == |ms|
    ensures forall i :: 0 <= i < |ms| ==> SharesSum(ms[i], 0, (x0[i], x1[i]), (y0[i], y1[i]), (z0[i], z1[i]))
  {
    var c0, c1, c2 := Differences(d0, b0.mask, k), Differences(d1, b1.mask, k), Differences(d2, b2.mask, k);
    var open0, open1, open2 := Opened(c0, Passed(c2), k), Opened(c1, Passed(c0), k), Opened(c2, Passed(c1), k);
    x0, x1 := ExtractMany(k, open0, b0.r0, b0.r1, ID0);
    y0, y1 := ExtractMany(k, open1, b1.r0, b1.r1, ID1);
    z0, z1 := ExtractMany(k, open2, b2.r0, b2.r1, ID2);
    forall i | 0 <= i < |ms|
      ensures SharesSum(ms[i], 0, (x0[i], x1[i]), (y0[i], y1[i]), (z0[i], z1[i]))
    {
      OpenedIs(k, d0, d1, d2, b0.mask, b1.mask, b2.mask, i);
      PositionCorrect(k, d0, d1, d2, ms, b0, b1, b2, open0[i], i);
    }
  }

  /** The batch holds the masks of positions `c .. c + n` of the pool. */
  ghost predicate From(b: Batch, ks: Keystream, s1: Snap, s2: Snap, total: nat, generated: seq<RingShare>,
                       c: nat, n: nat)
    requires c + n <= |generated|
  {
    && |b.r0| == |b.r1| == |b.mask| == n
    && forall i :: 0 <= i < n ==>
         && b.r0[i] == BitAt(ks, s1, s2, c + i) && b.r1[i] == BitAt(ks, s1, s2, total + (c + i))
         && b.mask[i] == generated[c + i]
  }

  lemma BitsAt(ks: Keystream, s1: Snap, s2: Snap, from: nat, total: nat, c: nat, n: nat, i: nat)
    requires c + n <= total && i < n
    ensures Bits(ks, s1, s2, from, total)[c..c + n][i] == BitAt(ks, s1, s2, from + (c + i))
  {
  }

  lemma SlicesFrom(b: Batch, ks: Keystream, s1: Snap, s2: Snap, total: nat, generated: seq<RingShare>, c: nat, n: nat)
    requires c + n <= total == |generated| && b.mask == generated[c..c + n]
    requires b.r0 == Bits(ks, s1, s2, 0, total)[c..c + n] && b.r1 == Bits(ks, s1, s2, total, total)[c..c + n]
    ensures From(b, ks, s1, s2, total, generated, c, n)
  {
    forall i | 0 <= i < n
      ensures b.r0[i] == BitAt(ks, s1, s2, c + i) && b.r1[i] == BitAt(ks, s1, s2, total + (c + i))
      ensures b.mask[i] == generated[c + i]
    {
      BitsAt(ks, s1, s2, 0, total, c, n, i);
      BitsAt(ks, s1, s2, total, total, c, n, i);
    }
  }

  /** The next masks of a party, and the positions they come from. */
  method TakeMasks(p: LazyWrapMasks, n: nat, persisted: bool) returns (ok: bool, b: Batch)
    requires p.Valid()
    modifies p`cursor, p.dir`meta, p.dir`data
    ensures p.Valid() && (ok <==> old(p.cursor) + n <= p.total)
    ensures ok ==> From(b, p.ks, p.s1, p.s2, p.total, p.generated, old(p.cursor), n)
  {
    b := Batch([], [], []);
    ghost var c := p.cursor;
    var r := p.TakeBatch(n, persisted);
    ok := r.Ok?;
    if ok {
      b := r.value;
      SlicesFrom(b, p.ks, p.s1, p.s2, p.total, p.generated, c, n);
    }
  }

  /** Batches of the same positions of fitting pools fit. */
  lemma TakenFit(k: nat, p0: LazyWrapMasks, p1: LazyWrapMasks, p2: LazyWrapMasks,
                 b0: Batch, b1: Batch, b2: Batch, c: nat, n: nat)
    requires 2 <= k && Fit(k, p0, p1, p2) && c + n <= p0.total
    requires From(b0, p0.ks, p0.s1, p0.s2, p0.total, p0.generated, c, n)
    requires From(b1, p1.ks, p1.s1, p1.s2, p1.total, p1.generated, c, n)
    requires From(b2, p2.ks, p2.s1, p2.s2, p2.total, p2.generated, c, n)
    ensures BatchesFit(k, b0, b1, b2, n)
  {
    forall i | 0 <= i < n
      ensures HeldTwice(b0.mask[i], b1.mask[i], b2.mask[i])
      ensures MaskFits(k, b0.r0[i], b1.r0[i], b2.r0[i], b0.r1[i], b1.r1[i], b2.r1[i],
                       Summands(b0.mask[i].a, b1.mask[i].a, b2.mask[i].a))
    {
      var j := c + i;
      assert HeldTwice(p0.generated[j], p1.generated[j], p2.generated[j]);
      assert BitsFit(p0.ks, p0.s1, p1.s1, p2.s1, j, p0.total + j,
                     Summands(p0.generated[j].a, p1.generated[j].a, p2.generated[j].a), k);
    }
  }

  /**
    The whole extraction: the three parties take the next masks of their pools,
    open the masked differences and add the top bits to their mask bits.  It
    fails exactly when the pools are short, and otherwise the parties hold
    consistent shares of the two bits of every count, whichever of them get
    their cursors written.
   */
  method Extract(k: nat, p0: LazyWrapMasks, p1: LazyWrapMasks, p2: LazyWrapMasks, w0: bool, w1: bool, w2: bool,
                 d0: seq<RingShare>, d1: seq<RingShare>, d2: seq<RingShare>, ghost ms: seq<nat>)
    returns (ok: bool, x0: seq<BitShare>, x1: seq<BitShare>, y0: seq<BitShare>, y1: seq<BitShare>,
             z0: seq<BitShare>, z1: seq<BitShare>)
    requires 2 <= k && InStep(k, p0, p1, p2) && Shares(k, d0, d1, d2, ms)
    modifies p0, p0.dir, p1, p1.dir, p2, p2.dir
    ensures ok <==> old(p0.cursor) + |ms| <= p0.total
    ensures ok ==> |x0| == |x1| == |y0| == |y1| == |z0| == |z1| == |ms|
    ensures ok ==> forall i :: 0 <= i < |ms| ==> SharesSum(ms[i], 0, (x0[i], x1[i]), (y0[i], y1[i]), (z0[i], z1[i]))
  {
    x0, x1, y0, y1, z0, z1 := [], [], [], [], [], [];
    ghost var c := p0.cursor;
    var ok0, b0 := TakeMasks(p0, |d0|, w0);
    var ok1, b1 := TakeMasks(p1, |d1|, w1);
    var ok2, b2 := TakeMasks(p2, |d2|, w2);
    ok := ok0 && ok1 && ok2;
    if ok {
      TakenFit(k, p0, p1, p2, b0, b1, b2, c, |ms|);
      x0, x1, y0, y1, z0, z1 := Unmask(k, b0, b1, b2, d0, d1, d2, ms);
    }
  }

  /**
    From the seeds to the counts: the parties generate their pools, use, save and
    restart them in step, and extract.  Nothing is assumed of the pools: the
    extraction fails exactly when too few masks are left, and otherwise gives
    consistent shares of the two bits of every count.
   */
  method GenerateAndExtract(k: nat, ks: Keystream, s0: Snap, s1: Snap, s2: Snap, n: nat, inject: Inject,
                            d0: Dir, d1: Dir, d2: Dir, ops: seq<Op>,
                            c0: seq<RingShare>, c1: seq<RingShare>, c2: seq<RingShare>, ghost ms: seq<nat>)
    returns (ok: bool, x0: seq<BitShare>, x1: seq<BitShare>, y0: seq<BitShare>, y1: seq<BitShare>,
             z0: seq<BitShare>, z1: seq<BitShare>)
    requires 2 <= k && Converts(inject, k) && Shares(k, c0, c1, c2, ms)
    requires d0 != d1 && d1 != d2 && d0 != d2
    modifies d0, d1, d2
    ensures ok <==> CursorAfter(n, 0, ops) + |ms| <= n
    ensures ok ==> |x0| == |x1| == |y0| == |y1| == |z0| == |z1| == |ms|
    ensures ok ==> forall i :: 0 <= i < |ms| ==> SharesSum(ms[i], 0, (x0[i], x1[i]), (y0[i], y1[i]), (z0[i], z1[i]))
  {
    var p0, p1, p2 := GeneratePools(k, ks, s0, s1, s2, n, inject, d0, d1, d2);
    var q0, q1, q2 := CommonSession(k, p0, p1, p2, ops);
    ok, x0, x1, y0, y1, z0, z1 := Extract(k, q0, q1, q2, true, true, true, c0, c1, c2, ms);
  }
}
