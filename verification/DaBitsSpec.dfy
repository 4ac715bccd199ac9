/**
  The eager meaning of daBits: item `i` shares `(-1)^theta * gamma` in the
  field, where P0 alone knows `gamma` and P1 and P2 know `theta`.
 */
module DaBitsSpec {
  import opened Arith
  import opened Bytes
  import opened Field
  import opened RngStream
  import opened EdaBitsSpec

  /** The three pairwise streams and the size of a field element in them. */
  datatype Streams = Streams(ks: Keystream, fb: nat, s01: Snap, s20: Snap, s12: Snap) {
    predicate Valid() {
      16 <= fb
    }

    /** Bytes per item in the stream of P0 and P1: one byte, then two field elements. */
    function Stride(): nat {
      1 + 2 * fb
    }
  }

  /** One replicated share: the party's own summand and its predecessor's. */
  datatype Share = Share(a: Fe, b: Fe)

  datatype Batch = Batch(gammas: seq<bool>, thetas: seq<bool>, shares: seq<Share>)

  predicate LowBit(b: nat) {
    b % 2 == 1
  }

  predicate Gamma(st: Streams, i: nat) {
    LowBit(Xor(Stream(st.ks, st.s01, i * st.Stride(), 1)[0], Stream(st.ks, st.s20, i, 1)[0]))
  }

  predicate Theta(st: Streams, i: nat) {
    LowBit(Stream(st.ks, st.s12, i, 1)[0])
  }

  function A1(st: Streams, i: nat): Fe {
    FieldOf(Stream(st.ks, st.s01, i * st.Stride() + 1, 16))
  }

  function R1(st: Streams, i: nat): Fe {
    FieldOf(Stream(st.ks, st.s01, i * st.Stride() + 1 + st.fb, 16))
  }

  function BoolAsField(b: bool): Fe {
    Red(if b then 1 else 0)
  }

  /** `(-1)^theta * x`. */
  function Signed(theta: bool, x: Fe): Fe {
    Mul(if theta then Neg(One) else One, x)
  }

  /** What P0 sends to P2. */
  function A2(st: Streams, i: nat): Fe {
    Sub(BoolAsField(Gamma(st, i)), A1(st, i))
  }

  /** What P1 sends to P2. */
  function S12(st: Streams, i: nat): Fe {
    Sub(Signed(Theta(st, i), A1(st, i)), R1(st, i))
  }

  /** What P2 computes and sends to P0. */
  function S20(st: Streams, i: nat): Fe {
    Signed(Theta(st, i), A2(st, i))
  }

  /**
    The items by index.  `Faithful` ties every component to the streams; the
    indirection keeps the stream arithmetic out of the proofs about batches.
   */
  datatype Items = Items(st: Streams, gamma: nat -> bool, theta: nat -> bool, r1: nat -> Fe,
                         a2: nat -> Fe, s12: nat -> Fe, s20: nat -> Fe) {

    ghost predicate Faithful() {
      && st.Valid()
      && (forall i: nat {:trigger Gamma(st, i)} :: gamma(i) == Gamma(st, i))
      && (forall i: nat {:trigger Theta(st, i)} :: theta(i) == Theta(st, i))
      && (forall i: nat {:trigger R1(st, i)} :: r1(i) == R1(st, i))
      && (forall i: nat {:trigger A2(st, i)} :: a2(i) == A2(st, i))
      && (forall i: nat {:trigger S12(st, i)} :: s12(i) == S12(st, i))
      && (forall i: nat {:trigger S20(st, i)} :: s20(i) == S20(st, i))
    }

    function ShareOf(party: PartyId, i: nat): Share {
      match party
      case ID0 => Share(r1(i), s20(i))
      case ID1 => Share(s12(i), r1(i))
      case ID2 => Share(s20(i), s12(i))
    }

    /** Items `start .. start + n` as one party sees them. */
    function Eager(party: PartyId, start: nat, n: nat): (b: Batch)
      ensures |b.gammas| == |b.thetas| == |b.shares| == n
    {
      Batch(
        seq(n, i requires 0 <= i < n => party == ID0 && gamma(start + i)),
        seq(n, i requires 0 <= i < n => party != ID0 && theta(start + i)),
        seq(n, i requires 0 <= i < n => ShareOf(party, start + i)))
    }
  }

  function ItemsOf(st: Streams): (d: Items)
    requires st.Valid()
    ensures d.st == st && d.Faithful()
  {
    Items(st, (i: nat) => Gamma(st, i), (i: nat) => Theta(st, i), i => R1(st, i), i => A2(st, i),
          i => S12(st, i), i => S20(st, i))
  }

  // -------------------------------------------------------------------------
  // The correlation
  // -------------------------------------------------------------------------

  lemma MulNegOne(x: Fe)
    ensures Mul(Neg(One), x) == Neg(x)
  {
    RedMul(-1, x);
    assert Red(-1) == Neg(One);
  }

  /** Sign change distributes over the two additive parts. */
  lemma SignedAdds(theta: bool, g: Fe, a: Fe)
    ensures Add(Signed(theta, a), Signed(theta, Sub(g, a))) == Signed(theta, g)
  {
    var x: int, y: int := g, a;
    if theta {
      MulNegOne(a);
      MulNegOne(Sub(g, a));
      MulNegOne(g);
      RedNeg(x - y);
      RedAdd(-y, y - x);
    } else {
      MulUnit(a);
      MulUnit(Sub(g, a));
      MulUnit(g);
      AddSub(a, g);
    }
  }

  lemma ThreeSummands(r: Fe, v: Fe, w: Fe)
    ensures Add(Add(r, Sub(v, r)), w) == Add(v, w)
  {
    AddSub(r, v);
  }

  /** Where item `i` starts when its byte and its two field elements are read before the next item. */
  function ItemStart(st: Streams, i: nat): nat {
    if i == 0 then 0 else ItemStart(st, i - 1) + 1 + st.fb + st.fb
  }

  lemma {:induction false} ItemStartIs(st: Streams, i: nat)
    ensures ItemStart(st, i) == i * st.Stride()
  {
    if i > 0 {
      ItemStartIs(st, i - 1);
      Distribute(i - 1, 1, st.Stride());
    }
  }

  /** The two field elements of an item follow its byte in the stream. */
  lemma ItemIsRead(st: Streams, i: nat)
    ensures [A1(st, i), R1(st, i)] == Fields(st.ks, st.s01, ItemStart(st, i) + 1, st.fb, 2)
  {
    ItemStartIs(st, i);
    FieldAt(st.ks, st.s01, ItemStart(st, i) + 1, st.fb, 2, 0);
    FieldAt(st.ks, st.s01, ItemStart(st, i) + 1, st.fb, 2, 1);
  }

  /** The three summands of an item. */
  function Secret(s0: Share, s1: Share, s2: Share): Fe {
    Add(Add(s0.a, s1.a), s2.a)
  }

  predicate Replicated(s0: Share, s1: Share, s2: Share) {
    s0.b == s2.a && s1.b == s0.a && s2.b == s1.a
  }

  /** The item is a replicated sharing of `(-1)^theta * gamma`. */
  ghost predicate SharesItem(gamma: bool, theta: bool, s0: Share, s1: Share, s2: Share) {
    Secret(s0, s1, s2) == Red(if !gamma then 0 else if theta then -1 else 1) && Replicated(s0, s1, s2)
  }

  lemma SignedIs(theta: bool, x: Fe)
    ensures Signed(theta, x) == if theta then Neg(x) else x
  {
    MulNegOne(x);
    MulUnit(x);
  }

  /** The sign and the bit as an integer. */
  lemma SignedBit(theta: bool, gamma: bool)
    ensures Signed(theta, BoolAsField(gamma)) == Red(if !gamma then 0 else if theta then -1 else 1)
  {
    SignedIs(theta, BoolAsField(gamma));
    RedNeg(if gamma then 1 else 0);
  }

  /** The bits of an item, from the low bits of the streams: P0's is the sum modulo two of those it shares. */
  lemma LowBits(st: Streams, i: nat)
    ensures 0 <= i * st.Stride()
    ensures Gamma(st, i) <==> (Bit(Stream(st.ks, st.s01, i * st.Stride(), 1)[0], 0)
                               + Bit(Stream(st.ks, st.s20, i, 1)[0], 0)) % 2 == 1
    ensures Theta(st, i) <==> Bit(Stream(st.ks, st.s12, i, 1)[0], 0) == 1
  {
    MulMono(0, i, st.Stride());
    var a, b, c := Stream(st.ks, st.s01, i * st.Stride(), 1)[0], Stream(st.ks, st.s20, i, 1)[0],
                   Stream(st.ks, st.s12, i, 1)[0];
    XorBits(a, b, 0);
    BitShifts(Xor(a, b), 0);
    BitShifts(c, 0);
  }

  lemma SummandsRecombine(st: Streams, i: nat)
    ensures Add(Add(R1(st, i), S12(st, i)), S20(st, i))
         == Red(if !Gamma(st, i) then 0 else if Theta(st, i) then -1 else 1)
  {
    SignedBit(Theta(st, i), Gamma(st, i));
    ThreeSummands(R1(st, i), Signed(Theta(st, i), A1(st, i)), S20(st, i));
    SignedAdds(Theta(st, i), BoolAsField(Gamma(st, i)), A1(st, i));
  }

  /** Every item recombines to `(-1)^theta * gamma`, and each party also holds its predecessor's summand. */
  lemma ItemRecombines(d: Items, i: nat)
    requires d.Faithful()
    ensures SharesItem(d.gamma(i), d.theta(i), d.ShareOf(ID0, i), d.ShareOf(ID1, i), d.ShareOf(ID2, i))
  {
    SummandsRecombine(d.st, i);
  }

  /** The three parties' views of one batch fit together. */
  ghost predicate Correlated(b0: Batch, b1: Batch, b2: Batch) {
    && |b0.gammas| == |b1.thetas| == |b0.shares| == |b1.shares| == |b2.shares|
    && b1.thetas == b2.thetas
    && forall i :: 0 <= i < |b0.shares| ==>
         SharesItem(b0.gammas[i], b1.thetas[i], b0.shares[i], b1.shares[i], b2.shares[i])
  }

  lemma BatchesRecombine(d: Items, start: nat, n: nat)
    requires d.Faithful()
    ensures Correlated(d.Eager(ID0, start, n), d.Eager(ID1, start, n), d.Eager(ID2, start, n))
  {
    var b0, b1, b2 := d.Eager(ID0, start, n), d.Eager(ID1, start, n), d.Eager(ID2, start, n);
    forall i | 0 <= i < n
      ensures SharesItem(b0.gammas[i], b1.thetas[i], b0.shares[i], b1.shares[i], b2.shares[i])
    {
      EagerItem(d, ID0, start, n, i);
      EagerItem(d, ID1, start, n, i);
      EagerItem(d, ID2, start, n, i);
      ItemRecombines(d, start + i);
    }
  }

  lemma EagerItem(d: Items, party: PartyId, start: nat, n: nat, i: nat)
    requires i < n
    ensures var b := d.Eager(party, start, n);
            && b.shares[i] == d.ShareOf(party, start + i)
            && (party == ID0 ==> b.gammas[i] == d.gamma(start + i))
            && (party != ID0 ==> b.thetas[i] == d.theta(start + i))
  {
  }
}
