/**
  Wrap masks: random two-bit numbers shared bitwise and, scaled to the top two
  bits of a ring of `K` bits, additively.  They turn the extraction of a wrap
  count into one opening and local work.
 */
module WrapMask {
  import opened Arith
  import opened EdaBitsSpec

  // -------------------------------------------------------------------------
  // Sharings
  // -------------------------------------------------------------------------

  /** A replicated sharing of a bit: own and previous party's summand. */
  datatype BitShare = BitShare(a: bool, b: bool)

  predicate XorOf(x: bool, y: bool) {
    x != y
  }

  predicate Combine(s0: BitShare, s1: BitShare, s2: BitShare) {
    XorOf(XorOf(s0.a, s1.a), s2.a)
  }

  predicate Consistent(s0: BitShare, s1: BitShare, s2: BitShare) {
    s0.b == s2.a && s1.b == s0.a && s2.b == s1.a
  }

  /** Adds a public bit: exactly one summand changes, at both parties that hold it. */
  function XorPublic(s: BitShare, c: bool, party: PartyId): BitShare {
    match party
    case ID0 => s.(a := XorOf(s.a, c))
    case ID1 => s.(b := XorOf(s.b, c))
    case ID2 => s
  }

  lemma XorPublicCombines(s0: BitShare, s1: BitShare, s2: BitShare, c: bool)
    requires Consistent(s0, s1, s2)
    ensures Combine(XorPublic(s0, c, ID0), XorPublic(s1, c, ID1), XorPublic(s2, c, ID2))
         == XorOf(Combine(s0, s1, s2), c)
    ensures Consistent(XorPublic(s0, c, ID0), XorPublic(s1, c, ID1), XorPublic(s2, c, ID2))
  {
  }

  /** Adds the public two-bit number `ctop` to a shared one, locally. */
  function TwoBitAdd(ctop: nat, r0: BitShare, r1: BitShare, party: PartyId): (BitShare, BitShare) {
    var c0, c1 := ctop % 2 == 1, (ctop / 2) % 2 == 1;
    (XorPublic(r0, c0, party), XorPublic(WithCarry(c0, r0, r1), c1, party))
  }

  /** The high bit plus the carry of the low one. */
  function WithCarry(c0: bool, r0: BitShare, r1: BitShare): BitShare {
    var carry := if c0 then r0 else BitShare(false, false);
    BitShare(XorOf(r1.a, carry.a), XorOf(r1.b, carry.b))
  }

  function AsBit(b: bool): nat {
    if b then 1 else 0
  }

  function TwoBits(b0: bool, b1: bool): nat {
    AsBit(b0) + 2 * AsBit(b1)
  }

  lemma TwoBitSum(ctop: nat, b0: bool, b1: bool)
    requires ctop < 4
    ensures var c0, c1 := ctop % 2 == 1, (ctop / 2) % 2 == 1;
            TwoBits(XorOf(b0, c0), XorOf(XorOf(b1, c0 && b0), c1)) == (ctop + TwoBits(b0, b1)) % 4
  {
    if ctop == 0 {
    } else if ctop == 1 {
    } else if ctop == 2 {
    } else {
      assert ctop == 3;
    }
  }

  /** The parties' results share the sum modulo four. */
  lemma TwoBitAddCombines(ctop: nat, x0: BitShare, x1: BitShare, x2: BitShare, y0: BitShare, y1: BitShare, y2: BitShare)
    requires ctop < 4 && Consistent(x0, x1, x2) && Consistent(y0, y1, y2)
    ensures SharesSum(ctop, TwoBits(Combine(x0, x1, x2), Combine(y0, y1, y2)),
                      TwoBitAdd(ctop, x0, y0, ID0), TwoBitAdd(ctop, x1, y1, ID1), TwoBitAdd(ctop, x2, y2, ID2))
  {
    var c0, c1 := ctop % 2 == 1, (ctop / 2) % 2 == 1;
    XorPublicCombines(x0, x1, x2, c0);
    var z0, z1, z2 := WithCarry(c0, x0, y0), WithCarry(c0, x1, y1), WithCarry(c0, x2, y2);
    CarryCombines(c0, x0, x1, x2, y0, y1, y2);
    XorPublicCombines(z0, z1, z2, c1);
    TwoBitSum(ctop, Combine(x0, x1, x2), Combine(y0, y1, y2));
  }

  /** The pairs share the two bits of `ctop + r` modulo four. */
  ghost predicate SharesSum(
      ctop: nat, r: nat, m0: (BitShare, BitShare), m1: (BitShare, BitShare), m2: (BitShare, BitShare)) {
    && Consistent(m0.0, m1.0, m2.0) && Consistent(m0.1, m1.1, m2.1)
    && TwoBits(Combine(m0.0, m1.0, m2.0), Combine(m0.1, m1.1, m2.1)) == (ctop + r) % 4
  }

  lemma CarryCombines(c0: bool, x0: BitShare, x1: BitShare, x2: BitShare, y0: BitShare, y1: BitShare, y2: BitShare)
    requires Consistent(x0, x1, x2) && Consistent(y0, y1, y2)
    ensures Consistent(WithCarry(c0, x0, y0), WithCarry(c0, x1, y1), WithCarry(c0, x2, y2))
    ensures Combine(WithCarry(c0, x0, y0), WithCarry(c0, x1, y1), WithCarry(c0, x2, y2))
         == XorOf(Combine(y0, y1, y2), c0 && Combine(x0, x1, x2))
  {
  }

  // -------------------------------------------------------------------------
  // The ring
  // -------------------------------------------------------------------------

  /** Ring elements of `k` bits: integers modulo `2^k`. */
  function Wrap(x: int, k: nat): nat {
    x % Pow2(k)
  }

  lemma ModCongruent(x: int, y: int, q: int, n: int)
    requires 0 < n && x == y + n * q
    ensures x % n == y % n
  {
    assert x == n * (x / n) + x % n && y == n * (y / n) + y % n;
    assert n * (y / n) + n * q == n * (y / n + q);
    DivModUnique(n, x / n, x % n, y / n + q, y % n);
  }

  /** Reducing the summands first changes nothing. */
  lemma ModSum(x: int, y: int, z: int, n: int)
    requires 0 < n
    ensures (x % n + y % n + z % n) % n == (x + y + z) % n
  {
    var a, b, c := x / n, y / n, z / n;
    assert x == n * a + x % n && y == n * b + y % n && z == n * c + z % n;
    assert n * a + n * b + n * c == n * (a + b + c);
    ModCongruent(x + y + z, x % n + y % n + z % n, a + b + c, n);
  }

  lemma ModDiff(x: int, y: int, n: int)
    requires 0 < n
    ensures (x % n - y % n) % n == (x - y) % n
  {
    var a, b := x / n, y / n;
    assert x == n * a + x % n && y == n * b + y % n;
    assert n * a - n * b == n * (a - b);
    ModCongruent(x - y, x % n - y % n, a - b, n);
  }

  lemma ModScale(x: int, t: int, n: int)
    requires 0 < n
    ensures ((x % n) * t) % n == (x * t) % n
  {
    var a := x / n;
    assert x == n * a + x % n;
    Scaled(n, a, x % n, t);
    ModCongruent(x * t, (x % n) * t, a * t, n);
  }

  lemma Scaled(n: int, a: int, r: int, t: int)
    ensures (n * a + r) * t == r * t + n * (a * t)
  {
  }

  /** The three summands of an additive sharing, and its value. */
  datatype Summands = Summands(x: nat, y: nat, z: nat)

  function Value(s: Summands, k: nat): nat {
    Wrap(s.x + s.y + s.z, k)
  }

  function MinusSummands(s: Summands, t: Summands, k: nat): Summands {
    Summands(Wrap(s.x - t.x, k), Wrap(s.y - t.y, k), Wrap(s.z - t.z, k))
  }

  lemma MinusValue(s: Summands, t: Summands, k: nat)
    ensures Value(MinusSummands(s, t, k), k) == Wrap(Value(s, k) - Value(t, k), k)
  {
    var n := Pow2(k);
    ModSum(s.x - t.x, s.y - t.y, s.z - t.z, n);
    ModDiff(s.x + s.y + s.z, t.x + t.y + t.z, n);
  }

  // -------------------------------------------------------------------------
  // Generation and extraction
  // -------------------------------------------------------------------------

  /** One summand of the mask from summands of the two bits. */
  function MaskSummand(r0: nat, r1: nat, k: nat): nat
    requires 2 <= k
  {
    Wrap(Wrap(r0 + Wrap(r1 * 2, k), k) * Pow2(k - 2), k)
  }

  function MaskOf(r0: Summands, r1: Summands, k: nat): Summands
    requires 2 <= k
  {
    Summands(MaskSummand(r0.x, r1.x, k), MaskSummand(r0.y, r1.y, k), MaskSummand(r0.z, r1.z, k))
  }

  lemma MaskSummandIs(r0: nat, r1: nat, k: nat)
    requires 2 <= k
    ensures MaskSummand(r0, r1, k) == Wrap((r0 + 2 * r1) * Pow2(k - 2), k)
  {
    var n, t := Pow2(k), Pow2(k - 2);
    ModSum(r0, Wrap(r1 * 2, k), 0, n);
    ModSum(r0, r1 * 2, 0, n);
    ModIdem(r1 * 2, n);
    ModScale(r0 + Wrap(r1 * 2, k), t, n);
    ModScale(r0 + 2 * r1, t, n);
  }

  lemma ModIdem(x: int, n: int)
    requires 0 < n
    ensures (x % n) % n == x % n
  {
  }

  /** The mask is the two-bit number in the top bits. */
  lemma MaskValue(r0: Summands, r1: Summands, k: nat, b0: bool, b1: bool)
    requires 2 <= k && Value(r0, k) == AsBit(b0) && Value(r1, k) == AsBit(b1)
    ensures Value(MaskOf(r0, r1, k), k) == TwoBits(b0, b1) * Pow2(k - 2)
  {
    var n, t := Pow2(k), Pow2(k - 2);
    var u, v, w := r0.x + 2 * r1.x, r0.y + 2 * r1.y, r0.z + 2 * r1.z;
    MaskSummandIs(r0.x, r1.x, k);
    MaskSummandIs(r0.y, r1.y, k);
    MaskSummandIs(r0.z, r1.z, k);
    ModSum(u * t, v * t, w * t, n);
    ThreeTimes(u, v, w, t);
    var s0, s1 := r0.x + r0.y + r0.z, r1.x + r1.y + r1.z;
    ModScale(s0 + 2 * s1, t, n);
    SumBits(s0, s1, n, AsBit(b0), AsBit(b1));
    ModScale(TwoBits(b0, b1), t, n);
    TopBits(TwoBits(b0, b1), k);
  }

  lemma ThreeTimes(u: int, v: int, w: int, t: int)
    ensures u * t + v * t + w * t == (u + v + w) * t
  {
    Distribute(u, v, t);
    Distribute(u + v, w, t);
  }

  lemma SumBits(s0: int, s1: int, n: int, b0: nat, b1: nat)
    requires 0 < n && s0 % n == b0 && s1 % n == b1
    ensures (s0 + 2 * s1) % n == (b0 + 2 * b1) % n
  {
    ModSum(s0, s1, s1, n);
    ModSum(b0, b1, b1, n);
    ModIdem(s0, n);
    ModIdem(s1, n);
  }

  lemma PowTop(k: nat)
    requires 2 <= k
    ensures Pow2(k) == 4 * Pow2(k - 2)
  {
    assert Pow2(k) == 2 * Pow2(k - 1) && Pow2(k - 1) == 2 * Pow2(k - 2);
  }

  lemma ModSmall(x: int, n: int)
    requires 0 <= x < n
    ensures x % n == x
  {
  }

  /** A two-bit number in the top bits does not wrap. */
  lemma TopBits(v: nat, k: nat)
    requires 2 <= k && v < 4
    ensures 0 <= v * Pow2(k - 2) < Pow2(k) && (v * Pow2(k - 2)) % Pow2(k) == v * Pow2(k - 2)
  {
    var t := Pow2(k - 2);
    PowTop(k);
    MulMono(v, 3, t);
    MulMono(0, v, t);
    ModSmall(v * t, Pow2(k));
  }

  /** Differences of top-bit numbers wrap modulo four. */
  lemma TopDifference(v: nat, r: nat, k: nat)
    requires 2 <= k && v < 4 && r < 4
    ensures Wrap(v * Pow2(k - 2) - r * Pow2(k - 2), k) == ((v - r) % 4) * Pow2(k - 2)
  {
    var t := Pow2(k - 2);
    PowTop(k);
    Distribute(v - r, r, t);
    if v >= r {
      TopBits(v - r, k);
    } else {
      Distribute(v - r, 4, t);
      TopBits(v - r + 4, k);
      ModCongruent((v - r + 4) * t, (v - r) * t, 1, 4 * t);
    }
  }

  /** The top two bits of an opened element: `(c >> (K - 2)) & 3`. */
  function TopOf(c: nat, k: nat): nat
    requires 2 <= k
  {
    (c / Pow2(k - 2)) % 4
  }

  /** What the opened difference shows: the count minus the mask, modulo four. */
  lemma OpenedTop(k: nat, m: nat, r: nat, diff: Summands, mask: Summands)
    requires 2 <= k && m < 4 && r < 4 && Value(diff, k) == m * Pow2(k - 2) && Value(mask, k) == r * Pow2(k - 2)
    ensures TopOf(Value(MinusSummands(diff, mask, k), k), k) == (m - r) % 4
  {
    MinusValue(diff, mask, k);
    TopDifference(m, r, k);
    RowOf((m - r) % 4, 0, Pow2(k - 2));
  }

  /**
    Opening `m * 2^(K-2) - R` and adding its top bits to the shared mask bits
    gives the parties shares of the two bits of `m`, for every width, every count
    and every mask.
   */
  lemma ExtractCorrect(k: nat, m: nat, diff: Summands, mask: Summands,
                       x0: BitShare, x1: BitShare, x2: BitShare, y0: BitShare, y1: BitShare, y2: BitShare)
    requires 2 <= k && m < 4 && Value(diff, k) == m * Pow2(k - 2)
    requires Consistent(x0, x1, x2) && Consistent(y0, y1, y2)
    requires Value(mask, k) == TwoBits(Combine(x0, x1, x2), Combine(y0, y1, y2)) * Pow2(k - 2)
    ensures var ctop := TopOf(Value(MinusSummands(diff, mask, k), k), k);
            SharesSum(m, 0, TwoBitAdd(ctop, x0, y0, ID0), TwoBitAdd(ctop, x1, y1, ID1), TwoBitAdd(ctop, x2, y2, ID2))
  {
    var r := TwoBits(Combine(x0, x1, x2), Combine(y0, y1, y2));
    OpenedTop(k, m, r, diff, mask);
    TwoBitAddCombines((m - r) % 4, x0, x1, x2, y0, y1, y2);
    SumRestored(m, r);
  }

  lemma SumRestored(m: nat, r: nat)
    requires m < 4 && r < 4
    ensures 0 <= (m - r) % 4 < 4 && ((m - r) % 4 + r) % 4 == m == (m + 0) % 4
  {
  }

  /** One party's part, for a whole vector of opened differences. */
  method ExtractMany(k: nat, cOpen: seq<nat>, r0: seq<BitShare>, r1: seq<BitShare>, party: PartyId)
    returns (m0: seq<BitShare>, m1: seq<BitShare>)
    requires 2 <= k && |cOpen| == |r0| == |r1|
    ensures |m0| == |m1| == |cOpen|
    ensures forall i :: 0 <= i < |cOpen| ==> (m0[i], m1[i]) == TwoBitAdd(TopOf(cOpen[i], k), r0[i], r1[i], party)
  {
    m0, m1 := [], [];
    for i := 0 to |cOpen|
      invariant |m0| == |m1| == i
      invariant forall j :: 0 <= j < i ==> (m0[j], m1[j]) == TwoBitAdd(TopOf(cOpen[j], k), r0[j], r1[j], party)
    {
      var (b0, b1) := TwoBitAdd(TopOf(cOpen[i], k), r0[i], r1[i], party);
      m0, m1 := m0 + [b0], m1 + [b1];
    }
  }
}
