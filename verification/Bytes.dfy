/** Bytes, little-endian words and the bits of ring elements. */
module Bytes {
  import opened Arith

  type byte = x: int | 0 <= x < 256 witness 0

  /** `from_le_bytes`. */
  function FromLe(bs: seq<byte>): nat {
    if bs == [] then 0 else bs[0] + 256 * FromLe(bs[1..])
  }

  /** `to_le_bytes` for a word of `n` bytes; the value is taken modulo `256^n`. */
  function ToLe(v: nat, n: nat): (bs: seq<byte>)
    ensures |bs| == n
  {
    if n == 0 then [] else [v % 256] + ToLe(v / 256, n - 1)
  }

  function Pow256(n: nat): nat
    ensures 0 < Pow256(n)
  {
    if n == 0 then 1 else 256 * Pow256(n - 1)
  }

  lemma {:induction false} LeRoundTrip(v: nat, n: nat)
    requires v < Pow256(n)
    ensures FromLe(ToLe(v, n)) == v
  {
    if n > 0 {
      LeRoundTrip(v / 256, n - 1);
      assert ToLe(v, n)[1..] == ToLe(v / 256, n - 1);
    }
  }

  /** Bitwise exclusive or of ring elements. */
  function Xor(a: nat, b: nat): nat
    decreases a + b
  {
    if a == 0 && b == 0 then 0
    else (if a % 2 == b % 2 then 0 else 1) + 2 * Xor(a / 2, b / 2)
  }

  /** Bit `j` of a ring element: `(v >> j) & 1`. */
  function Bit(v: nat, j: nat): nat {
    (v / Pow2(j)) % 2
  }

  // -------------------------------------------------------------------------
  // What the words and bits mean
  // -------------------------------------------------------------------------

  /** The number that bits spell, the lowest first. */
  function FromBits(bits: seq<int>): int {
    if bits == [] then 0 else bits[0] + 2 * FromBits(bits[1..])
  }

  ghost predicate AreBits(bits: seq<int>) {
    forall j :: 0 <= j < |bits| ==> 0 <= bits[j] <= 1
  }

  /** The lowest `k` bits of a ring element. */
  function BitsOf(v: nat, k: nat): (bits: seq<int>)
    ensures |bits| == k && forall j :: 0 <= j < k ==> bits[j] == Bit(v, j)
  {
    seq<int>(k, j requires 0 <= j < k => Bit(v, j))
  }

  lemma BitShifts(v: nat, j: nat)
    ensures Bit(v, 0) == v % 2 && Bit(v, j + 1) == Bit(v / 2, j)
  {
    LowestDigit(v, 2, Pow2(j));
  }

  /** The bits of a number spell it, as far as they go. */
  lemma {:induction false} BitsSpell(v: nat, k: nat)
    ensures AreBits(BitsOf(v, k)) && FromBits(BitsOf(v, k)) == v % Pow2(k)
  {
    if k > 0 {
      BitsSpell(v / 2, k - 1);
      forall j: nat
        ensures Bit(v, 0) == v % 2 && Bit(v, j + 1) == Bit(v / 2, j)
      {
        BitShifts(v, j);
      }
      assert BitsOf(v, k)[1..] == BitsOf(v / 2, k - 1);
      LowestDigit(v, 2, Pow2(k - 1));
    }
  }

  /** A number has only one spelling of a given length. */
  lemma {:induction false} SpellingUnique(a: seq<int>, b: seq<int>)
    requires |a| == |b| && AreBits(a) && AreBits(b) && FromBits(a) == FromBits(b)
    ensures a == b
  {
    if a != [] {
      assert a[0] == b[0];
      SpellingUnique(a[1..], b[1..]);
      assert a == [a[0]] + a[1..] && b == [b[0]] + b[1..];
    }
  }

  lemma XorUnfold(a: nat, b: nat)
    ensures Xor(a, b) == (if a % 2 == b % 2 then 0 else 1) + 2 * Xor(a / 2, b / 2)
  {
  }

  lemma LowFirst(x: nat, rest: nat, c: nat, d: nat)
    requires c < 2 && d < 2 && x == (if c == d then 0 else 1) + 2 * rest
    ensures x % 2 == (c + d) % 2 && x / 2 == rest
  {
  }

  /** Exclusive or adds the bits without carry. */
  lemma {:induction false} XorBits(a: nat, b: nat, j: nat)
    ensures Bit(Xor(a, b), j) == (Bit(a, j) + Bit(b, j)) % 2
    decreases j
  {
    var x, rest := Xor(a, b), Xor(a / 2, b / 2);
    XorUnfold(a, b);
    if j > 0 {
      XorBits(a / 2, b / 2, j - 1);
    }
    BitsAdded(a, b, x, rest, j);
  }

  lemma BitsAdded(a: nat, b: nat, x: nat, rest: nat, j: nat)
    requires x == (if a % 2 == b % 2 then 0 else 1) + 2 * rest
    requires j > 0 ==> Bit(rest, j - 1) == (Bit(a / 2, j - 1) + Bit(b / 2, j - 1)) % 2
    ensures Bit(x, j) == (Bit(a, j) + Bit(b, j)) % 2
  {
    var i := if j == 0 then 0 else j - 1;
    LowFirst(x, rest, a % 2, b % 2);
    BitShifts(a, i);
    BitShifts(b, i);
    BitShifts(x, i);
  }

  lemma {:induction false} XorFits(a: nat, b: nat, n: nat)
    requires a < Pow2(n) && b < Pow2(n)
    ensures Xor(a, b) < Pow2(n)
  {
    if n > 0 {
      XorFits(a / 2, b / 2, n - 1);
    }
  }

  lemma {:induction false} Pow256Is(n: nat)
    ensures Pow256(n) == Pow2(8 * n)
  {
    if n > 0 {
      Pow256Is(n - 1);
      PowAdd(8, 8 * (n - 1));
      PowEight();
    }
  }

  lemma PowEight()
    ensures Pow2(8) == 256
  {
    assert Pow2(2) == 4 && Pow2(4) == 16 && Pow2(6) == 64;
  }

  lemma {:induction false} LeFits(bs: seq<byte>)
    ensures FromLe(bs) < Pow256(|bs|)
  {
    if bs != [] {
      LeFits(bs[1..]);
    }
  }

  /** Byte `i` of a word is its digit in base 256 of weight `i`. */
  lemma {:induction false} LeByte(v: nat, n: nat, i: nat)
    requires i < n
    ensures ToLe(v, n)[i] == (v / Pow256(i)) % 256
  {
    if i > 0 {
      LeByte(v / 256, n - 1, i - 1);
      LowestDigit(v, 256, Pow256(i - 1));
    }
  }

  /** A word of two words. */
  lemma {:induction false} LeJoin(a: seq<byte>, b: seq<byte>)
    ensures FromLe(a + b) == FromLe(a) + Pow256(|a|) * FromLe(b)
  {
    if a == [] {
      assert a + b == b;
    } else {
      LeJoin(a[1..], b);
      assert (a + b)[1..] == a[1..] + b;
      Associate(256, Pow256(|a| - 1), FromLe(b));
    }
  }
}
