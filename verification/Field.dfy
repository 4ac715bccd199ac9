/**
  The prime field `F` of the shares, as residues modulo `P`.

  `P` is arbitrary: nothing below needs more than a commutative ring, so the
  results hold for every modulus, the curve's scalar field among them.
 */
module Field {
  import Arith

  type Modulus = p: int | 2 <= p witness 2

  const P: Modulus

  type Fe = x: int | 0 <= x < P witness 0

  /** The residue of an integer, `F::from`; `RedIsMod` is the link to `%`. */
  function Red(x: int): Fe
    decreases if x < 0 then P - x else x
  {
    if x < 0 then Red(x + P) else if x < P then x else Red(x - P)
  }

  const Zero: Fe := 0

  const One: Fe := 1

  function Add(a: Fe, b: Fe): Fe {
    Red(a + b)
  }

  function Sub(a: Fe, b: Fe): Fe {
    Red(a - b)
  }

  function Mul(a: Fe, b: Fe): Fe {
    Red(a * b)
  }

  function Neg(a: Fe): Fe {
    Red(-(a as int))
  }

  /** Every integer is its residue plus a multiple of the modulus. */
  lemma RedWitness(x: int) returns (q: int)
    ensures x == Red(x) + q * P
    decreases if x < 0 then P - x else x
  {
    if x < 0 {
      var q' := RedWitness(x + P);
      q := q' - 1;
      Arith.Distribute(q, 1, P);
    } else if x < P {
      q := 0;
    } else {
      var q' := RedWitness(x - P);
      q := q' + 1;
      Arith.Distribute(q', 1, P);
    }
  }

  lemma RedIsMod(x: int)
    ensures Red(x) == x % P
  {
    var q := RedWitness(x);
    var m := P as int;
    assert x == m * (x / m) + x % m;
    Arith.DivModUnique(m, x / m, x % m, q, Red(x));
  }

  /** Integers that differ by a multiple of the modulus have one residue. */
  lemma RedShift(x: int, y: int, q: int)
    requires x == y + q * P
    ensures Red(x) == Red(y)
  {
    var p := RedWitness(x);
    var r := RedWitness(y);
    var m := P as int;
    assert m * p + Red(x) == m * (r + q) + Red(y);
    Arith.DivModUnique(m, p, Red(x), r + q, Red(y));
  }

  lemma RedAdd(x: int, y: int)
    ensures Add(Red(x), Red(y)) == Red(x + y)
  {
    var p := RedWitness(x);
    var q := RedWitness(y);
    assert (p + q) * P == p * P + q * P;
    RedShift(x + y, Red(x) + Red(y), p + q);
  }

  lemma RedSub(x: int, y: int)
    ensures Sub(Red(x), Red(y)) == Red(x - y)
  {
    var p := RedWitness(x);
    var q := RedWitness(y);
    assert (p - q) * P == p * P - q * P;
    RedShift(x - y, Red(x) - Red(y), p - q);
  }

  lemma RedMul(x: int, y: int)
    ensures Mul(Red(x), Red(y)) == Red(x * y)
  {
    var a, b := Red(x) as int, Red(y) as int;
    RedMulLeft(x, y);
    RedMulLeft(y, a);
    Arith.Commute(a, y);
    Arith.Commute(a, b);
  }

  lemma RedMulLeft(x: int, y: int)
    ensures Red(Red(x) * y) == Red(x * y)
  {
    var p := RedWitness(x);
    var r := Red(x) as int;
    ProductShift(r, p, y, P);
    RedShift(x * y, r * y, p * y);
  }

  lemma ProductShift(r: int, p: int, y: int, m: int)
    ensures (r + p * m) * y == r * y + (p * y) * m
  {
  }

  lemma RedNeg(x: int)
    ensures Neg(Red(x)) == Red(-x)
  {
    var p := RedWitness(x);
    assert (-p) * P == -(p * P);
    RedShift(-x, -(Red(x) as int), -p);
  }

  lemma AddSub(a: Fe, b: Fe)
    ensures Add(a, Sub(b, a)) == b
  {
    var x: int, y: int := a, b;
    RedAdd(x, y - x);
  }

  // -------------------------------------------------------------------------
  // Ring laws
  // -------------------------------------------------------------------------

  lemma AddComm(a: Fe, b: Fe)
    ensures Add(a, b) == Add(b, a)
  {
    var x: int, y: int := a, b;
    assert x + y == y + x;
  }

  lemma AddAssoc(a: Fe, b: Fe, c: Fe)
    ensures Add(Add(a, b), c) == Add(a, Add(b, c))
  {
    var x: int, y: int, z: int := a, b, c;
    RedAdd(x + y, z);
    RedAdd(x, y + z);
    assert (x + y) + z == x + (y + z);
  }

  lemma Interchange(a: Fe, b: Fe, c: Fe, d: Fe)
    ensures Add(Add(a, b), Add(c, d)) == Add(Add(a, c), Add(b, d))
  {
    var w: int, x: int, y: int, z: int := a, b, c, d;
    RedAdd(w + x, y + z);
    RedAdd(w + y, x + z);
    assert (w + x) + (y + z) == (w + y) + (x + z);
  }

  lemma AddZero(a: Fe)
    ensures Add(a, Zero) == a && Add(Zero, a) == a
  {
  }

  lemma MulComm(a: Fe, b: Fe)
    ensures Mul(a, b) == Mul(b, a)
  {
    Arith.Commute(a, b);
  }

  lemma MulAssoc(a: Fe, b: Fe, c: Fe)
    ensures Mul(Mul(a, b), c) == Mul(a, Mul(b, c))
  {
    var x: int, y: int, z: int := a, b, c;
    RedMul(x * y, z);
    RedMul(x, y * z);
    Arith.Associate(x, y, z);
  }

  lemma MulAdd(a: Fe, b: Fe, c: Fe)
    ensures Mul(a, Add(b, c)) == Add(Mul(a, b), Mul(a, c))
  {
    var x: int, y: int, z: int := a, b, c;
    RedMul(x, y + z);
    RedAdd(x * y, x * z);
    Arith.Distribute(y, z, x);
    Arith.Commute(x, y);
    Arith.Commute(x, z);
    Arith.Commute(x, y + z);
  }

  lemma MulZero(a: Fe)
    ensures Mul(a, Zero) == Zero && Mul(Zero, a) == Zero
  {
    var x: int := a;
    assert x * 0 == 0 && 0 * x == 0;
  }

  lemma MulUnit(a: Fe)
    ensures Mul(a, One) == a && Mul(One, a) == a
  {
    var x: int := a;
    assert x * 1 == x && 1 * x == x;
  }

  /** Taking away what was added. */
  lemma SubAdd(a: Fe, b: Fe)
    ensures Sub(Add(a, b), a) == b
  {
    var x: int, y: int := a, b;
    RedSub(x + y, x);
    assert x + y - x == y;
  }
}
