/**
  The coordinator's batched sumcheck.

  Instances of different sizes run together: an instance with fewer variables
  than the largest ignores the first ones.  With honest round messages the
  running claim is at all times the sum of the batched polynomial over what is
  left of the Boolean cube.
 */
module Sumcheck {
  import opened Arith
  import opened Wrappers
  import opened Field
  import opened Polynomials

  type Point = seq<Fe>

  /** A polynomial `g` in `n` variables, its restrictions to lines along one variable, and its claimed sum. */
  datatype Instance = Instance(n: nat, g: Point -> Fe, line: (Point, Point) -> Poly, claim: Fe)

  /** Along every axis `g` is the polynomial with the `d + 1` coefficients that `line` gives. */
  ghost predicate DegreeAtMost(i: Instance, d: nat) {
    forall pre: Point, suf: Point :: |pre| + 1 + |suf| == i.n ==>
      |i.line(pre, suf)| == d + 1 && forall x: Fe :: Eval(i.line(pre, suf), x) == i.g(pre + [x] + suf)
  }

  // -------------------------------------------------------------------------
  // Sums over the cube
  // -------------------------------------------------------------------------

  /** The sum of `f` over all ways to complete `pre` with `k` bits. */
  function CubeSum(f: Point -> Fe, pre: Point, k: nat): Fe
    decreases k
  {
    if k == 0 then f(pre) else Add(CubeSum(f, pre + [Zero], k - 1), CubeSum(f, pre + [One], k - 1))
  }

  /** The instance as a function of all `max` variables: it looks at the last `n` only. */
  function Padded(i: Instance, max: nat, x: Point): Fe
    requires i.n <= max
  {
    if max - i.n <= |x| then i.g(x[max - i.n..]) else Zero
  }

  function PaddedOf(i: Instance, max: nat): Point -> Fe
    requires i.n <= max
  {
    x => Padded(i, max, x)
  }

  /** Beyond the ignored variables the padded sum is the instance's own. */
  lemma {:induction false} InsideSum(i: Instance, max: nat, pre: Point, k: nat)
    requires i.n <= max && max - i.n <= |pre|
    ensures CubeSum(PaddedOf(i, max), pre, k) == CubeSum(i.g, pre[max - i.n..], k)
    decreases k
  {
    if k > 0 {
      var m := max - i.n;
      InsideSum(i, max, pre + [Zero], k - 1);
      InsideSum(i, max, pre + [One], k - 1);
      assert (pre + [Zero])[m..] == pre[m..] + [Zero];
      assert (pre + [One])[m..] == pre[m..] + [One];
    }
  }

  /** Every ignored variable doubles the sum. */
  lemma {:induction false} PaddedSum(i: Instance, max: nat, pre: Point, k: nat)
    requires i.n <= max && |pre| <= max - i.n && |pre| + k == max
    ensures CubeSum(PaddedOf(i, max), pre, k) == Mul(CubeSum(i.g, [], i.n), Red(Pow2(max - i.n - |pre|)))
    decreases k
  {
    var s := CubeSum(i.g, [], i.n);
    if |pre| == max - i.n {
      InsideSum(i, max, pre, k);
      assert pre[max - i.n..] == [];
      MulUnit(s);
    } else {
      PaddedSum(i, max, pre + [Zero], k - 1);
      PaddedSum(i, max, pre + [One], k - 1);
      Doubled(s, Pow2(max - i.n - |pre| - 1));
    }
  }

  lemma Doubled(s: Fe, p: nat)
    ensures Add(Mul(s, Red(p)), Mul(s, Red(p))) == Mul(s, Red(2 * p))
  {
    MulAdd(s, Red(p), Red(p));
    RedAdd(p, p);
  }

  /** `mul_pow_2`: multiplies by `2^pow` in steps of 63 bits; more than 255 bits abort. */
  method MulPow2(x: Fe, pow: nat) returns (r: Option<Fe>)
    ensures r.Some? <==> pow <= 255
    ensures r.Some? ==> r.value == Mul(x, Red(Pow2(pow)))
  {
    if pow > 255 {
      return None;
    }
    var res, left: nat := x, pow;
    assert Mul(x, Red(Pow2(0))) == x by {
      MulUnit(x);
    }
    while left >= 64
      invariant left <= pow && res == Mul(x, Red(Pow2(pow - left)))
    {
      PowStep(x, pow - left, 63);
      res := Mul(res, Red(Pow2(63)));
      left := left - 63;
    }
    PowStep(x, pow - left, left);
    r := Some(Mul(res, Red(Pow2(left))));
  }

  lemma PowStep(x: Fe, a: nat, b: nat)
    ensures Mul(Mul(x, Red(Pow2(a))), Red(Pow2(b))) == Mul(x, Red(Pow2(a + b)))
  {
    MulAssoc(x, Red(Pow2(a)), Red(Pow2(b)));
    RedMul(Pow2(a), Pow2(b));
    PowAdd(a, b);
  }

  // -------------------------------------------------------------------------
  // The batch
  // -------------------------------------------------------------------------

  ghost predicate ValidBatch(insts: seq<Instance>, cs: seq<Fe>, max: nat, d: nat) {
    |insts| == |cs| && forall i :: 0 <= i < |insts| ==> insts[i].n <= max && DegreeAtMost(insts[i], d)
  }

  ghost predicate Sizes(insts: seq<Instance>, cs: seq<Fe>, max: nat) {
    |insts| == |cs| && forall i :: 0 <= i < |insts| ==> insts[i].n <= max
  }

  /** The batched polynomial: the weighted sum of the padded instances. */
  ghost function Batched(insts: seq<Instance>, cs: seq<Fe>, max: nat, x: Point): Fe
    requires Sizes(insts, cs, max)
  {
    if insts == [] then Zero else Add(Mul(cs[0], Padded(insts[0], max, x)), Batched(insts[1..], cs[1..], max, x))
  }

  ghost function BatchedOf(insts: seq<Instance>, cs: seq<Fe>, max: nat): Point -> Fe
    requires Sizes(insts, cs, max)
  {
    x => Batched(insts, cs, max, x)
  }

  /** The weighted sum of the instances' own padded sums. */
  ghost function WeightedSums(insts: seq<Instance>, cs: seq<Fe>, max: nat, pre: Point, k: nat): Fe
    requires Sizes(insts, cs, max)
  {
    if insts == [] then Zero
    else Add(Mul(cs[0], CubeSum(PaddedOf(insts[0], max), pre, k)), WeightedSums(insts[1..], cs[1..], max, pre, k))
  }

  lemma {:induction false} WeightedStep(insts: seq<Instance>, cs: seq<Fe>, max: nat, pre: Point, k: nat)
    requires Sizes(insts, cs, max) && 0 < k
    ensures WeightedSums(insts, cs, max, pre, k)
         == Add(WeightedSums(insts, cs, max, pre + [Zero], k - 1), WeightedSums(insts, cs, max, pre + [One], k - 1))
  {
    if insts == [] {
      AddZero(Zero);
    } else {
      WeightedStep(insts[1..], cs[1..], max, pre, k);
      var f := PaddedOf(insts[0], max);
      var a, b := CubeSum(f, pre + [Zero], k - 1), CubeSum(f, pre + [One], k - 1);
      var u := WeightedSums(insts[1..], cs[1..], max, pre + [Zero], k - 1);
      var v := WeightedSums(insts[1..], cs[1..], max, pre + [One], k - 1);
      MulAdd(cs[0], a, b);
      Interchange(Mul(cs[0], a), Mul(cs[0], b), u, v);
    }
  }

  lemma {:induction false} WeightedBase(insts: seq<Instance>, cs: seq<Fe>, max: nat, pre: Point)
    requires Sizes(insts, cs, max)
    ensures WeightedSums(insts, cs, max, pre, 0) == Batched(insts, cs, max, pre)
  {
    if insts != [] {
      WeightedBase(insts[1..], cs[1..], max, pre);
    }
  }

  /** Summing over the cube commutes with the weighted sum. */
  lemma {:induction false} CubeSumLinear(insts: seq<Instance>, cs: seq<Fe>, max: nat, pre: Point, k: nat)
    requires Sizes(insts, cs, max)
    ensures CubeSum(BatchedOf(insts, cs, max), pre, k) == WeightedSums(insts, cs, max, pre, k)
    decreases k
  {
    if k == 0 {
      WeightedBase(insts, cs, max, pre);
    } else {
      CubeSumLinear(insts, cs, max, pre + [Zero], k - 1);
      CubeSumLinear(insts, cs, max, pre + [One], k - 1);
      WeightedStep(insts, cs, max, pre, k);
    }
  }

  /** Each instance's claim is its sum over its own cube. */
  ghost predicate HonestClaims(insts: seq<Instance>) {
    forall i :: 0 <= i < |insts| ==> insts[i].claim == CubeSum(insts[i].g, [], insts[i].n)
  }

  ghost function ScaledClaims(insts: seq<Instance>, cs: seq<Fe>, max: nat): Fe
    requires Sizes(insts, cs, max)
  {
    if insts == [] then Zero
    else Add(Mul(Mul(insts[0].claim, Red(Pow2(max - insts[0].n))), cs[0]), ScaledClaims(insts[1..], cs[1..], max))
  }

  /** The scaled claims add up to the sum of the batch over the whole cube. */
  lemma {:induction false} InitialClaim(insts: seq<Instance>, cs: seq<Fe>, max: nat)
    requires Sizes(insts, cs, max) && HonestClaims(insts)
    ensures ScaledClaims(insts, cs, max) == WeightedSums(insts, cs, max, [], max)
  {
    if insts != [] {
      InitialClaim(insts[1..], cs[1..], max);
      PaddedSum(insts[0], max, [], max);
      MulComm(Mul(insts[0].claim, Red(Pow2(max - insts[0].n))), cs[0]);
    }
  }

  // -------------------------------------------------------------------------
  // The round polynomials
  // -------------------------------------------------------------------------

  /** The padded instance along the variable after `pre`: constant while that variable is ignored. */
  ghost function LineOf(i: Instance, max: nat, d: nat, pre: Point, suf: Point): (p: Poly)
    requires i.n <= max && DegreeAtMost(i, d) && |pre| + 1 + |suf| == max
    ensures |p| == d + 1
  {
    var m := max - i.n;
    if |pre| < m then Const(i.g(suf[m - |pre| - 1..]), d + 1) else i.line(pre[m..], suf)
  }

  lemma DropParts(pre: Point, x: Fe, suf: Point, m: nat)
    requires m <= |pre| + 1 + |suf|
    ensures |pre| < m ==> (pre + [x] + suf)[m..] == suf[m - |pre| - 1..]
    ensures m <= |pre| ==> (pre + [x] + suf)[m..] == pre[m..] + [x] + suf
  {
  }

  lemma LineIs(i: Instance, max: nat, d: nat, pre: Point, suf: Point, x: Fe)
    requires i.n <= max && DegreeAtMost(i, d) && |pre| + 1 + |suf| == max
    ensures Eval(LineOf(i, max, d, pre, suf), x) == Padded(i, max, pre + [x] + suf)
  {
    var m := max - i.n;
    DropParts(pre, x, suf, m);
    if |pre| < m {
      EvalConst(i.g(suf[m - |pre| - 1..]), d + 1, x);
    }
  }

  ghost function BatchedLine(insts: seq<Instance>, cs: seq<Fe>, max: nat, d: nat, pre: Point, suf: Point): (p: Poly)
    requires ValidBatch(insts, cs, max, d) && |pre| + 1 + |suf| == max
    ensures |p| == d + 1
  {
    if insts == [] then Zeros(d + 1)
    else
      AddPoly(ScalePoly(cs[0], LineOf(insts[0], max, d, pre, suf)), BatchedLine(insts[1..], cs[1..], max, d, pre, suf))
  }

  lemma {:induction false} BatchedLineIs(
      insts: seq<Instance>, cs: seq<Fe>, max: nat, d: nat, pre: Point, suf: Point, x: Fe)
    requires ValidBatch(insts, cs, max, d) && |pre| + 1 + |suf| == max
    ensures Eval(BatchedLine(insts, cs, max, d, pre, suf), x) == Batched(insts, cs, max, pre + [x] + suf)
  {
    if insts == [] {
      EvalZeros(d + 1, x);
    } else {
      var p, q := LineOf(insts[0], max, d, pre, suf), BatchedLine(insts[1..], cs[1..], max, d, pre, suf);
      BatchedLineIs(insts[1..], cs[1..], max, d, pre, suf, x);
      LineIs(insts[0], max, d, pre, suf, x);
      EvalScale(cs[0], p, x);
      EvalAdd(ScalePoly(cs[0], p), q, x);
    }
  }

  /** The sum of the batch over `k` more bits, as a polynomial in the variable after `pre`. */
  ghost function CubeLine(
      insts: seq<Instance>, cs: seq<Fe>, max: nat, d: nat, pre: Point, suf: Point, k: nat): (p: Poly)
    requires ValidBatch(insts, cs, max, d) && |pre| + 1 + |suf| + k == max
    ensures |p| == d + 1
    decreases k
  {
    if k == 0 then BatchedLine(insts, cs, max, d, pre, suf)
    else
      AddPoly(CubeLine(insts, cs, max, d, pre, suf + [Zero], k - 1),
              CubeLine(insts, cs, max, d, pre, suf + [One], k - 1))
  }

  lemma {:induction false} CubeLineIs(
      insts: seq<Instance>, cs: seq<Fe>, max: nat, d: nat, pre: Point, suf: Point, k: nat, x: Fe)
    requires ValidBatch(insts, cs, max, d) && |pre| + 1 + |suf| + k == max
    ensures Eval(CubeLine(insts, cs, max, d, pre, suf, k), x) == CubeSum(BatchedOf(insts, cs, max), pre + [x] + suf, k)
    decreases k
  {
    if k == 0 {
      BatchedLineIs(insts, cs, max, d, pre, suf, x);
    } else {
      CubeLineIs(insts, cs, max, d, pre, suf + [Zero], k - 1, x);
      CubeLineIs(insts, cs, max, d, pre, suf + [One], k - 1, x);
      EvalAdd(CubeLine(insts, cs, max, d, pre, suf + [Zero], k - 1),
              CubeLine(insts, cs, max, d, pre, suf + [One], k - 1), x);
      assert pre + [x] + suf + [Zero] == pre + [x] + (suf + [Zero]);
      assert pre + [x] + suf + [One] == pre + [x] + (suf + [One]);
    }
  }

  /** The honest round polynomial once the challenges `r` are fixed. */
  ghost function RoundPoly(insts: seq<Instance>, cs: seq<Fe>, max: nat, d: nat, r: Point): (p: Poly)
    requires ValidBatch(insts, cs, max, d) && |r| < max
    ensures |p| == d + 1
  {
    CubeLine(insts, cs, max, d, r, [], max - |r| - 1)
  }

  /** The sum of the batch over what is left of the cube. */
  ghost function Remaining(insts: seq<Instance>, cs: seq<Fe>, max: nat, r: Point): Fe
    requires Sizes(insts, cs, max) && |r| <= max
  {
    CubeSum(BatchedOf(insts, cs, max), r, max - |r|)
  }

  lemma RoundPolyIs(insts: seq<Instance>, cs: seq<Fe>, max: nat, d: nat, r: Point, x: Fe)
    requires ValidBatch(insts, cs, max, d) && |r| < max
    ensures Eval(RoundPoly(insts, cs, max, d, r), x) == Remaining(insts, cs, max, r + [x])
  {
    var f, k, at := BatchedOf(insts, cs, max), max - |r| - 1, r + [x] + [];
    calc {
      Eval(RoundPoly(insts, cs, max, d, r), x);
    == { CubeLineIs(insts, cs, max, d, r, [], k, x); }
      CubeSum(f, at, k);
    == { assert at == r + [x]; }
      CubeSum(f, r + [x], k);
    == { assert max - |r + [x]| == k; }
      Remaining(insts, cs, max, r + [x]);
    }
  }

  /** The remaining sum splits at the next variable. */
  lemma RoundSplits(insts: seq<Instance>, cs: seq<Fe>, max: nat, d: nat, r: Point)
    requires ValidBatch(insts, cs, max, d) && |r| < max
    ensures var p := RoundPoly(insts, cs, max, d, r);
            Remaining(insts, cs, max, r) == Add(Eval(p, Zero), Eval(p, One))
  {
    RoundPolyIs(insts, cs, max, d, r, Zero);
    RoundPolyIs(insts, cs, max, d, r, One);
  }

  // -------------------------------------------------------------------------
  // One round
  // -------------------------------------------------------------------------

  /** The values of a polynomial at `0, 1, ..., n - 1`. */
  function ValuesAt(p: Poly, n: nat): (e: seq<Fe>)
    ensures |e| == n
  {
    seq<Fe>(n, k requires 0 <= k < n => Eval(p, Red(k)))
  }

  /** `UniPoly::from_evals`: exact for polynomials of degree at most `d`. */
  ghost predicate Interpolates(fromEvals: seq<Fe> -> Poly, d: nat) {
    forall p: Poly :: |p| == d + 1 ==> fromEvals(ValuesAt(p, d + 1)) == p
  }

  /** What the workers send: the values at all those points but one. */
  function RoundEvals(p: Poly, d: nat): seq<Fe>
    requires 0 < d
  {
    [Eval(p, Zero)] + ValuesAt(p, d + 1)[2..]
  }

  lemma ValueAtOne(p: Poly, claim: Fe)
    requires claim == Add(Eval(p, Zero), Eval(p, One))
    ensures Sub(claim, Eval(p, Zero)) == Eval(p, One)
  {
    SubAdd(Eval(p, Zero), Eval(p, One));
  }

  lemma FirstValues(p: Poly, n: nat)
    requires 2 <= n
    ensures ValuesAt(p, n)[0] == Eval(p, Zero) && ValuesAt(p, n)[1] == Eval(p, One)
  {
    assert Red(0) == Zero && Red(1) == One;
  }

  lemma Reinserted<T>(v: seq<T>, a: T, b: T)
    requires 2 <= |v| && v[0] == a && v[1] == b
    ensures ([a] + v[2..])[1..] == v[2..] && [a, b] + v[2..] == v
  {
  }

  lemma FullEvals(p: Poly, d: nat, claim: Fe)
    requires 0 < d && claim == Add(Eval(p, Zero), Eval(p, One))
    ensures var e := RoundEvals(p, d); [e[0], Sub(claim, e[0])] + e[1..] == ValuesAt(p, d + 1)
  {
    ValueAtOne(p, claim);
    FirstValues(p, d + 1);
    Reinserted(ValuesAt(p, d + 1), Eval(p, Zero), Eval(p, One));
  }

  /** Puts the value at one, recovered from the claim, into the received evaluations. */
  method Complete(d: nat, evals: seq<Fe>, claim: Fe, ghost p: Poly) returns (full: seq<Fe>)
    requires 0 < d && evals == RoundEvals(p, d) && claim == Add(Eval(p, Zero), Eval(p, One))
    ensures full == ValuesAt(p, d + 1)
  {
    FullEvals(p, d, claim);
    full := [evals[0]];
    full := full + [Sub(claim, evals[0])];
    full := full + evals[1..];
    InPieces(evals[0], Sub(claim, evals[0]), evals[1..]);
  }

  lemma InPieces<T>(a: T, b: T, rest: seq<T>)
    ensures [a] + [b] + rest == [a, b] + rest
  {
  }

  /** The compressed polynomial has, once decompressed, the values of `p`, and no higher degree. */
  ghost predicate Carries(c: Poly, p: Poly) {
    exists q :: q <= p && NonConstant(q) && Compress(q) == Some(c) && forall x :: Eval(q, x) == Eval(p, x)
  }

  /** The sum of the values at zero and one is the hint that decompression needs. */
  lemma CarriesValues(c: Poly, p: Poly, x: Fe)
    requires Carries(c, p)
    ensures 0 < |c| < |p|
    ensures Eval(Decompressed(c, Add(Eval(p, Zero), Eval(p, One))), x) == Eval(p, x)
  {
    var hint := Add(Eval(p, Zero), Eval(p, One));
    var q :| q <= p && NonConstant(q) && Compress(q) == Some(c) && forall x :: Eval(q, x) == Eval(p, x);
    assert |q| >= 2 && Eval(q, Zero) == Eval(p, Zero) && Eval(q, One) == Eval(p, One);
    DecompressedIs(c, hint);
    DecompressUnique(q, Decompressed(c, hint));
  }

  /**
    One round of the prover: recovers the value at one from the claim,
    interpolates, trims, compresses and evaluates.  It aborts exactly when the
    round polynomial is constant, since compression then has no linear
    coefficient to leave out.
   */
  method Round(fromEvals: seq<Fe> -> Poly, d: nat, evals: seq<Fe>, claim: Fe, rj: Fe, ghost p: Poly)
    returns (ok: bool, compressed: Poly, claim': Fe)
    requires 0 < d && Interpolates(fromEvals, d) && |p| == d + 1
    requires evals == RoundEvals(p, d) && claim == Add(Eval(p, Zero), Eval(p, One))
    ensures ok <==> NonConstant(p)
    ensures ok ==> claim' == Eval(p, rj) && Carries(compressed, p)
  {
    var full := Complete(d, evals, claim, p);
    var poly := fromEvals(full);
    poly := Trim(poly);
    ok, compressed, claim' := true, [], Zero;
    var c := Compress(poly);
    if c.None? {
      return false, compressed, claim';
    }
    compressed := c.value;
    claim' := Evaluate(poly, rj);
  }
}
