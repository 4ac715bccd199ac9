/** Univariate polynomials as coefficient lists, lowest degree first. */
module Polynomials {
  import opened Wrappers
  import opened Field

  type Poly = seq<Fe>

  function Eval(p: Poly, x: Fe): Fe {
    if p == [] then Zero else Add(p[0], Mul(x, Eval(p[1..], x)))
  }

  /** `eval_with_coeffs`: a running power instead of nested products. */
  method Evaluate(p: Poly, x: Fe) returns (r: Fe)
    requires p != []
    ensures r == Eval(p, x)
  {
    r := p[0];
    var power := x;
    for i := 1 to |p|
      invariant Add(r, Mul(power, Eval(p[i..], x))) == Eval(p, x)
    {
      assert p[i..][1..] == p[i + 1..];
      EvalStep(r, power, p[i], x, Eval(p[i + 1..], x));
      r := Add(r, Mul(power, p[i]));
      power := Mul(power, x);
    }
    assert p[|p|..] == [];
    MulZero(power);
    AddZero(r);
  }

  lemma EvalStep(r: Fe, power: Fe, c: Fe, x: Fe, rest: Fe)
    ensures Add(r, Mul(power, Add(c, Mul(x, rest)))) == Add(Add(r, Mul(power, c)), Mul(Mul(power, x), rest))
  {
    MulAdd(power, c, Mul(x, rest));
    MulAssoc(power, x, rest);
    AddAssoc(r, Mul(power, c), Mul(Mul(power, x), rest));
  }

  function AddPoly(p: Poly, q: Poly): (r: Poly)
    requires |p| == |q|
    ensures |r| == |p|
  {
    seq<Fe>(|p|, i requires 0 <= i < |p| => Add(p[i], q[i]))
  }

  function ScalePoly(c: Fe, p: Poly): (r: Poly)
    ensures |r| == |p|
  {
    seq<Fe>(|p|, i requires 0 <= i < |p| => Mul(c, p[i]))
  }

  lemma {:induction false} EvalAdd(p: Poly, q: Poly, x: Fe)
    requires |p| == |q|
    ensures Eval(AddPoly(p, q), x) == Add(Eval(p, x), Eval(q, x))
  {
    if p == [] {
      AddZero(Zero);
    } else {
      EvalAdd(p[1..], q[1..], x);
      assert AddPoly(p, q)[1..] == AddPoly(p[1..], q[1..]);
      MulAdd(x, Eval(p[1..], x), Eval(q[1..], x));
      Interchange(p[0], q[0], Mul(x, Eval(p[1..], x)), Mul(x, Eval(q[1..], x)));
    }
  }

  lemma {:induction false} EvalScale(c: Fe, p: Poly, x: Fe)
    ensures Eval(ScalePoly(c, p), x) == Mul(c, Eval(p, x))
  {
    if p == [] {
      MulZero(c);
    } else {
      EvalScale(c, p[1..], x);
      assert ScalePoly(c, p)[1..] == ScalePoly(c, p[1..]);
      ScaleStep(c, p[0], x, Eval(p[1..], x));
    }
  }

  lemma ScaleStep(c: Fe, a: Fe, x: Fe, e: Fe)
    ensures Add(Mul(c, a), Mul(x, Mul(c, e))) == Mul(c, Add(a, Mul(x, e)))
  {
    MulAdd(c, a, Mul(x, e));
    MulAssoc(x, c, e);
    MulAssoc(c, x, e);
    MulComm(x, c);
  }

  function Zeros(n: nat): (p: Poly)
    ensures |p| == n
  {
    seq<Fe>(n, _ => Zero)
  }

  lemma {:induction false} EvalZeros(n: nat, x: Fe)
    ensures Eval(Zeros(n), x) == Zero
  {
    if n > 0 {
      EvalZeros(n - 1, x);
      assert Zeros(n)[1..] == Zeros(n - 1);
      MulZero(x);
      AddZero(Zero);
    }
  }

  /** A constant, written with `n` coefficients. */
  function Const(c: Fe, n: nat): (p: Poly)
    requires 0 < n
    ensures |p| == n
  {
    [c] + Zeros(n - 1)
  }

  lemma EvalConst(c: Fe, n: nat, x: Fe)
    requires 0 < n
    ensures Eval(Const(c, n), x) == c
  {
    assert Const(c, n)[1..] == Zeros(n - 1);
    EvalZeros(n - 1, x);
    MulZero(x);
    AddZero(c);
  }

  // -------------------------------------------------------------------------
  // Trimming
  // -------------------------------------------------------------------------

  /** Has a coefficient other than the constant one. */
  predicate NonConstant(p: Poly) {
    exists i :: 1 <= i < |p| && p[i] != Zero
  }

  /** Drops trailing zeros, keeping one coefficient. */
  method Trim(p: Poly) returns (r: Poly)
    requires p != []
    ensures r != [] && r <= p && (|r| > 1 ==> r[|r| - 1] != Zero)
    ensures |r| > 1 <==> NonConstant(p)
    ensures forall x :: Eval(r, x) == Eval(p, x)
  {
    r := p;
    while |r| > 1 && r[|r| - 1] == Zero
      invariant r != [] && r <= p && forall i :: |r| <= i < |p| ==> p[i] == Zero
      invariant forall x :: Eval(r, x) == Eval(p, x)
    {
      forall x
        ensures Eval(r[..|r| - 1], x) == Eval(p, x)
      {
        DropZero(r, x);
      }
      r := r[..|r| - 1];
    }
  }

  lemma {:induction false} DropZero(p: Poly, x: Fe)
    requires p != [] && p[|p| - 1] == Zero
    ensures Eval(p[..|p| - 1], x) == Eval(p, x)
  {
    if |p| == 1 {
      assert p[1..] == [];
      MulZero(x);
      AddZero(Zero);
    } else {
      DropZero(p[1..], x);
      assert p[1..][..|p| - 2] == p[..|p| - 1][1..];
    }
  }

  // -------------------------------------------------------------------------
  // Compression
  // -------------------------------------------------------------------------

  /** Leaves out the linear coefficient; slicing a polynomial without one aborts. */
  function Compress(p: Poly): Option<Poly> {
    if |p| < 2 then None else Some([p[0]] + p[2..])
  }

  function SumOf(p: Poly): Fe {
    if p == [] then Zero else Add(p[0], SumOf(p[1..]))
  }

  lemma {:induction false} SumSnoc(p: Poly, c: Fe)
    ensures SumOf(p + [c]) == Add(SumOf(p), c)
  {
    if p == [] {
      assert p + [c] == [c] && [c][1..] == [];
      AddZero(c);
    } else {
      SumSnoc(p[1..], c);
      assert (p + [c])[1..] == p[1..] + [c];
      AddAssoc(p[0], SumOf(p[1..]), c);
    }
  }

  /** The values at zero and one. */
  lemma {:induction false} EvalEnds(p: Poly)
    requires p != []
    ensures Eval(p, Zero) == p[0] && Eval(p, One) == SumOf(p)
  {
    MulZero(Eval(p[1..], Zero));
    AddZero(p[0]);
    MulUnit(Eval(p[1..], One));
    if |p| > 1 {
      EvalEnds(p[1..]);
    }
  }

  lemma MoveOut(l: Fe, a: Fe, s: Fe, x: Fe)
    ensures Add(Add(Sub(l, x), a), Add(s, x)) == Add(Add(l, a), s)
  {
    var l': int, a': int, s': int, x': int := l, a, s, x;
    RedAdd(l' - x', a');
    RedAdd(l' - x' + a', s' + x');
    RedAdd(l' + a', s');
    assert l' - x' + a' + (s' + x') == l' + a' + s';
  }

  lemma Regroup(a: Fe, l: Fe, s: Fe)
    ensures Add(a, Add(a, Add(l, s))) == Add(Add(l, Add(a, a)), s)
  {
    var l': int, a': int, s': int := l, a, s;
    RedAdd(l', s');
    RedAdd(a', l' + s');
    RedAdd(a', a' + (l' + s'));
    RedAdd(a', a');
    RedAdd(l', a' + a');
    RedAdd(l' + (a' + a'), s');
    assert a' + (a' + (l' + s')) == (l' + (a' + a')) + s';
  }

  lemma Linear(hint: Fe, a: Fe)
    ensures Add(Sub(Sub(hint, a), a), Add(a, a)) == hint
  {
    var h: int, a': int := hint, a;
    RedSub(h - a', a');
    RedAdd(h - a' - a', a' + a');
    assert h - a' - a' + (a' + a') == h;
  }

  /** The linear coefficient is determined: decompression undoes compression. */
  lemma DecompressUnique(p: Poly, q: Poly)
    requires |p| >= 2 && Compress(p) == Compress(q)
    requires Add(Eval(p, Zero), Eval(p, One)) == Add(Eval(q, Zero), Eval(q, One))
    ensures p == q
  {
    SameRest(p, q);
    EndsSum(p);
    EndsSum(q);
    Cancel(p[1], q[1], Add(p[0], p[0]), SumOf(p[2..]));
    SameThroughout(p, q);
  }

  lemma SameRest(p: Poly, q: Poly)
    requires |p| >= 2 && Compress(p) == Compress(q)
    ensures |q| >= 2 && p[0] == q[0] && p[2..] == q[2..]
  {
    var c := Compress(p).value;
    assert p[0] == c[0] == q[0] && p[2..] == c[1..] == q[2..];
  }

  /** The values at zero and one together, by the linear coefficient. */
  lemma EndsSum(p: Poly)
    requires |p| >= 2
    ensures Add(Eval(p, Zero), Eval(p, One)) == Add(Add(p[1], Add(p[0], p[0])), SumOf(p[2..]))
  {
    EvalEnds(p);
    assert p[1..][1..] == p[2..];
    Regroup(p[0], p[1], SumOf(p[2..]));
  }

  lemma SameThroughout(p: Poly, q: Poly)
    requires |p| >= 2 && |q| >= 2 && p[0] == q[0] && p[1] == q[1] && p[2..] == q[2..]
    ensures p == q
  {
    assert p == [p[0], p[1]] + p[2..] && q == [q[0], q[1]] + q[2..];
  }

  lemma Cancel(x: Fe, y: Fe, a: Fe, s: Fe)
    requires Add(Add(x, a), s) == Add(Add(y, a), s)
    ensures x == y
  {
    AddComm(Add(x, a), s);
    AddComm(Add(y, a), s);
    SubAdd(s, Add(x, a));
    SubAdd(s, Add(y, a));
    AddComm(x, a);
    AddComm(y, a);
    SubAdd(a, x);
    SubAdd(a, y);
  }

  /** The polynomial of which `c` is the compression and whose values at zero and one add up to the hint. */
  function Decompressed(c: Poly, hint: Fe): (p: Poly)
    requires c != []
    ensures |p| == |c| + 1
  {
    [c[0], Sub(Sub(hint, Add(c[0], c[0])), SumOf(c[1..]))] + c[1..]
  }

  lemma DecompressedIs(c: Poly, hint: Fe)
    requires c != []
    ensures Compress(Decompressed(c, hint)) == Some(c)
    ensures Add(Eval(Decompressed(c, hint), Zero), Eval(Decompressed(c, hint), One)) == hint
  {
    var p := Decompressed(c, hint);
    assert p[0] == c[0] && p[2..] == c[1..] && [p[0]] + p[2..] == c;
    EndsSum(p);
    Refill(hint, Add(c[0], c[0]), SumOf(c[1..]));
  }

  lemma Refill(hint: Fe, a: Fe, s: Fe)
    ensures Add(Add(Sub(Sub(hint, a), s), a), s) == hint
  {
    var h: int, a': int, s': int := hint, a, s;
    RedSub(h - a', s');
    RedAdd(h - a' - s', a');
    RedAdd(h - a' - s' + a', s');
    assert h - a' - s' + a' + s' == h;
  }

  /** The linear coefficient, from the sum of the values at zero and one. */
  method LinearTerm(c: Poly, hint: Fe) returns (linear: Fe)
    requires c != []
    ensures Add(Add(linear, Add(c[0], c[0])), SumOf(c[1..])) == hint
  {
    linear := Sub(Sub(hint, c[0]), c[0]);
    Linear(hint, c[0]);
    assert c[1..1] == [];
    AddZero(hint);
    for i := 1 to |c|
      invariant Add(Add(linear, Add(c[0], c[0])), SumOf(c[1..i])) == hint
    {
      SumSnoc(c[1..i], c[i]);
      assert c[1..i] + [c[i]] == c[1..i + 1];
      MoveOut(linear, Add(c[0], c[0]), SumOf(c[1..i]), c[i]);
      linear := Sub(linear, c[i]);
    }
    assert c[1..|c|] == c[1..];
  }

  lemma LinearIs(c: Poly, hint: Fe, linear: Fe)
    requires c != [] && Add(Add(linear, Add(c[0], c[0])), SumOf(c[1..])) == hint
    ensures [c[0], linear] + c[1..] == Decompressed(c, hint)
  {
    Refill(hint, Add(c[0], c[0]), SumOf(c[1..]));
    Cancel(linear, Sub(Sub(hint, Add(c[0], c[0])), SumOf(c[1..])), Add(c[0], c[0]), SumOf(c[1..]));
  }

  /** Recovers the left out coefficient. */
  method Decompress(c: Poly, hint: Fe) returns (p: Poly)
    requires c != []
    ensures p == Decompressed(c, hint) && Compress(p) == Some(c)
    ensures Add(Eval(p, Zero), Eval(p, One)) == hint
  {
    var linear := LinearTerm(c, hint);
    LinearIs(c, hint, linear);
    DecompressedIs(c, hint);
    p := [c[0], linear] + c[1..];
  }

  /** The verifier's evaluation, which never builds the polynomial. */
  method EvalFromHint(c: Poly, hint: Fe, x: Fe) returns (r: Fe)
    requires c != []
    ensures r == Eval(Decompressed(c, hint), x)
  {
    var linear := LinearTerm(c, hint);
    LinearIs(c, hint, linear);
    FirstTwo(c[0], linear, c[1..], x);
    var point := x;
    r := Add(c[0], Mul(x, linear));
    for i := 1 to |c|
      invariant Add(r, Mul(Mul(point, x), Eval(c[i..], x))) == Eval([c[0], linear] + c[1..], x)
    {
      assert c[i..][1..] == c[i + 1..];
      point := Mul(point, x);
      EvalStep(r, point, c[i], x, Eval(c[i + 1..], x));
      MulComm(c[i], point);
      r := Add(r, Mul(c[i], point));
    }
    assert c[|c|..] == [];
    MulZero(Mul(point, x));
    AddZero(r);
  }

  lemma FirstTwo(a: Fe, b: Fe, rest: Poly, x: Fe)
    ensures Eval([a, b] + rest, x) == Add(Add(a, Mul(x, b)), Mul(Mul(x, x), Eval(rest, x)))
  {
    var p := [a, b] + rest;
    assert p[1..] == [b] + rest && p[1..][1..] == rest;
    EvalStep(a, x, b, x, Eval(rest, x));
  }
}
