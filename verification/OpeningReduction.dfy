/**
  Reducing many opening claims to one: the coefficients of each polynomial are
  merged in an ordered map, and the joint claim is the value of the merged
  combination with every polynomial zero-padded to the common size.
 */
module OpeningReduction {
  import opened Arith
  import opened Field
  import opened Polynomials

  type Label = nat

  /** A reduced opening: number of variables, coefficients and labels of its polynomials, and the claim. */
  datatype Reduced = Reduced(vars: nat, coeffs: seq<Fe>, labels: seq<Label>, claim: Fe)

  // -------------------------------------------------------------------------
  // Preparing the reductions
  // -------------------------------------------------------------------------

  function Dot(a: seq<Fe>, b: seq<Fe>): Fe
    requires |a| == |b|
  {
    if a == [] then Zero else Add(Mul(a[0], b[0]), Dot(a[1..], b[1..]))
  }

  class ReductionSumcheck {
    const labels: seq<Label>
    const vars: nat
    var claims: seq<Fe>
    var rlcCoeffs: seq<Fe>

    constructor (labels: seq<Label>, vars: nat, claims: seq<Fe>)
      ensures this.labels == labels && this.vars == vars && this.claims == claims && rlcCoeffs == []
    {
      this.labels, this.vars, this.claims := labels, vars, claims;
      rlcCoeffs := [];
    }

    /** How many random coefficients the reduction uses up. */
    function Gammas(): nat {
      if |labels| > 1 then |labels| else 1
    }

    /** Afterwards there is one claim: the combination of the claims by the coefficients. */
    method Prepare(gammas: seq<Fe>)
      requires |claims| == |labels| > 0 && |gammas| == Gammas()
      modifies this
      ensures |rlcCoeffs| == |labels| && |claims| == 1
      ensures claims[0] == Dot(rlcCoeffs, old(claims))
      ensures rlcCoeffs == if |labels| > 1 then gammas else [One]
    {
      if |labels| > 1 {
        rlcCoeffs := gammas;
        var reduced := Zero;
        var i := |claims|;
        while i > 0
          invariant 0 <= i <= |claims| && claims == old(claims) && reduced == Dot(rlcCoeffs[i..], claims[i..])
        {
          i := i - 1;
          assert rlcCoeffs[i..][1..] == rlcCoeffs[i + 1..] && claims[i..][1..] == claims[i + 1..];
          reduced := Add(Mul(rlcCoeffs[i], claims[i]), reduced);
        }
        assert rlcCoeffs[0..] == rlcCoeffs && claims[0..] == claims;
        claims := [reduced];
      } else {
        rlcCoeffs := [One];
        MulUnit(claims[0]);
        AddZero(claims[0]);
        assert rlcCoeffs[1..] == [] && claims[1..] == [];
      }
    }
  }

  // -------------------------------------------------------------------------
  // Merging
  // -------------------------------------------------------------------------

  /** One, and each further entry the previous one times `gamma`. */
  ghost predicate PowersOf(powers: seq<Fe>, gamma: Fe) {
    powers != [] && powers[0] == One && Geometric(powers, gamma)
  }

  ghost predicate Geometric(powers: seq<Fe>, gamma: Fe) {
    forall i :: 0 < i < |powers| ==> powers[i] == Mul(powers[i - 1], gamma)
  }

  method GammaPowers(gamma: Fe, n: nat) returns (powers: seq<Fe>)
    ensures |powers| == Max(n, 1) && PowersOf(powers, gamma)
  {
    powers := [One];
    var i := 1;
    while i < n
      invariant 1 <= i <= Max(n, 1) && |powers| == i && PowersOf(powers, gamma)
    {
      powers := powers + [Mul(powers[i - 1], gamma)];
      i := i + 1;
    }
  }

  /** An ordered map from labels to coefficients. */
  datatype Entry = Entry(poly: Label, coeff: Fe)

  ghost predicate Ordered(m: seq<Entry>) {
    forall i, j :: 0 <= i < j < |m| ==> m[i].poly < m[j].poly
  }

  /** A linear functional, given by its value on every polynomial, applied to the combination. */
  function Apply(m: seq<Entry>, v: Label -> Fe): Fe {
    if m == [] then Zero else Add(Mul(m[0].coeff, v(m[0].poly)), Apply(m[1..], v))
  }

  /** `*entry(poly).or_insert(0) += coeff`. */
  function AddTo(m: seq<Entry>, poly: Label, coeff: Fe): seq<Entry> {
    if m == [] || poly < m[0].poly then [Entry(poly, Add(Zero, coeff))] + m
    else if poly == m[0].poly then [Entry(poly, Add(m[0].coeff, coeff))] + m[1..]
    else [m[0]] + AddTo(m[1..], poly, coeff)
  }

  lemma OrderedCons(e: Entry, m: seq<Entry>)
    requires Ordered(m) && (m != [] ==> e.poly < m[0].poly)
    ensures Ordered([e] + m)
  {
    forall j | 0 <= j < |m|
      ensures e.poly < m[j].poly
    {
      assert j > 0 ==> m[0].poly < m[j].poly;
    }
  }

  lemma OrderedTail(m: seq<Entry>)
    requires m != [] && Ordered(m)
    ensures Ordered(m[1..]) && (|m| > 1 ==> m[0].poly < m[1..][0].poly)
  {
  }

  lemma {:induction false} AddToOrdered(m: seq<Entry>, poly: Label, coeff: Fe)
    requires Ordered(m)
    ensures Ordered(AddTo(m, poly, coeff)) && AddTo(m, poly, coeff) != []
    ensures AddTo(m, poly, coeff)[0].poly == if m == [] then poly else Min(poly, m[0].poly)
  {
    if m == [] || poly < m[0].poly {
      OrderedCons(Entry(poly, Add(Zero, coeff)), m);
    } else {
      OrderedTail(m);
      if poly == m[0].poly {
        OrderedCons(Entry(poly, Add(m[0].coeff, coeff)), m[1..]);
      } else {
        AddToOrdered(m[1..], poly, coeff);
        OrderedCons(m[0], AddTo(m[1..], poly, coeff));
      }
    }
  }

  lemma {:induction false} AddToApplies(m: seq<Entry>, poly: Label, coeff: Fe, v: Label -> Fe)
    ensures Apply(AddTo(m, poly, coeff), v) == Add(Apply(m, v), Mul(coeff, v(poly)))
  {
    var r := AddTo(m, poly, coeff);
    if m == [] || poly < m[0].poly {
      assert r[1..] == m;
      AddZero(coeff);
      AddComm(Mul(coeff, v(poly)), Apply(m, v));
    } else if poly == m[0].poly {
      assert r[1..] == m[1..];
      EntrySum(m[0].coeff, coeff, v(poly), Apply(m[1..], v));
    } else {
      AddToApplies(m[1..], poly, coeff, v);
      assert r[1..] == AddTo(m[1..], poly, coeff);
      AddAssoc(Mul(m[0].coeff, v(m[0].poly)), Apply(m[1..], v), Mul(coeff, v(poly)));
    }
  }

  lemma EntrySum(a: Fe, b: Fe, x: Fe, rest: Fe)
    ensures Add(Mul(Add(a, b), x), rest) == Add(Add(Mul(a, x), rest), Mul(b, x))
  {
    MulComm(Add(a, b), x);
    MulAdd(x, a, b);
    MulComm(x, a);
    MulComm(x, b);
    var p, q := Mul(a, x), Mul(b, x);
    AddAssoc(p, q, rest);
    AddComm(q, rest);
    AddAssoc(p, rest, q);
  }

  /** The flat double sum, reduction by reduction. */
  function InnerSum(coeffs: seq<Fe>, labels: seq<Label>, g: Fe, v: Label -> Fe): Fe
    requires |coeffs| == |labels|
  {
    if coeffs == [] then Zero else Add(Mul(Mul(coeffs[0], g), v(labels[0])), InnerSum(coeffs[1..], labels[1..], g, v))
  }

  ghost predicate WellFormed(rs: seq<Reduced>) {
    forall i :: 0 <= i < |rs| ==> |rs[i].coeffs| == |rs[i].labels|
  }

  function FlatSum(rs: seq<Reduced>, powers: seq<Fe>, v: Label -> Fe): Fe
    requires |rs| <= |powers| && forall i :: 0 <= i < |rs| ==> |rs[i].coeffs| == |rs[i].labels|
  {
    if rs == [] then Zero else Add(InnerSum(rs[0].coeffs, rs[0].labels, powers[0], v), FlatSum(rs[1..], powers[1..], v))
  }

  /** Every linear functional has on the second map its value on the first plus that of the given coefficients. */
  ghost predicate Adds(m: seq<Entry>, m': seq<Entry>, coeffs: seq<Fe>, labels: seq<Label>, g: Fe)
    requires |coeffs| == |labels|
  {
    forall v: Label -> Fe :: Apply(m', v) == Add(Apply(m, v), InnerSum(coeffs, labels, g, v))
  }

  lemma {:induction false} InnerSnoc(coeffs: seq<Fe>, labels: seq<Label>, c: Fe, l: Label, g: Fe, v: Label -> Fe)
    requires |coeffs| == |labels|
    ensures InnerSum(coeffs + [c], labels + [l], g, v) == Add(InnerSum(coeffs, labels, g, v), Mul(Mul(c, g), v(l)))
  {
    var cs, ls := coeffs + [c], labels + [l];
    if coeffs == [] {
      assert cs[1..] == [] && ls[1..] == [];
      AddComm(Zero, Mul(Mul(c, g), v(l)));
    } else {
      assert cs[1..] == coeffs[1..] + [c] && ls[1..] == labels[1..] + [l];
      InnerSnoc(coeffs[1..], labels[1..], c, l, g, v);
      AddAssoc(Mul(Mul(coeffs[0], g), v(labels[0])), InnerSum(coeffs[1..], labels[1..], g, v), Mul(Mul(c, g), v(l)));
    }
  }

  lemma AddsMore(m: seq<Entry>, m': seq<Entry>, coeffs: seq<Fe>, labels: seq<Label>, c: Fe, l: Label, g: Fe)
    requires |coeffs| == |labels| && Adds(m, m', coeffs, labels, g)
    ensures Adds(m, AddTo(m', l, Mul(c, g)), coeffs + [c], labels + [l], g)
  {
    forall v: Label -> Fe
      ensures Apply(AddTo(m', l, Mul(c, g)), v) == Add(Apply(m, v), InnerSum(coeffs + [c], labels + [l], g, v))
    {
      AddToApplies(m', l, Mul(c, g), v);
      InnerSnoc(coeffs, labels, c, l, g, v);
      AddAssoc(Apply(m, v), InnerSum(coeffs, labels, g, v), Mul(Mul(c, g), v(l)));
    }
  }

  lemma AddsNothing(m: seq<Entry>, g: Fe)
    ensures Adds(m, m, [], [], g)
  {
    forall v: Label -> Fe
      ensures Apply(m, v) == Add(Apply(m, v), InnerSum([], [], g, v))
    {
      AddZero(Apply(m, v));
    }
  }

  /** Adds one reduction's coefficients, weighted. */
  method MergeOne(m: seq<Entry>, coeffs: seq<Fe>, labels: seq<Label>, g: Fe) returns (m': seq<Entry>)
    requires Ordered(m) && |coeffs| == |labels|
    ensures Ordered(m') && Adds(m, m', coeffs, labels, g)
  {
    m' := m;
    AddsNothing(m, g);
    for j := 0 to |coeffs|
      invariant Ordered(m') && Adds(m, m', coeffs[..j], labels[..j], g)
    {
      AddToOrdered(m', labels[j], Mul(coeffs[j], g));
      AddsMore(m, m', coeffs[..j], labels[..j], coeffs[j], labels[j], g);
      assert coeffs[..j] + [coeffs[j]] == coeffs[..j + 1] && labels[..j] + [labels[j]] == labels[..j + 1];
      m' := AddTo(m', labels[j], Mul(coeffs[j], g));
    }
    assert coeffs[..|coeffs|] == coeffs && labels[..|coeffs|] == labels;
  }

  /** The map and the flat double sum over the reductions have the same value under every linear functional. */
  ghost predicate Merged(rs: seq<Reduced>, powers: seq<Fe>, m: seq<Entry>)
    requires WellFormed(rs) && |rs| <= |powers|
  {
    forall v: Label -> Fe :: Apply(m, v) == FlatSum(rs, powers, v)
  }

  lemma {:induction false} FlatSnoc(rs: seq<Reduced>, powers: seq<Fe>, r: Reduced, v: Label -> Fe)
    requires WellFormed(rs) && |rs| < |powers| && |r.coeffs| == |r.labels|
    ensures FlatSum(rs + [r], powers, v) == Add(FlatSum(rs, powers, v), InnerSum(r.coeffs, r.labels, powers[|rs|], v))
  {
    var all := rs + [r];
    if rs == [] {
      assert all[1..] == [];
      AddComm(Zero, InnerSum(r.coeffs, r.labels, powers[0], v));
    } else {
      assert all[1..] == rs[1..] + [r];
      FlatSnoc(rs[1..], powers[1..], r, v);
      AddAssoc(InnerSum(rs[0].coeffs, rs[0].labels, powers[0], v), FlatSum(rs[1..], powers[1..], v),
               InnerSum(r.coeffs, r.labels, powers[|rs|], v));
    }
  }

  lemma MergedMore(rs: seq<Reduced>, powers: seq<Fe>, m: seq<Entry>, r: Reduced, m': seq<Entry>)
    requires WellFormed(rs) && |rs| < |powers| && |r.coeffs| == |r.labels|
    requires Merged(rs, powers, m) && Adds(m, m', r.coeffs, r.labels, powers[|rs|])
    ensures WellFormed(rs + [r]) && Merged(rs + [r], powers, m')
  {
    forall v: Label -> Fe
      ensures Apply(m', v) == FlatSum(rs + [r], powers, v)
    {
      FlatSnoc(rs, powers, r, v);
    }
  }

  method Merge(rs: seq<Reduced>, powers: seq<Fe>) returns (m: seq<Entry>)
    requires WellFormed(rs) && |rs| <= |powers|
    ensures Ordered(m) && Merged(rs, powers, m)
  {
    m := [];
    for i := 0 to |rs|
      invariant Ordered(m) && Merged(rs[..i], powers, m)
    {
      var next := MergeOne(m, rs[i].coeffs, rs[i].labels, powers[i]);
      MergedMore(rs[..i], powers, m, rs[i], next);
      assert rs[..i] + [rs[i]] == rs[..i + 1];
      m := next;
    }
    assert rs[..|rs|] == rs;
  }

  // -------------------------------------------------------------------------
  // The joint claim
  // -------------------------------------------------------------------------

  /** The multilinear extension of a table of `2^|r|` values; the first variable chooses the half. */
  function Mle(t: seq<Fe>, r: seq<Fe>): Fe
    requires |t| == Pow2(|r|)
    decreases |r|
  {
    if r == [] then t[0]
    else
      var h := Pow2(|r| - 1);
      Add(Mul(Sub(One, r[0]), Mle(t[..h], r[1..])), Mul(r[0], Mle(t[h..], r[1..])))
  }

  /** A corner of the cube, and its place in a table, the first variable being the highest digit. */
  function Corner(bs: seq<bool>): (r: seq<Fe>)
    ensures |r| == |bs|
  {
    seq<Fe>(|bs|, i requires 0 <= i < |bs| => if bs[i] then One else Zero)
  }

  function Place(bs: seq<bool>): (i: nat)
    ensures i < Pow2(|bs|)
  {
    if bs == [] then 0 else (if bs[0] then Pow2(|bs| - 1) else 0) + Place(bs[1..])
  }

  /** At the corners of the cube the extension has the values of the table. */
  lemma {:induction false} MleAtCorner(t: seq<Fe>, bs: seq<bool>)
    requires |t| == Pow2(|bs|)
    ensures Mle(t, Corner(bs)) == t[Place(bs)]
  {
    if bs != [] {
      var h, r := Pow2(|bs| - 1), Corner(bs);
      assert r[1..] == Corner(bs[1..]);
      MleAtCorner(t[..h], bs[1..]);
      MleAtCorner(t[h..], bs[1..]);
      Half(r[0], Mle(t[..h], r[1..]), Mle(t[h..], r[1..]));
    }
  }

  lemma Half(x: Fe, low: Fe, high: Fe)
    requires x == Zero || x == One
    ensures Add(Mul(Sub(One, x), low), Mul(x, high)) == if x == One then high else low
  {
    MulUnit(low);
    MulUnit(high);
    MulZero(low);
    MulZero(high);
    MulComm(Zero, low);
    MulComm(Zero, high);
    AddZero(low);
    AddZero(high);
    AddComm(Zero, high);
  }

  lemma {:induction false} MleZeros(r: seq<Fe>)
    ensures Mle(Zeros(Pow2(|r|)), r) == Zero
    decreases |r|
  {
    if r != [] {
      var h := Pow2(|r| - 1);
      MleZeros(r[1..]);
      assert Zeros(2 * h)[..h] == Zeros(h) && Zeros(2 * h)[h..] == Zeros(h);
      MulZero(Sub(One, r[0]));
      MulZero(r[0]);
      AddZero(Zero);
    }
  }

  /** A table padded with zeros for `m` more leading variables. */
  function ZeroPad(t: seq<Fe>, m: nat): seq<Fe> {
    if m == 0 then t
    else
      var p := ZeroPad(t, m - 1);
      p + Zeros(|p|)
  }

  /** `prod (1 - r)`. */
  function Lagrange(r: seq<Fe>): Fe {
    if r == [] then One else Mul(Sub(One, r[0]), Lagrange(r[1..]))
  }

  /** One more leading variable, with zeros in its upper half. */
  lemma PadOnce(p: seq<Fe>, x: Fe, rest: seq<Fe>)
    requires |p| == Pow2(|rest|)
    ensures |p + Zeros(|p|)| == Pow2(|rest| + 1)
    ensures Mle(p + Zeros(|p|), [x] + rest) == Mul(Sub(One, x), Mle(p, rest))
  {
    var t, r := p + Zeros(|p|), [x] + rest;
    assert r[1..] == rest && t[..|p|] == p && t[|p|..] == Zeros(|p|);
    MleZeros(rest);
    MulZero(x);
    AddZero(Mul(Sub(One, x), Mle(p, rest)));
  }

  lemma PadFirst(p: seq<Fe>, r: seq<Fe>)
    requires r != [] && |p| == Pow2(|r| - 1)
    ensures |p + Zeros(|p|)| == Pow2(|r|)
    ensures Mle(p + Zeros(|p|), r) == Mul(Sub(One, r[0]), Mle(p, r[1..]))
  {
    assert [r[0]] + r[1..] == r;
    PadOnce(p, r[0], r[1..]);
  }

  lemma FirstOf(r: seq<Fe>, m: nat)
    requires 0 < m <= |r|
    ensures [r[0]] + r[1..] == r && r[1..][m - 1..] == r[m..]
    ensures Lagrange(r[..m]) == Mul(Sub(One, r[0]), Lagrange(r[1..][..m - 1]))
  {
    assert r[..m][1..] == r[1..][..m - 1];
  }

  /** Padding with zeros multiplies the value by the product of `1 - r` over the new variables. */
  lemma {:induction false} ZeroPadValue(t: seq<Fe>, m: nat, r: seq<Fe>)
    requires m <= |r| && |t| == Pow2(|r| - m)
    ensures |ZeroPad(t, m)| == Pow2(|r|)
    ensures Mle(ZeroPad(t, m), r) == Mul(Lagrange(r[..m]), Mle(t, r[m..]))
    decreases m
  {
    if m == 0 {
      assert r[0..] == r && r[..0] == [];
      MulUnit(Mle(t, r));
    } else {
      ZeroPadValue(t, m - 1, r[1..]);
      PadFirst(ZeroPad(t, m - 1), r);
      FirstOf(r, m);
      MulAssoc(Sub(One, r[0]), Lagrange(r[1..][..m - 1]), Mle(t, r[m..]));
    }
  }

  /** The committed polynomials: number of variables and table of each. */
  datatype Tables = Tables(vars: Label -> nat, table: Label -> seq<Fe>)

  /** All polynomials of a reduction have its number of variables, at most as many as there are challenges. */
  ghost predicate Fitting(ts: Tables, r: Reduced, n: nat) {
    && |r.coeffs| == |r.labels| && r.vars <= n
    && forall j :: 0 <= j < |r.labels| ==> ts.vars(r.labels[j]) == r.vars && |ts.table(r.labels[j])| == Pow2(r.vars)
  }

  ghost predicate AllFitting(ts: Tables, rs: seq<Reduced>, n: nat) {
    forall i :: 0 <= i < |rs| ==> Fitting(ts, rs[i], n)
  }

  /** The value at `r` of a polynomial zero-padded to as many variables. */
  function PaddedValue(ts: Tables, r: seq<Fe>, l: Label): Fe {
    if ts.vars(l) <= |r| && |ZeroPad(ts.table(l), |r| - ts.vars(l))| == Pow2(|r|) then
      Mle(ZeroPad(ts.table(l), |r| - ts.vars(l)), r)
    else Zero
  }

  /** The polynomials' values at a point of their own size. */
  function Values(ts: Tables, labels: seq<Label>, pt: seq<Fe>): (w: seq<Fe>)
    requires forall j :: 0 <= j < |labels| ==> |ts.table(labels[j])| == Pow2(|pt|)
    ensures |w| == |labels|
  {
    seq<Fe>(|labels|, j requires 0 <= j < |labels| => Mle(ts.table(labels[j]), pt))
  }

  /** The reduction's claim is the combination's value at the last challenges. */
  ghost predicate HonestClaim(ts: Tables, q: Reduced, r: seq<Fe>)
    requires Fitting(ts, q, |r|)
  {
    q.claim == Dot(q.coeffs, Values(ts, q.labels, r[|r| - q.vars..]))
  }

  lemma {:induction false} InnerScaled(coeffs: seq<Fe>, labels: seq<Label>, g: Fe, v: Label -> Fe, w: seq<Fe>, lag: Fe)
    requires |coeffs| == |labels| == |w| && forall j :: 0 <= j < |w| ==> v(labels[j]) == Mul(lag, w[j])
    ensures InnerSum(coeffs, labels, g, v) == Mul(Mul(g, Dot(coeffs, w)), lag)
  {
    if coeffs == [] {
      MulZero(g);
      MulZero(lag);
    } else {
      InnerScaled(coeffs[1..], labels[1..], g, v, w[1..], lag);
      InnerStep(coeffs[0], g, lag, w[0], Dot(coeffs[1..], w[1..]));
    }
  }

  lemma InnerPadded(ts: Tables, q: Reduced, g: Fe, r: seq<Fe>, v: Label -> Fe)
    requires Fitting(ts, q, |r|) && HonestClaim(ts, q, r) && forall l :: v(l) == PaddedValue(ts, r, l)
    ensures InnerSum(q.coeffs, q.labels, g, v) == Mul(Mul(g, q.claim), Lagrange(r[..|r| - q.vars]))
  {
    var lag, pt := Lagrange(r[..|r| - q.vars]), r[|r| - q.vars..];
    var w := Values(ts, q.labels, pt);
    forall j | 0 <= j < |w|
      ensures v(q.labels[j]) == Mul(lag, w[j])
    {
      ZeroPadValue(ts.table(q.labels[j]), |r| - q.vars, r);
    }
    InnerScaled(q.coeffs, q.labels, g, v, w, lag);
  }

  lemma InnerStep(c: Fe, g: Fe, lag: Fe, x: Fe, rest: Fe)
    ensures Add(Mul(Mul(c, g), Mul(lag, x)), Mul(Mul(g, rest), lag)) == Mul(Mul(g, Add(Mul(c, x), rest)), lag)
  {
    MulAdd(g, Mul(c, x), rest);
    MulComm(Mul(g, Add(Mul(c, x), rest)), lag);
    MulAdd(lag, Mul(g, Mul(c, x)), Mul(g, rest));
    MulComm(lag, Mul(g, rest));
    FourFactors(c, g, lag, x);
  }

  lemma FourFactors(c: Fe, g: Fe, lag: Fe, x: Fe)
    ensures Mul(Mul(c, g), Mul(lag, x)) == Mul(lag, Mul(g, Mul(c, x)))
  {
    MulComm(lag, x);
    MulAssoc(Mul(c, g), x, lag);
    MulComm(Mul(Mul(c, g), x), lag);
    MulComm(c, g);
    MulAssoc(g, c, x);
  }

  function JointSum(rs: seq<Reduced>, powers: seq<Fe>, r: seq<Fe>): Fe
    requires |rs| <= |powers| && forall i :: 0 <= i < |rs| ==> rs[i].vars <= |r|
  {
    if rs == [] then Zero
    else Add(Mul(Mul(powers[0], rs[0].claim), Lagrange(r[..|r| - rs[0].vars])), JointSum(rs[1..], powers[1..], r))
  }

  method LagrangeEval(r: seq<Fe>) returns (p: Fe)
    ensures p == Lagrange(r)
  {
    p := One;
    var i := |r|;
    while i > 0
      invariant 0 <= i <= |r| && p == Lagrange(r[i..])
    {
      i := i - 1;
      assert r[i..][1..] == r[i + 1..];
      p := Mul(Sub(One, r[i]), p);
    }
    assert r[0..] == r;
  }

  method JointClaim(rs: seq<Reduced>, powers: seq<Fe>, r: seq<Fe>) returns (claim: Fe)
    requires |rs| <= |powers| && forall i :: 0 <= i < |rs| ==> rs[i].vars <= |r|
    ensures claim == JointSum(rs, powers, r)
  {
    claim := Zero;
    var i := |rs|;
    while i > 0
      invariant 0 <= i <= |rs| && claim == JointSum(rs[i..], powers[i..], r)
    {
      i := i - 1;
      assert rs[i..][1..] == rs[i + 1..] && powers[i..][1..] == powers[i + 1..];
      var lagrange := LagrangeEval(r[..|r| - rs[i].vars]);
      claim := Add(Mul(Mul(powers[i], rs[i].claim), lagrange), claim);
    }
    assert rs[0..] == rs && powers[0..] == powers;
  }

  lemma {:induction false} FlatIsJoint(ts: Tables, rs: seq<Reduced>, powers: seq<Fe>, r: seq<Fe>, v: Label -> Fe)
    requires AllFitting(ts, rs, |r|) && |rs| <= |powers| && forall i :: 0 <= i < |rs| ==> HonestClaim(ts, rs[i], r)
    requires forall l :: v(l) == PaddedValue(ts, r, l)
    ensures FlatSum(rs, powers, v) == JointSum(rs, powers, r)
  {
    if rs != [] {
      FlatIsJoint(ts, rs[1..], powers[1..], r, v);
      InnerPadded(ts, rs[0], powers[0], r, v);
    }
  }

  /**
    The joint claim is the value at the challenges of the merged combination, with
    every polynomial zero-padded in its leading variables.
   */
  lemma JointClaimMeans(ts: Tables, rs: seq<Reduced>, powers: seq<Fe>, r: seq<Fe>, m: seq<Entry>)
    requires AllFitting(ts, rs, |r|) && |rs| <= |powers| && forall i :: 0 <= i < |rs| ==> HonestClaim(ts, rs[i], r)
    requires WellFormed(rs) && Merged(rs, powers, m)
    ensures JointSum(rs, powers, r) == Apply(m, l => PaddedValue(ts, r, l))
  {
    FlatIsJoint(ts, rs, powers, r, l => PaddedValue(ts, r, l));
  }

  // -------------------------------------------------------------------------
  // As polynomials in gamma
  // -------------------------------------------------------------------------

  /** One reduction's combination under a linear functional, unweighted. */
  function Combination(coeffs: seq<Fe>, labels: seq<Label>, v: Label -> Fe): Fe
    requires |coeffs| == |labels|
  {
    if coeffs == [] then Zero else Add(Mul(coeffs[0], v(labels[0])), Combination(coeffs[1..], labels[1..], v))
  }

  ghost function Combinations(rs: seq<Reduced>, v: Label -> Fe): (w: Poly)
    requires WellFormed(rs)
    ensures |w| == |rs|
  {
    seq<Fe>(|rs|, i requires 0 <= i < |rs| => Combination(rs[i].coeffs, rs[i].labels, v))
  }

  function PaddedClaims(rs: seq<Reduced>, r: seq<Fe>): (w: Poly)
    requires forall i :: 0 <= i < |rs| ==> rs[i].vars <= |r|
    ensures |w| == |rs|
  {
    seq<Fe>(|rs|, i requires 0 <= i < |rs| => Mul(rs[i].claim, Lagrange(r[..|r| - rs[i].vars])))
  }

  lemma {:induction false} InnerFactor(coeffs: seq<Fe>, labels: seq<Label>, g: Fe, v: Label -> Fe)
    requires |coeffs| == |labels|
    ensures InnerSum(coeffs, labels, g, v) == Mul(g, Combination(coeffs, labels, v))
  {
    if coeffs == [] {
      MulZero(g);
    } else {
      InnerFactor(coeffs[1..], labels[1..], g, v);
      MulComm(coeffs[0], g);
      MulAssoc(g, coeffs[0], v(labels[0]));
      MulAdd(g, Mul(coeffs[0], v(labels[0])), Combination(coeffs[1..], labels[1..], v));
    }
  }

  lemma HornerStep(p: Fe, s: Fe, gamma: Fe, rest: Fe)
    ensures Add(Mul(p, s), Mul(Mul(p, gamma), rest)) == Mul(p, Add(s, Mul(gamma, rest)))
  {
    MulAssoc(p, gamma, rest);
    MulAdd(p, s, Mul(gamma, rest));
  }

  lemma GeometricTail(powers: seq<Fe>, gamma: Fe)
    requires powers != [] && Geometric(powers, gamma)
    ensures Geometric(powers[1..], gamma) && (|powers| > 1 ==> powers[1..][0] == Mul(powers[0], gamma))
  {
  }

  /** The weighted double sum is the value at `gamma` of the polynomial of the single combinations. */
  lemma {:induction false} FlatIsEval(rs: seq<Reduced>, powers: seq<Fe>, gamma: Fe, v: Label -> Fe)
    requires WellFormed(rs) && |rs| <= |powers| && powers != [] && Geometric(powers, gamma)
    ensures FlatSum(rs, powers, v) == Mul(powers[0], Eval(Combinations(rs, v), gamma))
    decreases |rs|
  {
    if rs == [] {
      MulZero(powers[0]);
    } else {
      var w := Combinations(rs, v);
      InnerFactor(rs[0].coeffs, rs[0].labels, powers[0], v);
      assert w[1..] == Combinations(rs[1..], v);
      HornerStep(powers[0], w[0], gamma, Eval(w[1..], gamma));
      if |rs| > 1 {
        GeometricTail(powers, gamma);
        FlatIsEval(rs[1..], powers[1..], gamma, v);
      } else {
        MulZero(Mul(powers[0], gamma));
      }
    }
  }

  lemma {:induction false} JointIsEval(rs: seq<Reduced>, powers: seq<Fe>, gamma: Fe, r: seq<Fe>)
    requires |rs| <= |powers| && powers != [] && Geometric(powers, gamma)
    requires forall i :: 0 <= i < |rs| ==> rs[i].vars <= |r|
    ensures JointSum(rs, powers, r) == Mul(powers[0], Eval(PaddedClaims(rs, r), gamma))
    decreases |rs|
  {
    if rs == [] {
      MulZero(powers[0]);
    } else {
      var w := PaddedClaims(rs, r);
      MulAssoc(powers[0], rs[0].claim, Lagrange(r[..|r| - rs[0].vars]));
      assert w[1..] == PaddedClaims(rs[1..], r);
      HornerStep(powers[0], w[0], gamma, Eval(w[1..], gamma));
      if |rs| > 1 {
        GeometricTail(powers, gamma);
        JointIsEval(rs[1..], powers[1..], gamma, r);
      } else {
        MulZero(Mul(powers[0], gamma));
      }
    }
  }

  /** What the merged map means: under every linear functional, the combinations weighted by the powers of `gamma`. */
  ghost predicate Batches(rs: seq<Reduced>, gamma: Fe, m: seq<Entry>)
    requires WellFormed(rs)
  {
    forall v: Label -> Fe :: Apply(m, v) == Eval(Combinations(rs, v), gamma)
  }

  /**
    The batched opening: powers of the challenge, the merged combination and the
    joint claim.  Both are polynomials in the challenge, with one coefficient for
    each reduction; for honest claims the joint claim is the value of the merged,
    zero-padded combination at the sumcheck's challenges.
   */
  method BatchOpening(rs: seq<Reduced>, gamma: Fe, r: seq<Fe>) returns (m: seq<Entry>, claim: Fe)
    requires WellFormed(rs) && forall i :: 0 <= i < |rs| ==> rs[i].vars <= |r|
    ensures Ordered(m) && Batches(rs, gamma, m) && claim == Eval(PaddedClaims(rs, r), gamma)
    ensures forall ts: Tables | AllFitting(ts, rs, |r|) && forall i :: 0 <= i < |rs| ==> HonestClaim(ts, rs[i], r) ::
      claim == Apply(m, l => PaddedValue(ts, r, l))
  {
    var powers := GammaPowers(gamma, |rs|);
    m := Merge(rs, powers);
    claim := JointClaim(rs, powers, r);
    JointIsEval(rs, powers, gamma, r);
    MulUnit(Eval(PaddedClaims(rs, r), gamma));
    forall v: Label -> Fe
      ensures Apply(m, v) == Eval(Combinations(rs, v), gamma)
    {
      FlatIsEval(rs, powers, gamma, v);
      MulUnit(Eval(Combinations(rs, v), gamma));
    }
    forall ts: Tables | AllFitting(ts, rs, |r|) && forall i :: 0 <= i < |rs| ==> HonestClaim(ts, rs[i], r)
      ensures claim == Apply(m, l => PaddedValue(ts, r, l))
    {
      JointClaimMeans(ts, rs, powers, r, m);
    }
  }
}
