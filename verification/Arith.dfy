/** Integer facts shared by the offset computations of every component. */
module Arith {

  function Min(a: int, b: int): int {
    if a < b then a else b
  }

  function Max(a: int, b: int): int {
    if a < b then b else a
  }

  /** Rust's `div_ceil`. */
  function CeilDiv(a: nat, b: nat): nat
    requires 0 < b
  {
    (a + b - 1) / b
  }

  function Pow2(n: nat): nat
    ensures 0 < Pow2(n)
  {
    if n == 0 then 1 else 2 * Pow2(n - 1)
  }

  lemma MulGrows(m: int, d: int)
    requires 0 < m && 1 <= d
    ensures m <= m * d
  {
  }

  lemma Distribute(a: int, b: int, m: int)
    ensures (a + b) * m == a * m + b * m
  {
  }

  lemma Associate(a: int, b: int, c: int)
    ensures (a * b) * c == a * (b * c)
  {
  }

  lemma Commute(a: int, b: int)
    ensures a * b == b * a
  {
  }

  lemma {:induction false} PowAdd(a: nat, b: nat)
    ensures Pow2(a) * Pow2(b) == Pow2(a + b)
  {
    if a > 0 {
      PowAdd(a - 1, b);
      Associate(2, Pow2(a - 1), Pow2(b));
    }
  }

  lemma MulMono(a: int, b: int, k: int)
    requires 0 <= k && a <= b
    ensures a * k <= b * k
  {
    Distribute(a, b - a, k);
  }

  /** Row `i` of `n` rows ends inside them. */
  lemma RowFits(i: nat, n: nat, k: nat)
    requires i < n
    ensures 0 <= i * k && i * k + k <= n * k
  {
    MulMono(i + 1, n, k);
    Distribute(i, 1, k);
  }

  /** The Euclidean quotient and remainder are unique. */
  lemma DivModUnique(m: int, a: int, r: int, b: int, s: int)
    requires 0 <= r < m && 0 <= s < m
    requires m * a + r == m * b + s
    ensures a == b && r == s
  {
    assert m * (a - b) == s - r;
    if a > b {
      MulGrows(m, a - b);
    } else if a < b {
      MulGrows(m, b - a);
    }
  }

  /** Position `j` of row `i` of a table with rows of length `k`. */
  lemma RowOf(i: nat, j: nat, k: nat)
    requires j < k
    ensures 0 <= i * k + j && (i * k + j) / k == i && (i * k + j) % k == j
  {
    MulMono(0, i, k);
    var x := i * k + j;
    assert x == k * (x / k) + x % k;
    Commute(i, k);
    DivModUnique(k, x / k, x % k, i, j);
  }

  lemma DivParts(x: nat, d: nat)
    requires 0 < d
    ensures x == (x / d) * d + x % d
  {
  }

  lemma Expand(b: nat, p: nat, q: nat, r: nat)
    ensures b * (p * q + r) == (b * p) * q + b * r
  {
    Associate(b, p, q);
  }

  /** A number given by its lowest digit and the two parts of the rest. */
  lemma DigitsUnique(v: nat, b: nat, p: nat, q: nat, r: nat, low: nat)
    requires low < b && r < p && v == b * (p * q + r) + low
    ensures 0 < b * p && v / (b * p) == q && v % (b * p) == b * r + low
  {
    DigitsFit(b, p, r, low);
    Expand(b, p, q, r);
    var m := b * p;
    DivParts(v, m);
    Commute(v / m, m);
    DivModUnique(m, v / m, v % m, q, b * r + low);
  }

  /** Splitting off the lowest digit in base `b`. */
  lemma LowestDigit(v: nat, b: nat, p: nat)
    requires 0 < b && 0 < p
    ensures 0 < b * p && v / (b * p) == (v / b) / p && v % (b * p) == v % b + b * ((v / b) % p)
  {
    var w := v / b;
    DivParts(v, b);
    DivParts(w, p);
    Commute(w, b);
    Commute(w / p, p);
    DigitsUnique(v, b, p, w / p, w % p, v % b);
  }

  lemma DigitsFit(b: nat, p: nat, r: nat, low: nat)
    requires low < b && r < p
    ensures 0 < b * p && 0 <= b * r + low < b * p
  {
    Commute(b, p);
    Commute(b, r);
    RowFits(r, p, b);
  }
}
