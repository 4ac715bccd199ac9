/**
  Tables of equally long rows stored as one flat sequence: `k` field elements
  per item, or the bytes of every element of a file.  Each flat-offset operation
  is the same operation on rows.
 */
module FlatRows {
  import opened Arith

  ghost predicate Uniform<T>(rows: seq<seq<T>>, k: nat) {
    forall i :: 0 <= i < |rows| ==> |rows[i]| == k
  }

  function Flatten<T>(rows: seq<seq<T>>): seq<T> {
    if rows == [] then [] else rows[0] + Flatten(rows[1..])
  }

  /** Overwrites part of a sequence. */
  function Patch<T>(s: seq<T>, start: nat, data: seq<T>): seq<T>
    requires start + |data| <= |s|
  {
    s[..start] + data + s[start + |data|..]
  }

  lemma {:induction false} FlattenLength<T>(rows: seq<seq<T>>, k: nat)
    requires Uniform(rows, k)
    ensures |Flatten(rows)| == |rows| * k
  {
    if rows != [] {
      FlattenLength(rows[1..], k);
      Distribute(|rows| - 1, 1, k);
    }
  }

  lemma {:induction false} FlattenAppend<T>(a: seq<seq<T>>, b: seq<seq<T>>)
    ensures Flatten(a + b) == Flatten(a) + Flatten(b)
  {
    if a == [] {
      assert a + b == b;
    } else {
      FlattenAppend(a[1..], b);
      assert (a + b)[1..] == a[1..] + b;
      assert (a + b)[0] == a[0];
    }
  }

  /** Cutting at a row boundary. */
  lemma FlattenSplit<T>(rows: seq<seq<T>>, k: nat, a: nat)
    requires Uniform(rows, k) && a <= |rows|
    ensures 0 <= a * k <= |Flatten(rows)|
    ensures Flatten(rows)[..a * k] == Flatten(rows[..a])
    ensures Flatten(rows)[a * k..] == Flatten(rows[a..])
  {
    assert rows == rows[..a] + rows[a..];
    FlattenAppend(rows[..a], rows[a..]);
    FlattenLength(rows[..a], k);
  }

  /** Reading rows `a .. b` at element offsets `a * k .. b * k`. */
  lemma FlattenRead<T>(rows: seq<seq<T>>, k: nat, a: nat, b: nat)
    requires Uniform(rows, k) && a <= b <= |rows|
    ensures 0 <= a * k <= b * k <= |Flatten(rows)|
    ensures Flatten(rows)[a * k..b * k] == Flatten(rows[a..b])
  {
    FlattenSplit(rows, k, b);
    FlattenSplit(rows[..b], k, a);
    assert rows[..b][a..] == rows[a..b];
    MulMono(a, b, k);
  }

  lemma FlattenThree<T>(a: seq<seq<T>>, b: seq<seq<T>>, c: seq<seq<T>>)
    ensures Flatten(a + b + c) == Flatten(a) + Flatten(b) + Flatten(c)
  {
    FlattenAppend(a, b);
    FlattenAppend(a + b, c);
  }

  /** Writing rows over rows of the same total length, at the offset where they start. */
  lemma FlattenPatch<T>(rows: seq<seq<T>>, a: nat, data: seq<seq<T>>)
    requires a + |data| <= |rows|
    requires |Flatten(data)| == |Flatten(rows[a..a + |data|])|
    ensures |Flatten(rows[..a])| + |Flatten(data)| <= |Flatten(rows)|
    ensures Patch(Flatten(rows), |Flatten(rows[..a])|, Flatten(data)) == Flatten(Patch(rows, a, data))
  {
    assert rows == rows[..a] + rows[a..a + |data|] + rows[a + |data|..];
    FlattenThree(rows[..a], rows[a..a + |data|], rows[a + |data|..]);
    FlattenThree(rows[..a], data, rows[a + |data|..]);
  }

  /** Writing whole rows at an element offset. */
  lemma FlattenWrite<T>(rows: seq<seq<T>>, k: nat, a: nat, data: seq<seq<T>>)
    requires Uniform(rows, k) && Uniform(data, k) && a + |data| <= |rows|
    ensures 0 <= a * k && a * k + |Flatten(data)| <= |Flatten(rows)|
    ensures Patch(Flatten(rows), a * k, Flatten(data)) == Flatten(Patch(rows, a, data))
  {
    FlattenLength(rows[..a], k);
    FlattenLength(data, k);
    FlattenLength(rows[a..a + |data|], k);
    FlattenPatch(rows, a, data);
  }

  lemma PatchUniform<T>(rows: seq<seq<T>>, k: nat, a: nat, data: seq<seq<T>>)
    requires Uniform(rows, k) && Uniform(data, k) && a + |data| <= |rows|
    ensures Uniform(Patch(rows, a, data), k)
  {
  }

  function Repeat<T>(x: T, n: nat): (s: seq<T>)
    ensures |s| == n && forall i :: 0 <= i < n ==> s[i] == x
  {
    seq(n, _ => x)
  }

  /** A stretch of zero rows is a stretch of zeros. */
  lemma {:induction false} FlattenRepeat<T>(x: T, k: nat, n: nat)
    ensures 0 <= n * k && Flatten(Repeat(Repeat(x, k), n)) == Repeat(x, n * k)
  {
    if n > 0 {
      FlattenRepeat(x, k, n - 1);
      Distribute(n - 1, 1, k);
      assert Repeat(Repeat(x, k), n)[1..] == Repeat(Repeat(x, k), n - 1);
    }
  }
}
