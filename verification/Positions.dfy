/**
  Places in a store.  Rows are appended to a store's end and read by position, so
  a row can end up in a place that belongs to another item.
 */
module Positions {

  /** The item in position `i` of a store that holds these items; without a store every item is in its place. */
  function ItemAt(held: seq<nat>, i: nat): nat {
    if i < |held| then held[i] else i
  }

  /** The items `start .. start + n`. */
  function Range(start: nat, n: nat): (r: seq<nat>)
    ensures |r| == n && forall i :: 0 <= i < n ==> r[i] == start + i
  {
    seq(n, i requires 0 <= i < n => start + i)
  }

  /** The items of a store that an extension by `b` found `a` rows too long. */
  function Shifted(total: nat, a: nat, b: nat): (held: seq<nat>)
    requires a < b
    ensures |held| == total + a + b
    ensures forall i :: 0 <= i < total + b ==> ItemAt(held, i) == if i < total + a then i else i - a
  {
    Range(0, total) + Range(total, a) + Range(total, b)
  }

  /** Positions `start .. start + n` hold their own items. */
  predicate InPlace(held: seq<nat>, start: nat, n: nat) {
    forall i :: start <= i < start + n ==> ItemAt(held, i) == i
  }

  /** Every item is in its place. */
  predicate Straight(held: seq<nat>) {
    forall i :: 0 <= i < |held| ==> held[i] == i
  }

  /** Items behind the end of a store are in their places exactly if the store ends where they start. */
  lemma AppendedInPlace(held: seq<nat>, total: nat, n: nat)
    requires 0 < n
    ensures InPlace(held + Range(total, n), |held|, n) <==> |held| == total
  {
    assert ItemAt(held + Range(total, n), |held|) == total;
  }
}
