/**
  Batches of edaBits and their regeneration from seeds.

  The shares of a batch are kept as one row of `k` field elements per item; the
  flat vector `alphas_flat[i * k + j]` is their concatenation (module `FlatRows`).
 */
module EdaBits {
  import opened Arith
  import opened Bytes
  import opened Field
  import opened RngStream
  import opened EdaBitsSpec

  type Row = seq<Fe>

  datatype Batch = Batch(gammas: seq<nat>, rows: seq<Row>)

  /**
    What one party can hand out: its identity, and the row and the ring element
    of every item.  `Faithful` ties the latter to the streams.
   */
  datatype Source = Source(ks: Keystream, layout: Layout, party: PartyId, s1: Snap, s2: Snap,
                           rowAt: nat -> Row, gammaAt: nat -> nat) {

    /** The stream shared by P0 and P1: P0 shares its first with the next party, P1 its second with the previous. */
    function Interleaved(): Snap {
      if party == ID0 then s1 else s2
    }

    ghost predicate Faithful() {
      && layout.Valid()
      && (party != ID2 ==>
            forall i: nat {:trigger Alpha1Row(ks, layout, Interleaved(), i)} ::
              rowAt(i) == Alpha1Row(ks, layout, Interleaved(), i))
      && (party == ID0 ==>
            forall i: nat {:trigger GammaOf(ks, layout, s1, s2, i)} :: gammaAt(i) == GammaOf(ks, layout, s1, s2, i))
      && (party != ID0 ==> forall i: nat :: gammaAt(i) == 0)
    }

    function EagerGammas(start: nat, n: nat): (gs: seq<nat>)
      ensures |gs| == n && forall i :: 0 <= i < n ==> gs[i] == gammaAt(start + i)
    {
      seq<nat>(n, i requires 0 <= i < n => gammaAt(start + i))
    }

    function EagerRows(start: nat, n: nat): (rs: seq<Row>)
      ensures |rs| == n && forall i :: 0 <= i < n ==> rs[i] == rowAt(start + i)
    {
      seq(n, i requires 0 <= i < n => rowAt(start + i))
    }

    /** Items `start .. start + n`, straight from the definition. */
    function Eager(start: nat, n: nat): Batch {
      Batch(EagerGammas(start, n), EagerRows(start, n))
    }
  }

  /** The source of a party with these snapshots; P2's rows are those P0 sent. */
  function SourceOf(ks: Keystream, l: Layout, party: PartyId, s1: Snap, s2: Snap, sent: nat -> Row): (src: Source)
    requires l.Valid()
    ensures src.Faithful() && src.party == party && src.layout == l
    ensures party == ID2 ==> src.rowAt == sent
  {
    match party
    case ID0 => Source(ks, l, party, s1, s2, i => Alpha1Row(ks, l, s1, i), i => GammaOf(ks, l, s1, s2, i))
    case ID1 => Source(ks, l, party, s1, s2, i => Alpha1Row(ks, l, s2, i), i => 0)
    case ID2 => Source(ks, l, party, s1, s2, sent, i => 0)
  }

  function Append(a: Batch, b: Batch): Batch {
    Batch(a.gammas + b.gammas, a.rows + b.rows)
  }

  /** Consecutive batches join to one. */
  lemma EagerJoin(src: Source, start: nat, a: nat, b: nat)
    ensures Append(src.Eager(start, a), src.Eager(start + a, b)) == src.Eager(start, a + b)
  {
    assert src.EagerGammas(start, a) + src.EagerGammas(start + a, b) == src.EagerGammas(start, a + b);
    assert src.EagerRows(start, a) + src.EagerRows(start + a, b) == src.EagerRows(start, a + b);
  }

  // -------------------------------------------------------------------------
  // Regeneration
  // -------------------------------------------------------------------------

  /** One ring element of P0: row `i` of each of its two regenerated buffers. */
  method XorRow(
      ks: Keystream, l: Layout, s01: Snap, s20: Snap, c: nat, n: nat, buf01: seq<byte>, buf20: seq<byte>, i: nat)
    returns (g: nat)
    requires l.Valid() && i < n
    requires buf01 == Stream(ks, s01, c * l.Stride(), n * l.Stride())
    requires buf20 == Stream(ks, s20, c * l.tBytes, n * l.tBytes)
    ensures g == GammaOf(ks, l, s01, s20, c + i)
  {
    MulMono(0, l.k, l.fb);
    StreamRow(ks, s01, l.Stride(), c, n, i, 0, l.tBytes);
    StreamRow(ks, s20, l.tBytes, c, n, i, 0, l.tBytes);
    var off1, off2 := i * l.Stride(), i * l.tBytes;
    g := Xor(FromLe(buf01[off1..off1 + l.tBytes]), FromLe(buf20[off2..off2 + l.tBytes]));
  }

  /** One field element: bit `j` of row `i` of a regenerated buffer. */
  method ParseShare(ks: Keystream, l: Layout, s: Snap, c: nat, n: nat, buf: seq<byte>, i: nat, j: nat) returns (f: Fe)
    requires l.Valid() && i < n && j < l.k
    requires buf == Stream(ks, s, c * l.Stride(), n * l.Stride())
    ensures f == Alpha1(ks, l, s, c + i, j)
  {
    AlphaInRow(ks, l, s, c, n, i, j);
    f := ParseField(buf, i * l.Stride() + l.tBytes + j * l.fb);
  }

  /** The field elements of one item. */
  method ParseRow(ks: Keystream, l: Layout, s: Snap, c: nat, n: nat, buf: seq<byte>, i: nat) returns (row: Row)
    requires l.Valid() && i < n
    requires buf == Stream(ks, s, c * l.Stride(), n * l.Stride())
    ensures row == Alpha1Row(ks, l, s, c + i)
  {
    row := [];
    for j := 0 to l.k
      invariant row == Alpha1Row(ks, l, s, c + i)[..j]
    {
      var f := ParseShare(ks, l, s, c, n, buf, i, j);
      row := row + [f];
    }
  }

  /** Regenerates items `c .. c + n` by seeking in the streams. */
  method Regenerate(src: Source, c: nat, n: nat) returns (b: Batch)
    requires src.Faithful() && src.party != ID2
    ensures b == src.Eager(c, n)
  {
    var l := src.layout;
    MulMono(0, c, l.Stride());
    MulMono(0, n, l.Stride());
    var interleaved := SeekAndGenerate(src.ks, src.Interleaved(), c * l.Stride(), n * l.Stride());
    var gs: seq<nat> := [];
    if src.party == ID0 {
      MulMono(0, c, l.tBytes);
      MulMono(0, n, l.tBytes);
      var g2 := SeekAndGenerate(src.ks, src.s2, c * l.tBytes, n * l.tBytes);
      for i := 0 to n
        invariant gs == src.EagerGammas(c, n)[..i]
      {
        var g := XorRow(src.ks, l, src.s1, src.s2, c, n, interleaved, g2, i);
        gs := gs + [g];
      }
    } else {
      gs := seq(n, _ => 0);
    }
    var rs: seq<Row> := [];
    for i := 0 to n
      invariant rs == src.EagerRows(c, n)[..i]
    {
      var row := ParseRow(src.ks, l, src.Interleaved(), c, n, interleaved, i);
      rs := rs + [row];
    }
    b := Batch(gs, rs);
  }

  // -------------------------------------------------------------------------
  // What P0 sends to P2
  // -------------------------------------------------------------------------

  /** The second shares of one item, from its regenerated rows. */
  method Alpha2OfRow(
      ks: Keystream, l: Layout, s01: Snap, s20: Snap, c: nat, n: nat, buf01: seq<byte>, buf20: seq<byte>, i: nat)
    returns (row: Row)
    requires l.Valid() && i < n
    requires buf01 == Stream(ks, s01, c * l.Stride(), n * l.Stride())
    requires buf20 == Stream(ks, s20, c * l.tBytes, n * l.tBytes)
    ensures row == Alpha2Row(ks, l, s01, s20, c + i)
  {
    var gamma := XorRow(ks, l, s01, s20, c, n, buf01, buf20, i);
    row := [];
    for j := 0 to l.k
      invariant row == Alpha2Row(ks, l, s01, s20, c + i)[..j]
    {
      var alpha1 := ParseShare(ks, l, s01, c, n, buf01, i, j);
      row := row + [Sub(BitAsField(gamma, j), alpha1)];
    }
  }

  /** The second shares of items `c .. c + n`, for any slice of the stream: P0's contribution to one message. */
  method Alpha2Chunk(ks: Keystream, l: Layout, s01: Snap, s20: Snap, c: nat, n: nat) returns (rows: seq<Row>)
    requires l.Valid()
    ensures |rows| == n && forall i :: 0 <= i < n ==> rows[i] == Alpha2Row(ks, l, s01, s20, c + i)
    ensures forall i :: 0 <= i < n ==>
      && |rows[i]| == l.k
      && Spells(Opened(Alpha1Row(ks, l, s01, c + i), rows[i]), GammaOf(ks, l, s01, s20, c + i) % Pow2(l.k))
  {
    MulMono(0, c, l.Stride());
    MulMono(0, n, l.Stride());
    MulMono(0, c, l.tBytes);
    MulMono(0, n, l.tBytes);
    var buf01 := SeekAndGenerate(ks, s01, c * l.Stride(), n * l.Stride());
    var buf20 := SeekAndGenerate(ks, s20, c * l.tBytes, n * l.tBytes);
    rows := [];
    for i := 0 to n
      invariant |rows| == i && forall x :: 0 <= x < i ==> rows[x] == Alpha2Row(ks, l, s01, s20, c + x)
    {
      var row := Alpha2OfRow(ks, l, s01, s20, c, n, buf01, buf20, i);
      rows := rows + [row];
    }
    forall i | 0 <= i < n
      ensures |rows[i]| == l.k
      ensures Spells(Opened(Alpha1Row(ks, l, s01, c + i), rows[i]), GammaOf(ks, l, s01, s20, c + i) % Pow2(l.k))
    {
      SharesSpell(ks, l, s01, s20, c + i);
    }
  }
}
