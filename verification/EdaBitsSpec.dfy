/**
  The eager meaning of edaBits: what item `i` is, as a function of the pairwise
  random streams alone.  Everything lazy, cached, streamed or stored is proved
  to agree with these definitions.
 */
module EdaBitsSpec {
  import opened Arith
  import opened Bytes
  import opened Field
  import opened RngStream

  datatype PartyId = ID0 | ID1 | ID2

  /** Ring width in bits, ring element size in bytes, field element size in bytes. */
  datatype Layout = Layout(k: nat, tBytes: nat, fb: nat) {
    /** A field element is parsed from sixteen bytes, so it must occupy at least those. */
    predicate Valid() {
      0 < k && 0 < tBytes && 16 <= fb
    }

    /** Bytes per item in the stream of P0 and P1: one ring element, then `k` field elements. */
    function Stride(): nat {
      tBytes + k * fb
    }
  }

  /** `(hi << 64) | lo` of two little-endian words, reduced into the field. */
  function FieldOf(bytes: seq<byte>): Fe
    requires |bytes| == 16
  {
    Red(FromLe(bytes[8..]) * 0x1_0000_0000_0000_0000 + FromLe(bytes[..8]))
  }

  function ParseField(bytes: seq<byte>, start: nat): Fe
    requires start + 16 <= |bytes|
  {
    FieldOf(bytes[start..start + 16])
  }

  /** The ring element of item `i`: known to P0 alone, who shares one stream with each other party. */
  function GammaOf(ks: Keystream, l: Layout, s01: Snap, s20: Snap, i: nat): nat {
    Xor(FromLe(Stream(ks, s01, i * l.Stride(), l.tBytes)), FromLe(Stream(ks, s20, i * l.tBytes, l.tBytes)))
  }

  /** The first additive share of bit `j` of item `i`, from the stream of P0 and P1. */
  function Alpha1(ks: Keystream, l: Layout, s01: Snap, i: nat, j: nat): Fe {
    FieldOf(Stream(ks, s01, i * l.Stride() + l.tBytes + j * l.fb, 16))
  }

  function BitAsField(g: nat, j: nat): Fe {
    Red(Bit(g, j))
  }

  /** The second additive share: what P0 sends to P2. */
  function Alpha2(ks: Keystream, l: Layout, s01: Snap, s20: Snap, i: nat, j: nat): Fe {
    Sub(BitAsField(GammaOf(ks, l, s01, s20, i), j), Alpha1(ks, l, s01, i, j))
  }

  /** The `k` shares of one item. */
  function Alpha1Row(ks: Keystream, l: Layout, s01: Snap, i: nat): (row: seq<Fe>)
    ensures |row| == l.k
  {
    seq<Fe>(l.k, j requires 0 <= j < l.k => Alpha1(ks, l, s01, i, j))
  }

  function Alpha2Row(ks: Keystream, l: Layout, s01: Snap, s20: Snap, i: nat): (row: seq<Fe>)
    ensures |row| == l.k
  {
    seq<Fe>(l.k, j requires 0 <= j < l.k => Alpha2(ks, l, s01, s20, i, j))
  }

  /** The defining correlation: the two shares add up to the bit that P0 knows. */
  lemma SharesAddUp(ks: Keystream, l: Layout, s01: Snap, s20: Snap, i: nat, j: nat)
    ensures Add(Alpha1(ks, l, s01, i, j), Alpha2(ks, l, s01, s20, i, j))
         == BitAsField(GammaOf(ks, l, s01, s20, i), j)
  {
    AddSub(Alpha1(ks, l, s01, i, j), BitAsField(GammaOf(ks, l, s01, s20, i), j));
  }

  /** Opening the bits of one item. */
  function Opened(row: seq<Fe>, row': seq<Fe>): (bits: seq<Fe>)
    requires |row| == |row'|
    ensures |bits| == |row| && forall j :: 0 <= j < |row| ==> bits[j] == Add(row[j], row'[j])
  {
    seq<Fe>(|row|, j requires 0 <= j < |row| => Add(row[j], row'[j]))
  }

  /** Every opened bit is zero or one, and together they spell the number. */
  ghost predicate Spells(bits: seq<Fe>, v: nat) {
    AreBits(bits) && FromBits(bits) == v
  }

  /** The two rows of shares spell the ring element that P0 knows, as far as `k` bits go. */
  lemma SharesSpell(ks: Keystream, l: Layout, s01: Snap, s20: Snap, i: nat)
    ensures Spells(Opened(Alpha1Row(ks, l, s01, i), Alpha2Row(ks, l, s01, s20, i)),
                   GammaOf(ks, l, s01, s20, i) % Pow2(l.k))
  {
    var gamma := GammaOf(ks, l, s01, s20, i);
    var bits := Opened(Alpha1Row(ks, l, s01, i), Alpha2Row(ks, l, s01, s20, i));
    forall j | 0 <= j < l.k
      ensures bits[j] == Bit(gamma, j)
    {
      SharesAddUp(ks, l, s01, s20, i, j);
    }
    assert bits == BitsOf(gamma, l.k);
    BitsSpell(gamma, l.k);
  }

  /** A ring element of whole bytes has no more bits than are shared. */
  lemma GammaFits(ks: Keystream, l: Layout, s01: Snap, s20: Snap, i: nat)
    requires l.k == 8 * l.tBytes
    ensures GammaOf(ks, l, s01, s20, i) < Pow2(l.k)
  {
    MulMono(0, i, l.Stride());
    MulMono(0, i, l.tBytes);
    var a, b := Stream(ks, s01, i * l.Stride(), l.tBytes), Stream(ks, s20, i * l.tBytes, l.tBytes);
    LeFits(a);
    LeFits(b);
    Pow256Is(l.tBytes);
    XorFits(FromLe(a), FromLe(b), l.k);
  }

  /** Bit by bit, the ring element is the sum modulo two of what the two streams say. */
  lemma GammaIsXor(ks: Keystream, l: Layout, s01: Snap, s20: Snap, i: nat, j: nat)
    ensures 0 <= i * l.Stride() && 0 <= i * l.tBytes
    ensures Bit(GammaOf(ks, l, s01, s20, i), j)
         == (Bit(FromLe(Stream(ks, s01, i * l.Stride(), l.tBytes)), j)
             + Bit(FromLe(Stream(ks, s20, i * l.tBytes, l.tBytes)), j)) % 2
  {
    MulMono(0, i, l.Stride());
    MulMono(0, i, l.tBytes);
    XorBits(FromLe(Stream(ks, s01, i * l.Stride(), l.tBytes)), FromLe(Stream(ks, s20, i * l.tBytes, l.tBytes)), j);
  }

  /** Parsing reads sixteen bytes as one little-endian number. */
  lemma FieldOfIs(bytes: seq<byte>)
    requires |bytes| == 16
    ensures FieldOf(bytes) == Red(FromLe(bytes))
  {
    LeJoin(bytes[..8], bytes[8..]);
    assert bytes[..8] + bytes[8..] == bytes;
    Pow256Eight();
    Commute(Pow256(8), FromLe(bytes[8..]));
  }

  lemma Pow256Eight()
    ensures Pow256(8) == 0x1_0000_0000_0000_0000
  {
    assert Pow256(2) == 0x1_0000 && Pow256(4) == 0x1_0000_0000 && Pow256(6) == 0x1_0000_0000_0000;
  }

  // -------------------------------------------------------------------------
  // The streams read from the front
  // -------------------------------------------------------------------------

  /** Field elements read one after the other, each from its own `fb` bytes. */
  function Fields(ks: Keystream, s: Snap, at: nat, fb: nat, n: nat): (r: seq<Fe>)
    ensures |r| == n
    decreases n
  {
    if n == 0 then [] else [FieldOf(Stream(ks, s, at, 16))] + Fields(ks, s, at + fb, fb, n - 1)
  }

  /** Where item `i` starts when every item is read completely before the next. */
  function ItemStart(l: Layout, i: nat): nat {
    if i == 0 then 0 else ItemStart(l, i - 1) + l.tBytes + l.k * l.fb
  }

  lemma {:induction false} ItemStartIs(l: Layout, i: nat)
    ensures ItemStart(l, i) == i * l.Stride()
  {
    if i > 0 {
      ItemStartIs(l, i - 1);
      Distribute(i - 1, 1, l.Stride());
    }
  }

  lemma {:induction false} FieldAt(ks: Keystream, s: Snap, at: nat, fb: nat, n: nat, j: nat)
    requires j < n
    ensures 0 <= j * fb && Fields(ks, s, at, fb, n)[j] == FieldOf(Stream(ks, s, at + j * fb, 16))
    decreases n
  {
    MulMono(0, j, fb);
    if j > 0 {
      FieldAt(ks, s, at + fb, fb, n - 1, j - 1);
      Distribute(j - 1, 1, fb);
    }
  }

  /** The first shares of an item are the field elements that follow its ring element in the stream. */
  lemma RowIsRead(ks: Keystream, l: Layout, s01: Snap, i: nat)
    ensures Alpha1Row(ks, l, s01, i) == Fields(ks, s01, ItemStart(l, i) + l.tBytes, l.fb, l.k)
  {
    ItemStartIs(l, i);
    forall j | 0 <= j < l.k
      ensures Alpha1Row(ks, l, s01, i)[j] == Fields(ks, s01, ItemStart(l, i) + l.tBytes, l.fb, l.k)[j]
    {
      FieldAt(ks, s01, ItemStart(l, i) + l.tBytes, l.fb, l.k, j);
    }
  }

  // -------------------------------------------------------------------------
  // Offsets inside a regenerated buffer
  // -------------------------------------------------------------------------

  /** Part of row `i` of a buffer of `n` rows regenerated from row `c`: the same part of row `c + i` of the stream. */
  lemma StreamRow(ks: Keystream, s: Snap, stride: nat, c: nat, n: nat, i: nat, off: nat, len: nat)
    requires i < n && off + len <= stride
    ensures 0 <= i * stride && i * stride + off + len <= n * stride
    ensures 0 <= c * stride && 0 <= (c + i) * stride
    ensures Stream(ks, s, c * stride, n * stride)[i * stride + off..i * stride + off + len]
         == Stream(ks, s, (c + i) * stride + off, len)
  {
    RowFits(i, n, stride);
    MulMono(0, c, stride);
    MulMono(0, c + i, stride);
    Distribute(c, i, stride);
    StreamSlice(ks, s, c * stride, n * stride, i * stride + off, len);
  }

  /** Bit `j` of row `i` of a buffer regenerated from item `c` belongs to item `c + i`. */
  lemma AlphaInRow(ks: Keystream, l: Layout, s: Snap, c: nat, n: nat, i: nat, j: nat)
    requires l.Valid() && i < n && j < l.k
    ensures 0 <= i * l.Stride() && 0 <= j * l.fb && 0 <= c * l.Stride()
    ensures i * l.Stride() + l.tBytes + j * l.fb + 16 <= n * l.Stride()
    ensures ParseField(Stream(ks, s, c * l.Stride(), n * l.Stride()), i * l.Stride() + l.tBytes + j * l.fb)
         == Alpha1(ks, l, s, c + i, j)
  {
    RowFits(j, l.k, l.fb);
    StreamRow(ks, s, l.Stride(), c, n, i, l.tBytes + j * l.fb, 16);
  }
}
