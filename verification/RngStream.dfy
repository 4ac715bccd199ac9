/**
  Seekable random streams.

  A seed expands to an endless byte stream; the expansion itself (ChaCha) is a
  parameter.  The generator is positioned in four-byte words.
 */
module RngStream {
  import opened Arith
  import opened Bytes

  const SEED_SIZE := 32

  type Seed = s: seq<byte> | |s| == SEED_SIZE witness seq(32, i => 0)

  /** Byte `i` of the stream of a seed. */
  type Keystream = (Seed, nat) -> byte

  /** Seed and word position of a generator, as `snapshot` returns them. */
  datatype Snap = Snap(seed: Seed, pos: nat)

  /** `len` bytes of the stream that a snapshot starts, from byte `start` on. */
  function Stream(ks: Keystream, s: Snap, start: nat, len: nat): (bs: seq<byte>)
    ensures |bs| == len
  {
    seq<byte>(len, i requires 0 <= i < len => ks(s.seed, 4 * s.pos + start + i))
  }

  /** A slice of a slice of a stream is a slice of the stream. */
  lemma StreamSlice(ks: Keystream, s: Snap, start: nat, len: nat, off: nat, n: nat)
    requires off + n <= len
    ensures Stream(ks, s, start, len)[off..off + n] == Stream(ks, s, start + off, n)
  {
  }

  /** The top bit of word `i` of a snapshotted stream. */
  predicate WordSign(ks: Keystream, s: Snap, i: nat) {
    128 <= ks(s.seed, 4 * (s.pos + i) + 3)
  }

  /** The sign of a little-endian word read as a signed number. */
  lemma WordSignIs(ks: Keystream, s: Snap, i: nat)
    ensures WordSign(ks, s, i) <==> 0x8000_0000 <= FromLe(Stream(ks, s, 4 * i, 4))
  {
    var w := Stream(ks, s, 4 * i, 4);
    var high := w[1..][1..][1..];
    assert high == [w[3]] && high[1..] == [];
    var c: int, d: int := w[2], w[3];
    assert FromLe(high) == d && FromLe(w[1..][1..]) == c + 256 * d;
  }

  class Rng {
    const ks: Keystream
    const seed: Seed
    var wordPos: nat

    constructor FromSeed(ks: Keystream, seed: Seed)
      ensures this.ks == ks && this.seed == seed && wordPos == 0
    {
      this.ks := ks;
      this.seed := seed;
      wordPos := 0;
    }

    method SetWordPos(pos: nat)
      modifies this
      ensures wordPos == pos
    {
      wordPos := pos;
    }

    /** Fills a buffer; a partly used word is not reused by the next call. */
    method FillBytes(n: nat) returns (bs: seq<byte>)
      modifies this
      ensures bs == Stream(ks, Snap(seed, old(wordPos)), 0, n)
      ensures wordPos == old(wordPos) + CeilDiv(n, 4)
    {
      bs := Stream(ks, Snap(seed, wordPos), 0, n);
      wordPos := wordPos + CeilDiv(n, 4);
    }

    /** A random bit is the sign of the next word. */
    method NextBool() returns (b: bool)
      modifies this
      ensures b == WordSign(ks, Snap(seed, old(wordPos)), 0) && wordPos == old(wordPos) + 1
    {
      b := WordSign(ks, Snap(seed, wordPos), 0);
      wordPos := wordPos + 1;
    }
  }

  /**
    Regenerates `needed` bytes from byte `byteOffset` of a snapshotted stream.
    The generator can only be positioned on a word, so up to three bytes are
    generated and dropped; the result is the exact slice for every offset.
   */
  method SeekAndGenerate(ks: Keystream, snap: Snap, byteOffset: nat, needed: nat) returns (buf: seq<byte>)
    ensures buf == Stream(ks, snap, byteOffset, needed)
  {
    var wordOffset := byteOffset / 4;
    var skip := byteOffset % 4;
    var rng := new Rng.FromSeed(ks, snap.seed);
    rng.SetWordPos(snap.pos + wordOffset);
    buf := rng.FillBytes(needed + skip);
    if skip > 0 {
      buf := buf[skip..];
    }
  }
}
