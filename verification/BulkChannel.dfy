/** The bulk byte channel: messages behind a five-byte big-endian length. */
module BulkChannel {
  import opened Arith
  import opened Wrappers
  import opened Bytes

  const LEN_BYTES := 5

  const LENGTH_LIMIT := 0x100_0000_0000

  /** Big-endian digits, most significant first. */
  function ToBe(v: nat, n: nat): (bs: seq<byte>)
    ensures |bs| == n
  {
    if n == 0 then [] else ToBe(v / 256, n - 1) + [v % 256]
  }

  function FromBe(bs: seq<byte>): nat {
    if bs == [] then 0 else FromBe(bs[..|bs| - 1]) * 256 + bs[|bs| - 1]
  }

  lemma {:induction false} BeRoundTrip(v: nat, n: nat)
    requires v < Pow256(n)
    ensures FromBe(ToBe(v, n)) == v
  {
    if n > 0 {
      BeRoundTrip(v / 256, n - 1);
      assert ToBe(v, n)[..n - 1] == ToBe(v / 256, n - 1);
    }
  }

  /** Byte `i` of the digits is the one of weight `n - 1 - i`. */
  lemma {:induction false} BeByte(v: nat, n: nat, i: nat)
    requires i < n
    ensures ToBe(v, n)[i] == (v / Pow256(n - 1 - i)) % 256
  {
    if i < n - 1 {
      BeByte(v / 256, n - 1, i);
      LowestDigit(v, 256, Pow256(n - 2 - i));
    }
  }

  lemma {:induction false} FromBeBound(bs: seq<byte>)
    ensures FromBe(bs) < Pow256(|bs|)
  {
    if bs != [] {
      FromBeBound(bs[..|bs| - 1]);
    }
  }

  lemma FiveBytes()
    ensures Pow256(LEN_BYTES) == LENGTH_LIMIT
  {
    assert Pow256(1) == 256 && Pow256(2) == 0x1_0000 && Pow256(3) == 0x100_0000 && Pow256(4) == 0x1_0000_0000;
  }

  /** Fills the prefix from its last byte to its first, shifting the length right. */
  method LengthPrefix(len: nat) returns (buf: seq<byte>)
    ensures buf == ToBe(len, LEN_BYTES)
    ensures forall i: nat :: i < LEN_BYTES ==> buf[i] == (len / Pow256(LEN_BYTES - 1 - i)) % 256
  {
    forall i: nat | i < LEN_BYTES
      ensures ToBe(len, LEN_BYTES)[i] == (len / Pow256(LEN_BYTES - 1 - i)) % 256
    {
      BeByte(len, LEN_BYTES, i);
    }
    buf := [];
    var v := len;
    for i := 0 to LEN_BYTES
      invariant |buf| == i && ToBe(len, LEN_BYTES) == ToBe(v, LEN_BYTES - i) + buf
    {
      assert ToBe(v, LEN_BYTES - i) + buf == ToBe(v / 256, LEN_BYTES - i - 1) + ([v % 256] + buf);
      buf := [v % 256] + buf;
      v := v / 256;
    }
  }

  method ReadLength(buf: seq<byte>) returns (v: nat)
    ensures v == FromBe(buf)
  {
    v := 0;
    for i := 0 to |buf|
      invariant v == FromBe(buf[..i])
    {
      assert buf[..i + 1][..i] == buf[..i];
      v := v * 256 + buf[i];
    }
    assert buf[..|buf|] == buf;
  }

  /** What a message looks like on the stream. */
  function Frame(data: seq<byte>): seq<byte> {
    ToBe(|data|, LEN_BYTES) + data
  }

  /** Writes a message in chunks, yielding now and then; the stream receives exactly its frame. */
  method Send(stream: seq<byte>, data: seq<byte>, chunk: nat) returns (stream': seq<byte>)
    ensures stream' == stream + Frame(data)
  {
    var prefix := LengthPrefix(|data|);
    stream' := stream + prefix;
    var writeChunk := Max(chunk, 1);
    var off, lastYield := 0, 0;
    var yieldEvery := Max(4 * writeChunk, writeChunk);
    while off < |data|
      invariant 0 <= lastYield <= off <= |data|
      invariant stream' == stream + prefix + data[..off]
    {
      var end := Min(off + writeChunk, |data|);
      assert data[..off] + data[off..end] == data[..end];
      stream' := stream' + data[off..end];
      off := end;
      if off - lastYield >= yieldEvery && off < |data| {
        lastYield := off;
      }
    }
    assert stream + prefix + data == stream + Frame(data);
    assert data[..|data|] == data;
  }

  /** What a receiver takes off a stream: the announced number of bytes, if they are there. */
  function Taken(stream: seq<byte>): Option<seq<byte>> {
    if |stream| < LEN_BYTES || |stream| < LEN_BYTES + FromBe(stream[..LEN_BYTES]) then None
    else Some(stream[LEN_BYTES..LEN_BYTES + FromBe(stream[..LEN_BYTES])])
  }

  method RecvBytes(stream: seq<byte>) returns (r: Option<seq<byte>>, rest: seq<byte>)
    ensures r == Taken(stream)
    ensures r.Some? ==> rest == stream[LEN_BYTES + |r.value|..]
  {
    rest := stream;
    if |stream| < LEN_BYTES {
      return None, rest;
    }
    var len := ReadLength(stream[..LEN_BYTES]);
    if |stream| < LEN_BYTES + len {
      return None, rest;
    }
    r, rest := Some(stream[LEN_BYTES..LEN_BYTES + len]), stream[LEN_BYTES + len..];
  }

  /** Receiving into a buffer succeeds exactly on a frame of its size. */
  method RecvInto(stream: seq<byte>, size: nat) returns (r: Option<seq<byte>>)
    ensures r.Some? <==> Taken(stream).Some? && |Taken(stream).value| == size
    ensures r.Some? ==> r == Taken(stream)
  {
    if |stream| < LEN_BYTES {
      return None;
    }
    var len := ReadLength(stream[..LEN_BYTES]);
    if len != size || |stream| < LEN_BYTES + size {
      return None;
    }
    r := Some(stream[LEN_BYTES..LEN_BYTES + size]);
  }

  /** A frame is read back, whatever follows it, if and only if the message is shorter than `2^40` bytes. */
  lemma FrameReadBackIff(data: seq<byte>, rest: seq<byte>)
    ensures Taken(Frame(data) + rest) == Some(data) <==> |data| < LENGTH_LIMIT
    ensures |data| < LENGTH_LIMIT ==> (Frame(data) + rest)[LEN_BYTES + |data|..] == rest
  {
    var s := Frame(data) + rest;
    assert s[..LEN_BYTES] == ToBe(|data|, LEN_BYTES);
    FiveBytes();
    if |data| < LENGTH_LIMIT {
      BeRoundTrip(|data|, LEN_BYTES);
      assert s[LEN_BYTES..LEN_BYTES + |data|] == data;
    } else {
      FromBeBound(ToBe(|data|, LEN_BYTES));
    }
  }

  function Frames(msgs: seq<seq<byte>>): seq<byte> {
    if msgs == [] then [] else Frame(msgs[0]) + Frames(msgs[1..])
  }

  lemma {:induction false} FramesSnoc(msgs: seq<seq<byte>>, m: seq<byte>)
    ensures Frames(msgs + [m]) == Frames(msgs) + Frame(m)
  {
    if msgs == [] {
      assert msgs + [m] == [m] && [m][1..] == [];
    } else {
      FramesSnoc(msgs[1..], m);
      assert (msgs + [m])[1..] == msgs[1..] + [m];
    }
  }

  /** Any sequence of messages, each sent with its own chunk size. */
  method SendAll(msgs: seq<seq<byte>>, chunks: seq<nat>) returns (stream: seq<byte>)
    requires |chunks| == |msgs|
    ensures stream == Frames(msgs)
  {
    stream := [];
    for i := 0 to |msgs|
      invariant stream == Frames(msgs[..i])
    {
      FramesSnoc(msgs[..i], msgs[i]);
      assert msgs[..i + 1] == msgs[..i] + [msgs[i]];
      stream := Send(stream, msgs[i], chunks[i]);
    }
    assert msgs[..|msgs|] == msgs;
  }

  /** Messages shorter than `2^40` bytes arrive as they were sent, in order, with nothing left over. */
  method RecvAll(stream: seq<byte>, ghost msgs: seq<seq<byte>>, n: nat) returns (got: seq<seq<byte>>, rest: seq<byte>)
    requires stream == Frames(msgs) && n == |msgs| && forall i :: 0 <= i < |msgs| ==> |msgs[i]| < LENGTH_LIMIT
    ensures got == msgs && rest == []
  {
    got, rest := [], stream;
    for i := 0 to n
      invariant got == msgs[..i] && rest == Frames(msgs[i..])
    {
      FrameReadBackIff(msgs[i], Frames(msgs[i + 1..]));
      assert msgs[i..][1..] == msgs[i + 1..];
      var r;
      r, rest := RecvBytes(rest);
      got := got + [r.value];
    }
  }
}
