/**
  The meta file of a pool: a fixed binary header whose cursor is updated in
  place.
 */
module MetaFile {
  import opened Arith
  import opened Wrappers
  import opened Bytes
  import opened RngStream
  import opened BackingStore

  /** `usize` and `u128` values are bounded by their widths. */
  datatype MetaData = MetaData(seed1: Seed, pos1: nat, seed2: Seed, pos2: nat, total: nat, party: byte, cursor: nat,
                               fieldBytes: nat) {
    predicate Fits() {
      pos1 < Pow256(16) && pos2 < Pow256(16) && total < Pow256(8) && cursor < Pow256(8) && fieldBytes < Pow256(8)
    }
  }

  /** seed1 (32), pos1 (16), seed2 (32), pos2 (16), total (8), party (1); then cursor (8) and fieldBytes (4). */
  const CURSOR_OFFSET := SEED_SIZE + 16 + SEED_SIZE + 16 + 8 + 1

  const META_SIZE := CURSOR_OFFSET + 8 + 4

  /** The file starts with the header; the size of a field element is cut to 32 bits. */
  ghost predicate Holds(file: seq<byte>, m: MetaData) {
    && META_SIZE <= |file|
    && file[0..32] == m.seed1 && file[32..48] == ToLe(m.pos1, 16)
    && file[48..80] == m.seed2 && file[80..96] == ToLe(m.pos2, 16)
    && file[96..104] == ToLe(m.total, 8) && file[104] == m.party
    && file[105..113] == ToLe(m.cursor, 8) && file[113..117] == ToLe(m.fieldBytes, 4)
  }

  lemma SlicesOf(a: seq<byte>, b: seq<byte>, from: nat, to: nat)
    requires from <= to
    ensures to <= |a| ==> (a + b)[from..to] == a[from..to]
    ensures to <= |b| ==> (a + b)[|a| + from..|a| + to] == b[from..to]
  {
  }

  method WriteMeta(m: MetaData) returns (file: seq<byte>)
    ensures |file| == META_SIZE && Holds(file, m)
  {
    var ids := WriteSeeds(m);
    var counts := WriteCounts(m);
    file := ids + counts;
    SlicesOf(ids, counts, 0, 32);
    SlicesOf(ids, counts, 32, 48);
    SlicesOf(ids, counts, 48, 80);
    SlicesOf(ids, counts, 80, 96);
    SlicesOf(ids, counts, 0, 8);
    SlicesOf(ids, counts, 9, 17);
    SlicesOf(ids, counts, 17, 21);
  }

  method WriteSeeds(m: MetaData) returns (file: seq<byte>)
    ensures |file| == 96 && file[0..32] == m.seed1 && file[32..48] == ToLe(m.pos1, 16)
    ensures file[48..80] == m.seed2 && file[80..96] == ToLe(m.pos2, 16)
  {
    file := m.seed1;
    file := file + ToLe(m.pos1, 16);
    file := file + m.seed2;
    file := file + ToLe(m.pos2, 16);
  }

  method WriteCounts(m: MetaData) returns (file: seq<byte>)
    ensures |file| == 21 && file[0..8] == ToLe(m.total, 8) && file[8] == m.party
    ensures file[9..17] == ToLe(m.cursor, 8) && file[17..21] == ToLe(m.fieldBytes, 4)
  {
    file := ToLe(m.total, 8);
    file := file + [m.party];
    file := file + ToLe(m.cursor, 8);
    file := file + ToLe(m.fieldBytes, 4);
  }

  /** What a readable file says. */
  function MetaOf(file: seq<byte>): MetaData
    requires META_SIZE <= |file|
  {
    MetaData(file[0..32], FromLe(file[32..48]), file[48..80], FromLe(file[80..96]), FromLe(file[96..104]),
             file[104], FromLe(file[105..113]), FromLe(file[113..117]))
  }

  /** `read_exact`: the next `n` bytes, or an error if the file ends before. */
  method ReadExact(file: seq<byte>, pos: nat, n: nat) returns (r: Result<seq<byte>>, next: nat)
    requires pos <= |file|
    ensures r.Ok? <==> pos + n <= |file|
    ensures r.Ok? ==> r.value == file[pos..pos + n] && next == pos + n
  {
    next := pos + n;
    if next > |file| {
      return Err, next;
    }
    r := Ok(file[pos..next]);
  }

  /** Reading fails exactly on files too short to hold a header. */
  method ReadMeta(file: seq<byte>) returns (r: Result<MetaData>)
    ensures r.Ok? <==> META_SIZE <= |file|
    ensures r.Ok? ==> r.value == MetaOf(file)
  {
    var pos: nat := 0;
    var seed1, pos1, seed2, pos2, total, party, cursor, fb;
    seed1, pos := ReadExact(file, pos, SEED_SIZE);
    if seed1.Err? { return Err; }
    pos1, pos := ReadExact(file, pos, 16);
    if pos1.Err? { return Err; }
    seed2, pos := ReadExact(file, pos, SEED_SIZE);
    if seed2.Err? { return Err; }
    pos2, pos := ReadExact(file, pos, 16);
    if pos2.Err? { return Err; }
    total, pos := ReadExact(file, pos, 8);
    if total.Err? { return Err; }
    party, pos := ReadExact(file, pos, 1);
    if party.Err? { return Err; }
    cursor, pos := ReadExact(file, pos, 8);
    if cursor.Err? { return Err; }
    fb, pos := ReadExact(file, pos, 4);
    if fb.Err? { return Err; }
    r := Ok(MetaData(seed1.value, FromLe(pos1.value), seed2.value, FromLe(pos2.value), FromLe(total.value),
                     party.value[0], FromLe(cursor.value), FromLe(fb.value)));
  }

  /** Little-endian words keep the value modulo their width. */
  lemma {:induction false} LeTruncates(v: nat, n: nat)
    ensures FromLe(ToLe(v, n)) == v % Pow256(n)
  {
    if n > 0 {
      LeTruncates(v / 256, n - 1);
      assert ToLe(v, n)[1..] == ToLe(v / 256, n - 1);
      LowestDigit(v, 256, Pow256(n - 1));
    }
  }

  /** What is read back is what was written, up to the width of the last field. */
  lemma ReadsBack(file: seq<byte>, m: MetaData)
    requires m.Fits() && Holds(file, m)
    ensures MetaOf(file) == m.(fieldBytes := m.fieldBytes % 0x1_0000_0000)
  {
    LeRoundTrip(m.pos1, 16);
    LeRoundTrip(m.pos2, 16);
    LeRoundTrip(m.total, 8);
    LeRoundTrip(m.cursor, 8);
    LeTruncates(m.fieldBytes, 4);
    Pow256Four();
  }

  lemma Pow256Four()
    ensures Pow256(4) == 0x1_0000_0000
  {
    assert Pow256(1) == 256 && Pow256(2) == 0x1_0000 && Pow256(3) == 0x100_0000;
  }

  /** The round trip is exact if and only if the size of a field element fits 32 bits. */
  lemma RoundTripIff(file: seq<byte>, m: MetaData)
    requires m.Fits() && Holds(file, m)
    ensures MetaOf(file) == m <==> m.fieldBytes < 0x1_0000_0000
  {
    ReadsBack(file, m);
  }

  /** Overwrites the cursor and nothing else. */
  method UpdateCursor(file: seq<byte>, cursor: nat) returns (file': seq<byte>)
    requires cursor < Pow256(8)
    ensures file' == FileWrite(file, CURSOR_OFFSET, ToLe(cursor, 8))
    ensures META_SIZE <= |file| ==> |file'| == |file| && MetaOf(file') == MetaOf(file).(cursor := cursor)
  {
    file' := FileWrite(file, CURSOR_OFFSET, ToLe(cursor, 8));
    if META_SIZE <= |file| {
      CursorOnly(file, cursor);
    }
  }

  lemma CursorOnly(file: seq<byte>, cursor: nat)
    requires META_SIZE <= |file| && cursor < Pow256(8)
    ensures var file' := FileWrite(file, CURSOR_OFFSET, ToLe(cursor, 8));
            |file'| == |file| && MetaOf(file') == MetaOf(file).(cursor := cursor)
  {
    var file' := FileWrite(file, CURSOR_OFFSET, ToLe(cursor, 8));
    assert file'[0..32] == file[0..32] && file'[32..48] == file[32..48];
    assert file'[48..80] == file[48..80] && file'[80..96] == file[80..96];
    assert file'[96..104] == file[96..104] && file'[104] == file[104];
    assert file'[105..113] == ToLe(cursor, 8) && file'[113..117] == file[113..117];
    LeRoundTrip(cursor, 8);
  }
}
