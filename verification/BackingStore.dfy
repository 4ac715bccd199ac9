/**
  The byte-level store behind the pools: in memory, or a file with positioned
  reads and writes.  An element is a fixed number of raw bytes.  `elems` is the
  sequence the store stands for; every operation is specified on it.
 */
module BackingStore {
  import opened Arith
  import opened Wrappers
  import opened Bytes
  import opened FlatRows

  type Elem = seq<byte>

  datatype Kind = InMemory | FileBacked | Empty

  // -------------------------------------------------------------------------
  // Files
  // -------------------------------------------------------------------------

  /** `write_all_at`: a write past the end grows the file, a gap reads as zeros. */
  function FileWrite(file: seq<byte>, off: nat, bytes: seq<byte>): (r: seq<byte>)
    ensures |r| == if bytes == [] then |file| else Max(|file|, off + |bytes|)
  {
    if bytes == [] then file
    else if off + |bytes| <= |file| then Patch(file, off, bytes)
    else if off <= |file| then file[..off] + bytes
    else file + Repeat<byte>(0, off - |file|) + bytes
  }

  /** Reinterprets raw bytes as elements. */
  function Split(bytes: seq<byte>, es: nat): (r: seq<Elem>)
    requires 0 < es
    decreases |bytes|
  {
    if |bytes| < es then [] else [bytes[..es]] + Split(bytes[es..], es)
  }

  lemma {:induction false} SplitFlatten(elems: seq<Elem>, es: nat)
    requires 0 < es && Uniform(elems, es)
    ensures Split(Flatten(elems), es) == elems
  {
    if elems != [] {
      var bytes := Flatten(elems);
      assert bytes[..es] == elems[0] && bytes[es..] == Flatten(elems[1..]);
      SplitFlatten(elems[1..], es);
    }
  }

  /** Whole elements survive the reinterpretation. */
  lemma {:induction false} FlattenSplitBytes(bytes: seq<byte>, es: nat)
    requires 0 < es && |bytes| % es == 0
    ensures Flatten(Split(bytes, es)) == bytes && Uniform(Split(bytes, es), es)
    decreases |bytes|
  {
    if bytes != [] {
      if |bytes| < es {
        RowOf(0, |bytes|, es);
        assert false;
      }
      ModStep(|bytes|, es);
      FlattenSplitBytes(bytes[es..], es);
      assert Split(bytes, es)[1..] == Split(bytes[es..], es);
    }
  }

  lemma ModStep(n: nat, es: nat)
    requires 0 < es <= n
    ensures (n - es) % es == n % es
  {
    var q, r := n / es, n % es;
    assert n == es * q + r;
    Distribute(q - 1, 1, es);
    Commute(q - 1, es);
    Commute(q, es);
    if q == 0 {
      assert false;
    }
    RowOf(q - 1, r, es);
  }

  // -------------------------------------------------------------------------
  // What the operations mean on elements
  // -------------------------------------------------------------------------

  /** An in-memory write past the end first pads with the first written element. */
  function Grown(elems: seq<Elem>, n: nat, pad: Elem): seq<Elem> {
    if n <= |elems| then elems else elems + Repeat(pad, n - |elems|)
  }

  function ZeroElem(es: nat): Elem {
    Repeat<byte>(0, es)
  }

  /** The elements of a consumed range are zeroed. */
  function Consumed(elems: seq<Elem>, zero: Elem, start: nat, end: nat): seq<Elem>
    requires start <= end <= |elems|
  {
    Patch(elems, start, Repeat(zero, end - start))
  }

  /** `[left[i], right[i]]` pairs. */
  function Interleave(left: seq<Elem>, right: seq<Elem>): seq<Elem>
    requires |left| == |right|
  {
    if left == [] then [] else [left[0], right[0]] + Interleave(left[1..], right[1..])
  }

  lemma {:induction false} InterleaveAt(left: seq<Elem>, right: seq<Elem>, i: nat)
    requires |left| == |right| && i < |left|
    ensures |Interleave(left, right)| == 2 * |left|
    ensures Interleave(left, right)[2 * i] == left[i] && Interleave(left, right)[2 * i + 1] == right[i]
    decreases |left|
  {
    if |left| == 1 {
      assert left[1..] == [];
    } else {
      InterleaveAt(left[1..], right[1..], if i == 0 then 0 else i - 1);
    }
  }

  /** The pairs stand alternately, from the given pair position on. */
  ghost predicate Alternate(elems: seq<Elem>, startPair: nat, left: seq<Elem>, right: seq<Elem>) {
    && |left| == |right| && 2 * (startPair + |left|) <= |elems|
    && forall i: nat :: i < |left| ==>
         elems[2 * (startPair + i)] == left[i] && elems[2 * (startPair + i) + 1] == right[i]
  }

  lemma PatchedAlternate(elems: seq<Elem>, startPair: nat, left: seq<Elem>, right: seq<Elem>)
    requires |left| == |right| && 2 * (startPair + |left|) <= |elems| && |Interleave(left, right)| == 2 * |left|
    ensures Alternate(Patch(elems, 2 * startPair, Interleave(left, right)), startPair, left, right)
  {
    forall i: nat | i < |left|
      ensures Patch(elems, 2 * startPair, Interleave(left, right))[2 * (startPair + i)] == left[i]
      ensures Patch(elems, 2 * startPair, Interleave(left, right))[2 * (startPair + i) + 1] == right[i]
    {
      InterleaveAt(left, right, i);
    }
  }

  lemma InterleaveStep(left: seq<Elem>, right: seq<Elem>, i: nat)
    requires |left| == |right| && i < |left|
    ensures Interleave(left[i..], right[i..]) == [left[i], right[i]] + Interleave(left[i + 1..], right[i + 1..])
  {
    assert left[i..][1..] == left[i + 1..] && right[i..][1..] == right[i + 1..];
  }

  /** The pairs, collected one after the other. */
  method InterleaveLoop(left: seq<Elem>, right: seq<Elem>, es: nat) returns (interleaved: seq<Elem>)
    requires |left| == |right| && Uniform(left, es) && Uniform(right, es)
    ensures interleaved == Interleave(left, right) && |interleaved| == 2 * |left| && Uniform(interleaved, es)
  {
    interleaved := [];
    assert left[0..] == left && right[0..] == right;
    for i := 0 to |left|
      invariant Uniform(interleaved, es) && |interleaved| == 2 * i
      invariant interleaved + Interleave(left[i..], right[i..]) == Interleave(left, right)
    {
      InterleaveStep(left, right, i);
      Regroup(interleaved, [left[i], right[i]], Interleave(left[i + 1..], right[i + 1..]));
      interleaved := interleaved + [left[i], right[i]];
    }
    assert Interleave(left[|left|..], right[|left|..]) == [];
  }

  lemma Regroup(a: seq<Elem>, b: seq<Elem>, c: seq<Elem>)
    ensures a + (b + c) == (a + b) + c
  {
  }

  /** A positioned write of whole elements, inside the file. */
  lemma WriteRefines(elems: seq<Elem>, es: nat, start: nat, data: seq<Elem>)
    requires Uniform(elems, es) && Uniform(data, es) && start + |data| <= |elems|
    ensures 0 <= start * es && start * es + |Flatten(data)| <= |Flatten(elems)|
    ensures FileWrite(Flatten(elems), start * es, Flatten(data)) == Flatten(Patch(elems, start, data))
    ensures Uniform(Patch(elems, start, data), es)
  {
    FlattenWrite(elems, es, start, data);
    PatchUniform(elems, es, start, data);
    WriteInside(Flatten(elems), start * es, Flatten(data));
  }

  lemma GrownFits(elems: seq<Elem>, n: nat, x: Elem)
    requires n <= |elems|
    ensures Grown(elems, n, x) == elems
  {
  }

  lemma GrownFromNothing(data: seq<Elem>)
    requires data != []
    ensures Patch(Grown([], |data|, data[0]), 0, data) == data
  {
  }

  lemma WriteInside(file: seq<byte>, off: nat, bytes: seq<byte>)
    requires off + |bytes| <= |file|
    ensures FileWrite(file, off, bytes) == Patch(file, off, bytes)
  {
    if bytes == [] {
      assert Patch(file, off, []) == file;
    }
  }

  function Cleared(file: seq<byte>, offset: nat, n: nat): seq<byte>
    requires offset + n <= |file|
  {
    Patch(file, offset, Repeat<byte>(0, n))
  }

  lemma ZeroStep(file: seq<byte>, offset: nat, done: nat, chunk: nat)
    requires offset + done + chunk <= |file|
    ensures FileWrite(Cleared(file, offset, done), offset + done, Repeat<byte>(0, chunk))
         == Cleared(file, offset, done + chunk)
  {
    assert Repeat<byte>(0, done + chunk) == Repeat<byte>(0, done) + Repeat<byte>(0, chunk);
    WriteInside(Cleared(file, offset, done), offset + done, Repeat<byte>(0, chunk));
  }

  class BackingStore {
    const es: nat
    var kind: Kind
    var mem: seq<Elem>
    var file: seq<byte>
    var len: nat
    var appendOffset: nat
    ghost var elems: seq<Elem>

    ghost predicate Valid()
      reads this
    {
      && 0 < es && Uniform(elems, es)
      && match kind
         case InMemory => elems == mem
         case FileBacked => |elems| == len && file == Flatten(elems) && appendOffset <= |file|
         case Empty => elems == []
    }

    /** The append position is at the end of the data. */
    ghost predicate AppendsAtEnd()
      reads this
    {
      kind.FileBacked? ==> appendOffset == |file|
    }

    constructor FromVec(es: nat, v: seq<Elem>)
      requires 0 < es && Uniform(v, es)
      ensures Valid() && this.es == es && elems == v && kind == if v == [] then Empty else InMemory
    {
      this.es := es;
      kind := if v == [] then Empty else InMemory;
      mem, elems := v, v;
      file, len, appendOffset := [], 0, 0;
    }

    /** A sized file reads as zeros, and its append position is still 0. */
    constructor CreateFileBackedSized(es: nat, capacity: nat)
      requires 0 < es
      ensures Valid() && this.es == es && kind == FileBacked && elems == Repeat(ZeroElem(es), capacity)
      ensures AppendsAtEnd() <==> capacity == 0
    {
      FlattenRepeat<byte>(0, es, capacity);
      FlattenLength(Repeat(ZeroElem(es), capacity), es);
      if capacity > 0 {
        RowFits(0, capacity, es);
      }
      this.es := es;
      kind := FileBacked;
      mem, elems := [], Repeat(ZeroElem(es), capacity);
      file := Repeat<byte>(0, capacity * es);
      len, appendOffset := capacity, 0;
    }

    /** Reads a range; only an empty store does not look at it. */
    method ReadConsume(start: nat, end: nat) returns (r: Result<seq<Elem>>)
      requires Valid()
      ensures r == if kind.Empty? then Ok([]) else if start <= end <= |elems| then Ok(elems[start..end]) else Err
    {
      match kind {
        case InMemory =>
          if start > end || end > |mem| {
            return Err;
          }
          r := Ok(mem[start..end]);
        case FileBacked =>
          if start > end || end > len {
            return Err;
          }
          FlattenRead(elems, es, start, end);
          SplitFlatten(elems[start..end], es);
          Distribute(start, end - start, es);
          var offset, count := start * es, (end - start) * es;
          r := Ok(Split(file[offset..offset + count], es));
        case Empty =>
          r := Ok([]);
      }
    }

    /**
      Appends.  On a file this is an append exactly when the append position is
      at the end of the data; otherwise the bytes land on stored elements and
      the file falls short of its own length.
     */
    method Extend(additional: seq<Elem>)
      requires Valid() && Uniform(additional, es)
      modifies this
      ensures additional == [] ==> unchanged(this)
      ensures additional != [] ==> (Valid() && elems == old(elems) + additional <==> old(AppendsAtEnd()))
      ensures old(AppendsAtEnd()) ==> AppendsAtEnd()
    {
      if additional == [] {
        return;
      }
      FlattenAppend(elems, additional);
      FlattenLength(additional, es);
      RowFits(0, |additional|, es);
      match kind {
        case InMemory =>
          mem := mem + additional;
        case FileBacked =>
          var bytes := Flatten(additional);
          file := FileWrite(file, appendOffset, bytes);
          appendOffset := appendOffset + |bytes|;
          len := len + |additional|;
        case Empty =>
          kind, mem := InMemory, additional;
      }
      elems := elems + additional;
    }

    /** Writes elements at a position. */
    method WriteAt(start: nat, data: seq<Elem>) returns (ok: bool)
      requires Valid() && Uniform(data, es)
      modifies this
      ensures Valid()
      ensures ok <==> data == [] || old(kind).InMemory? || (old(kind).FileBacked? && start + |data| <= |old(elems)|)
                      || (old(kind).Empty? && start == 0)
      ensures !ok || data == [] ==> unchanged(this)
      ensures ok && data != [] ==> elems == Patch(Grown(old(elems), start + |data|, data[0]), start, data)
      ensures ok && data != [] && kind.FileBacked? ==>
        && appendOffset == Max(old(appendOffset), start * es + |data| * es)
        && (start + |data| == |elems| ==> AppendsAtEnd())
    {
      if data == [] {
        return true;
      }
      match kind {
        case InMemory =>
          mem := Patch(Grown(mem, start + |data|, data[0]), start, data);
          elems := mem;
          ok := true;
        case FileBacked =>
          if start + |data| > len {
            return false;
          }
          WriteRefines(elems, es, start, data);
          GrownFits(elems, start + |data|, data[0]);
          FlattenLength(data, es);
          FlattenLength(elems, es);
          Distribute(start, |data|, es);
          var bytes := Flatten(data);
          file := FileWrite(file, start * es, bytes);
          appendOffset := Max(appendOffset, start * es + |bytes|);
          elems := Patch(elems, start, data);
          ok := true;
        case Empty =>
          if start != 0 {
            return false;
          }
          GrownFromNothing(data);
          kind, mem := InMemory, data;
          elems := data;
          ok := true;
      }
    }

    /** The same write from raw bytes; a length that is no multiple of the element size is refused. */
    method WriteBytesAt(start: nat, bytes: seq<byte>) returns (ok: bool)
      requires Valid()
      modifies this
      ensures Valid()
      ensures ok ==> |bytes| % es == 0
      ensures ok && bytes != [] ==>
        var data := Split(bytes, es);
        data != [] && elems == Patch(Grown(old(elems), start + |data|, data[0]), start, data)
      ensures ok && bytes != [] && kind.FileBacked? ==>
        && appendOffset == Max(old(appendOffset), start * es + |bytes|)
        && (start + |Split(bytes, es)| == |elems| ==> AppendsAtEnd())
      ensures ok <==> bytes == [] || (|bytes| % es == 0 &&
                        (|| old(kind).InMemory? || (old(kind).Empty? && start == 0)
                         || (old(kind).FileBacked? && start + |Split(bytes, es)| <= |old(elems)|)))
      ensures !ok || bytes == [] ==> unchanged(this)
    {
      if bytes == [] {
        RowOf(0, 0, es);
        return true;
      }
      if |bytes| % es != 0 {
        return false;
      }
      FlattenSplitBytes(bytes, es);
      var data := Split(bytes, es);
      FlattenLength(data, es);
      ok := WriteAt(start, data);
    }

    /** Pairs go to consecutive positions. */
    method WriteInterleavedAt(startPair: nat, left: seq<Elem>, right: seq<Elem>) returns (ok: bool)
      requires Valid() && Uniform(left, es) && Uniform(right, es)
      modifies this
      ensures Valid()
      ensures ok ==> |left| == |right|
      ensures ok && left != [] && 2 * (startPair + |left|) <= |old(elems)| ==>
        && |Interleave(left, right)| == 2 * |left|
        && elems == Patch(old(elems), 2 * startPair, Interleave(left, right))
        && Alternate(elems, startPair, left, right)
        && (2 * (startPair + |left|) == |elems| ==> AppendsAtEnd())
      ensures |left| == |right| && 2 * (startPair + |left|) <= |old(elems)| ==> ok
    {
      if |left| != |right| {
        return false;
      }
      if left == [] {
        return true;
      }
      var interleaved := InterleaveLoop(left, right, es);
      if 2 * (startPair + |left|) <= |elems| {
        PatchedAlternate(elems, startPair, left, right);
      }
      ok := WriteAt(2 * startPair, interleaved);
    }

    /** Grows the file for positioned writers: new elements read as zeros, appends go behind them. */
    method PreExtendedWriter(additional: nat) returns (writerLen: Option<nat>)
      requires Valid()
      modifies this
      ensures Valid() && kind == old(kind)
      ensures writerLen.Some? <==> kind.FileBacked?
      ensures kind.FileBacked? ==>
        && writerLen.value == |elems| && elems == old(elems) + Repeat(ZeroElem(es), additional) && AppendsAtEnd()
      ensures !kind.FileBacked? ==> unchanged(this)
    {
      if !kind.FileBacked? {
        return None;
      }
      FlattenAppend(elems, Repeat(ZeroElem(es), additional));
      FlattenRepeat<byte>(0, es, additional);
      FlattenLength(elems, es);
      Distribute(len, additional, es);
      var newLen := len + additional;
      var newSize := newLen * es;
      file := file + Repeat<byte>(0, newSize - |file|);
      elems := elems + Repeat(ZeroElem(es), additional);
      appendOffset, len := newSize, newLen;
      writerLen := Some(newLen);
    }

    /** A detached writer of the file: it checks its own length and does not move the append position. */
    method WriterWriteBytesAt(writerLen: nat, start: nat, bytes: seq<byte>) returns (ok: bool)
      requires Valid() && kind.FileBacked? && writerLen <= len
      modifies this`file, this`elems
      ensures Valid()
      ensures ok <==> bytes == [] || (|bytes| % es == 0 && start + |Split(bytes, es)| <= writerLen)
      ensures elems == if ok && bytes != [] then Patch(old(elems), start, Split(bytes, es)) else old(elems)
    {
      if bytes == [] {
        return true;
      }
      if |bytes| % es != 0 {
        return false;
      }
      FlattenSplitBytes(bytes, es);
      ghost var data := Split(bytes, es);
      FlattenLength(data, es);
      RowOf(|data|, 0, es);
      if start + |bytes| / es > writerLen {
        return false;
      }
      WriteRefines(elems, es, start, data);
      file := FileWrite(file, start * es, bytes);
      elems := Patch(elems, start, data);
      ok := true;
    }

    /**
      Consumes a range: the file's bytes become zeros, by punching a hole or by
      writing zeros in pieces of 64 KiB.  Other stores and invalid ranges are
      left alone.
     */
    method Consume(start: nat, end: nat, punched: bool)
      requires Valid()
      modifies this`file, this`elems
      ensures Valid()
      ensures elems == if kind.FileBacked? && start <= end <= |old(elems)|
                       then Consumed(old(elems), ZeroElem(es), start, end)
                       else old(elems)
    {
      if !kind.FileBacked? || start > end || end > len {
        return;
      }
      ghost var zeros := Repeat(ZeroElem(es), end - start);
      WriteRefines(elems, es, start, zeros);
      FlattenRepeat<byte>(0, es, end - start);
      var offset, count := start * es, (end - start) * es;
      if count == 0 {
        FlattenLength(zeros, es);
        assert Flatten(zeros) == [];
      } else if punched {
        file := FileWrite(file, offset, Repeat<byte>(0, count));
      } else {
        ZeroInPieces(offset, count);
      }
      elems := Patch(elems, start, zeros);
    }

    /** The fallback loop of `Consume`. */
    method ZeroInPieces(offset: nat, count: nat)
      requires offset + count <= |file|
      modifies this`file
      ensures file == Cleared(old(file), offset, count)
    {
      ghost var was, done: nat := file, 0;
      var remaining, cur := count, offset;
      WriteInside(was, offset, []);
      while remaining > 0
        invariant 0 <= remaining && done + remaining == count && cur == offset + done
        invariant file == Cleared(was, offset, done)
      {
        var chunk := Min(remaining, 64 * 1024);
        ZeroStep(was, offset, done, chunk);
        file := FileWrite(file, cur, Repeat<byte>(0, chunk));
        cur, done := cur + chunk, done + chunk;
        remaining := remaining - chunk;
      }
    }

    /** A store reopened from a file; only whole elements are accepted. */
    static method LoadFromFile(es: nat, bytes: seq<byte>) returns (r: Result<BackingStore>)
      requires 0 < es
      ensures r.Ok? <==> |bytes| % es == 0
      ensures r.Ok? ==> fresh(r.value) && r.value.Valid() && r.value.es == es && r.value.AppendsAtEnd()
      ensures r.Ok? ==> Flatten(r.value.elems) == bytes
    {
      if bytes == [] {
        RowOf(0, 0, es);
        var empty := new BackingStore.FromVec(es, []);
        return Ok(empty);
      }
      if |bytes| % es != 0 {
        return Err;
      }
      FlattenSplitBytes(bytes, es);
      var store := new BackingStore.FromVec(es, []);
      store.Reopen(bytes);
      r := Ok(store);
    }

    method Reopen(bytes: seq<byte>)
      requires 0 < es && |bytes| % es == 0 && bytes != []
      modifies this
      ensures Valid() && kind.FileBacked? && AppendsAtEnd() && Flatten(elems) == bytes
    {
      FlattenSplitBytes(bytes, es);
      elems := Split(bytes, es);
      FlattenLength(elems, es);
      RowOf(|elems|, 0, es);
      kind, mem, file := FileBacked, [], bytes;
      len, appendOffset := |bytes| / es, |bytes|;
    }
  }
}
