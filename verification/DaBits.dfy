/**
  Regenerating daBits from seeds, the messages the three parties exchange, and
  the stateful source of one party.
 */
module DaBits {
  import opened Arith
  import opened Wrappers
  import opened Bytes
  import opened Field
  import opened RngStream
  import opened EdaBitsSpec
  import opened DaBitsSpec
  import opened Positions

  type Row = seq<Fe>

  // -------------------------------------------------------------------------
  // One item of regenerated buffers
  // -------------------------------------------------------------------------

  ghost predicate Interleaved(st: Streams, c: nat, n: nat, buf: seq<byte>) {
    buf == Stream(st.ks, st.s01, c * st.Stride(), n * st.Stride())
  }

  method GammaAt(st: Streams, c: nat, n: nat, buf: seq<byte>, g2: seq<byte>, i: nat) returns (g: bool)
    requires i < n && Interleaved(st, c, n, buf) && g2 == Stream(st.ks, st.s20, c, n)
    ensures g == Gamma(st, c + i)
  {
    StreamRow(st.ks, st.s01, st.Stride(), c, n, i, 0, 1);
    var off := i * st.Stride();
    assert buf[off..off + 1][0] == buf[off];
    g := LowBit(Xor(buf[off], g2[i]));
  }

  method Alpha1At(st: Streams, c: nat, n: nat, buf: seq<byte>, i: nat) returns (f: Fe)
    requires st.Valid() && i < n && Interleaved(st, c, n, buf)
    ensures f == A1(st, c + i)
  {
    StreamRow(st.ks, st.s01, st.Stride(), c, n, i, 1, 16);
    f := ParseField(buf, i * st.Stride() + 1);
  }

  method R1At(st: Streams, c: nat, n: nat, buf: seq<byte>, i: nat) returns (f: Fe)
    requires st.Valid() && i < n && Interleaved(st, c, n, buf)
    ensures f == R1(st, c + i)
  {
    StreamRow(st.ks, st.s01, st.Stride(), c, n, i, 1 + st.fb, 16);
    f := ParseField(buf, i * st.Stride() + 1 + st.fb);
  }

  /** P1's summand of one item. */
  method S12At(st: Streams, c: nat, n: nat, thetas: seq<byte>, buf: seq<byte>, i: nat) returns (f: Fe)
    requires st.Valid() && i < n && Interleaved(st, c, n, buf) && thetas == Stream(st.ks, st.s12, c, n)
    ensures f == S12(st, c + i)
  {
    var theta := ThetaAt(st, c, n, thetas, i);
    var alpha1 := Alpha1At(st, c, n, buf, i);
    var r1 := R1At(st, c, n, buf, i);
    f := Sub(Signed(theta, alpha1), r1);
  }

  /** P0's message element for one item. */
  method Alpha2At(st: Streams, c: nat, n: nat, buf: seq<byte>, g2: seq<byte>, i: nat) returns (f: Fe)
    requires st.Valid() && i < n && Interleaved(st, c, n, buf) && g2 == Stream(st.ks, st.s20, c, n)
    ensures f == A2(st, c + i)
  {
    var g := GammaAt(st, c, n, buf, g2, i);
    var alpha1 := Alpha1At(st, c, n, buf, i);
    f := Sub(BoolAsField(g), alpha1);
  }

  method ThetaAt(st: Streams, c: nat, n: nat, thetas: seq<byte>, i: nat) returns (t: bool)
    requires i < n && thetas == Stream(st.ks, st.s12, c, n)
    ensures t == Theta(st, c + i)
  {
    t := LowBit(thetas[i]);
  }

  method Regenerate01(st: Streams, c: nat, n: nat) returns (buf: seq<byte>)
    ensures Interleaved(st, c, n, buf)
  {
    MulMono(0, c, st.Stride());
    MulMono(0, n, st.Stride());
    buf := SeekAndGenerate(st.ks, st.s01, c * st.Stride(), n * st.Stride());
  }

  // -------------------------------------------------------------------------
  // The messages
  // -------------------------------------------------------------------------

  function Alpha2s(d: Items, c: nat, n: nat): (r: seq<Fe>)
    ensures |r| == n
  {
    seq<Fe>(n, i requires 0 <= i < n => d.a2(c + i))
  }

  function S12s(d: Items, c: nat, n: nat): (r: seq<Fe>)
    ensures |r| == n
  {
    seq<Fe>(n, i requires 0 <= i < n => d.s12(c + i))
  }

  function S20s(d: Items, c: nat, n: nat): (r: seq<Fe>)
    ensures |r| == n
  {
    seq<Fe>(n, i requires 0 <= i < n => d.s20(c + i))
  }

  /** P0's message for items `c .. c + n`. */
  method Alpha2SeedChunk(d: Items, c: nat, n: nat) returns (r: seq<Fe>)
    requires d.Faithful()
    ensures r == Alpha2s(d, c, n)
  {
    r := [];
    if n == 0 {
      return;
    }
    var buf := Regenerate01(d.st, c, n);
    var g2 := SeekAndGenerate(d.st.ks, d.st.s20, c, n);
    for i := 0 to n
      invariant r == Alpha2s(d, c, n)[..i]
    {
      var f := Alpha2At(d.st, c, n, buf, g2, i);
      r := r + [f];
    }
  }

  function ChangedSign(theta: bool, x: Fe): Fe {
    if theta then Neg(x) else x
  }

  /** P1's summand hides the first share, with its sign, under the common random element. */
  lemma S12Is(d: Items, i: nat)
    requires d.Faithful()
    ensures Add(d.s12(i), d.r1(i)) == ChangedSign(d.theta(i), A1(d.st, i))
  {
    assert d.s12(i) == S12(d.st, i) && d.r1(i) == R1(d.st, i) && d.theta(i) == Theta(d.st, i);
    SignedIs(d.theta(i), A1(d.st, i));
    AddSub(d.r1(i), ChangedSign(d.theta(i), A1(d.st, i)));
    AddComm(d.s12(i), d.r1(i));
  }

  /** Unmasked, the elements are the first shares with their signs. */
  ghost predicate HideFirstShares(d: Items, c: nat, n: nat, r: seq<Fe>) {
    |r| == n && forall i :: 0 <= i < n ==> Add(r[i], d.r1(c + i)) == ChangedSign(d.theta(c + i), A1(d.st, c + i))
  }

  lemma S12sAre(d: Items, c: nat, n: nat)
    requires d.Faithful()
    ensures HideFirstShares(d, c, n, S12s(d, c, n))
  {
    forall i | 0 <= i < n
      ensures Add(S12s(d, c, n)[i], d.r1(c + i)) == ChangedSign(d.theta(c + i), A1(d.st, c + i))
    {
      S12Is(d, c + i);
    }
  }

  /** P1's message for items `c .. c + n`. */
  method S12SeedChunk(d: Items, c: nat, n: nat) returns (r: seq<Fe>)
    requires d.Faithful()
    ensures r == S12s(d, c, n)
    ensures HideFirstShares(d, c, n, r)
  {
    S12sAre(d, c, n);
    r := [];
    if n == 0 {
      return;
    }
    var thetas := SeekAndGenerate(d.st.ks, d.st.s12, c, n);
    var buf := Regenerate01(d.st, c, n);
    for i := 0 to n
      invariant r == S12s(d, c, n)[..i]
    {
      var f := S12At(d.st, c, n, thetas, buf, i);
      r := r + [f];
    }
  }

  /** P2's answer to any message from P0: the signs it knows, applied to what it received. */
  function Reply(d: Items, c: nat, alpha2: seq<Fe>): (r: seq<Fe>)
    ensures |r| == |alpha2|
  {
    seq<Fe>(|alpha2|, i requires 0 <= i < |alpha2| => Signed(d.theta(c + i), alpha2[i]))
  }

  lemma ReplySigns(d: Items, c: nat, alpha2: seq<Fe>)
    ensures forall i :: 0 <= i < |alpha2| ==> Reply(d, c, alpha2)[i] == ChangedSign(d.theta(c + i), alpha2[i])
  {
    forall i | 0 <= i < |alpha2|
      ensures Reply(d, c, alpha2)[i] == ChangedSign(d.theta(c + i), alpha2[i])
    {
      SignedIs(d.theta(c + i), alpha2[i]);
    }
  }

  method S20FromThetaSeed(d: Items, c: nat, alpha2: seq<Fe>) returns (r: seq<Fe>)
    requires d.Faithful()
    ensures r == Reply(d, c, alpha2)
    ensures forall i :: 0 <= i < |alpha2| ==> r[i] == ChangedSign(d.theta(c + i), alpha2[i])
  {
    ReplySigns(d, c, alpha2);
    r := [];
    if alpha2 == [] {
      return;
    }
    var thetas := SeekAndGenerate(d.st.ks, d.st.s12, c, |alpha2|);
    for i := 0 to |alpha2|
      invariant r == Reply(d, c, alpha2)[..i]
    {
      var theta := ThetaAt(d.st, c, |alpha2|, thetas, i);
      r := r + [Signed(theta, alpha2[i])];
    }
  }

  /** Answering an honest message gives P2's summands. */
  lemma ReplyIsS20(d: Items, c: nat, n: nat)
    requires d.Faithful()
    ensures Reply(d, c, Alpha2s(d, c, n)) == S20s(d, c, n)
  {
    var r, s := Reply(d, c, Alpha2s(d, c, n)), S20s(d, c, n);
    forall i | 0 <= i < n
      ensures r[i] == s[i]
    {
      assert d.s20(c + i) == S20(d.st, c + i);
    }
  }

  // -------------------------------------------------------------------------
  // The pool of one party
  // -------------------------------------------------------------------------

  /** What the party stores for an item: P0 one element, P2 two, P1 none. */
  function StoredRow(d: Items, party: PartyId, i: nat): Row {
    match party
    case ID0 => [d.s20(i)]
    case ID1 => []
    case ID2 => [d.s20(i), d.s12(i)]
  }

  function StoredRows(d: Items, party: PartyId, c: nat, n: nat): (rows: seq<Row>)
    ensures |rows| == n && forall i :: 0 <= i < n ==> rows[i] == StoredRow(d, party, c + i)
  {
    seq(n, i requires 0 <= i < n => StoredRow(d, party, c + i))
  }

  function ZeroRowOf(party: PartyId): (row: Row)
    ensures |row| == (match party case ID0 => 1 case ID1 => 0 case ID2 => 2)
    ensures forall j :: 0 <= j < |row| ==> row[j] == Zero
  {
    match party
    case ID0 => [Zero]
    case ID1 => []
    case ID2 => [Zero, Zero]
  }

  function ZeroRange(party: PartyId, rows: seq<Row>, start: nat, end: nat): (r: seq<Row>)
    requires start <= end <= |rows|
    ensures |r| == |rows|
  {
    seq(|rows|, i requires 0 <= i < |rows| => if start <= i < end then ZeroRowOf(party) else rows[i])
  }

  /** The range holds only zeros, and the rest is as it was. */
  lemma ZeroRangeIs(party: PartyId, rows: seq<Row>, start: nat, end: nat)
    requires start <= end <= |rows|
    ensures var r := ZeroRange(party, rows, start, end);
            && r[..start] == rows[..start] && r[end..] == rows[end..]
            && forall i: nat, j: nat :: start <= i < end && j < |r[i]| ==> r[i][j] == Zero
  {
    var r := ZeroRange(party, rows, start, end);
    assert forall i: nat :: start <= i < end ==> r[i] == ZeroRowOf(party);
  }

  method ThetasOf(d: Items, c: nat, n: nat) returns (r: seq<bool>, bytes: seq<byte>)
    requires d.Faithful()
    ensures bytes == Stream(d.st.ks, d.st.s12, c, n)
    ensures |r| == n && forall i :: 0 <= i < n ==> r[i] == d.theta(c + i)
  {
    bytes := SeekAndGenerate(d.st.ks, d.st.s12, c, n);
    r := [];
    for i := 0 to n
      invariant |r| == i && forall j :: 0 <= j < i ==> r[j] == d.theta(c + j)
    {
      var theta := ThetaAt(d.st, c, n, bytes, i);
      r := r + [theta];
    }
  }

  /** The party's share in a position whose stored part is that of `item`. */
  function ServedShare(d: Items, party: PartyId, i: nat, item: nat): (s: Share)
    ensures i == item ==> s == d.ShareOf(party, i)
  {
    match party
    case ID0 => Share(d.r1(i), d.s20(item))
    case ID1 => Share(d.s12(i), d.r1(i))
    case ID2 => Share(d.s20(item), d.s12(item))
  }

  function ServedShares(d: Items, party: PartyId, held: seq<nat>, start: nat, n: nat): (shares: seq<Share>)
    ensures |shares| == n
    ensures forall i :: 0 <= i < n ==> shares[i] == ServedShare(d, party, start + i, ItemAt(held, start + i))
  {
    seq(n, i requires 0 <= i < n => ServedShare(d, party, start + i, ItemAt(held, start + i)))
  }

  /** What positions `start .. start + n` hand out when the store holds these items. */
  function Served(d: Items, party: PartyId, held: seq<nat>, start: nat, n: nat): Batch {
    d.Eager(party, start, n).(shares := ServedShares(d, party, held, start, n))
  }

  lemma ServedInPlace(d: Items, party: PartyId, held: seq<nat>, start: nat, n: nat)
    requires InPlace(held, start, n)
    ensures Served(d, party, held, start, n) == d.Eager(party, start, n)
  {
    assert ServedShares(d, party, held, start, n) == d.Eager(party, start, n).shares;
  }

  /** The rows from position `lo` on are those of the items `held`. */
  ghost predicate Holds(d: Items, party: PartyId, rows: seq<Row>, held: seq<nat>, lo: nat) {
    |rows| == |held| && forall i :: lo <= i < |rows| ==> rows[i] == StoredRow(d, party, held[i])
  }

  method ShareP0(d: Items, c: nat, n: nat, buf: seq<byte>, g2: seq<byte>, s20: Fe, i: nat) returns (g: bool, s: Share)
    requires d.Faithful() && i < n
    requires Interleaved(d.st, c, n, buf) && g2 == Stream(d.st.ks, d.st.s20, c, n)
    ensures g == d.gamma(c + i) && s == Share(d.r1(c + i), s20)
  {
    g := GammaAt(d.st, c, n, buf, g2, i);
    var r1 := R1At(d.st, c, n, buf, i);
    s := Share(r1, s20);
  }

  method ShareP1(d: Items, c: nat, n: nat, thetas: seq<byte>, buf: seq<byte>, i: nat) returns (s: Share)
    requires d.Faithful() && i < n && Interleaved(d.st, c, n, buf) && thetas == Stream(d.st.ks, d.st.s12, c, n)
    ensures s == d.ShareOf(ID1, c + i)
  {
    var s12 := S12At(d.st, c, n, thetas, buf, i);
    var r1 := R1At(d.st, c, n, buf, i);
    s := Share(s12, r1);
  }

  /** P0's batch: everything but P2's summand is regenerated. */
  method BatchP0(d: Items, c: nat, n: nat, stored: seq<Row>, ghost held: seq<nat>) returns (b: Batch)
    requires d.Faithful() && |stored| == n
    requires forall i :: 0 <= i < n ==> stored[i] == StoredRow(d, ID0, ItemAt(held, c + i))
    ensures b == Served(d, ID0, held, c, n)
  {
    var buf := Regenerate01(d.st, c, n);
    var g2 := SeekAndGenerate(d.st.ks, d.st.s20, c, n);
    var gammas, shares := [], [];
    for i := 0 to n
      invariant |gammas| == |shares| == i && forall j :: 0 <= j < i ==> gammas[j] == d.gamma(c + j)
      invariant shares == ServedShares(d, ID0, held, c, n)[..i]
    {
      var g, s := ShareP0(d, c, n, buf, g2, stored[i][0], i);
      gammas, shares := gammas + [g], shares + [s];
    }
    b := Batch(gammas, seq(n, _ => false), shares);
  }

  /** P1's batch: regenerated entirely. */
  method BatchP1(d: Items, c: nat, n: nat) returns (b: Batch)
    requires d.Faithful()
    ensures b == d.Eager(ID1, c, n)
  {
    var thetas, bytes := ThetasOf(d, c, n);
    var buf := Regenerate01(d.st, c, n);
    var shares := [];
    for i := 0 to n
      invariant |shares| == i && forall j :: 0 <= j < i ==> shares[j] == d.ShareOf(ID1, c + j)
    {
      var s := ShareP1(d, c, n, bytes, buf, i);
      shares := shares + [s];
    }
    b := Batch(seq(n, _ => false), thetas, shares);
  }

  /** P2's batch: both summands are stored. */
  method BatchP2(d: Items, c: nat, n: nat, stored: seq<Row>, ghost held: seq<nat>) returns (b: Batch)
    requires d.Faithful() && |stored| == n
    requires forall i :: 0 <= i < n ==> stored[i] == StoredRow(d, ID2, ItemAt(held, c + i))
    ensures b == Served(d, ID2, held, c, n)
  {
    var thetas, _ := ThetasOf(d, c, n);
    var shares := [];
    for i := 0 to n
      invariant |shares| == i && shares == ServedShares(d, ID2, held, c, n)[..i]
    {
      shares := shares + [Share(stored[i][0], stored[i][1])];
    }
    b := Batch(seq(n, _ => false), thetas, shares);
  }

  // -------------------------------------------------------------------------
  // The stateful source
  // -------------------------------------------------------------------------

  /** `dabits.meta`; seeds and party are those of the pool. */
  datatype Meta = Meta(total: nat, cursor: nat)

  /** The pool directory; `held` says which item each row of the stored file belongs to. */
  class Dir {
    var meta: Option<Meta>
    var stored: Option<seq<Row>>
    ghost var held: seq<nat>
  }

  datatype Store = NoRows | Memory(v: seq<Row>) | OnFile

  /** The file after positions `start .. start + n` were consumed. */
  function FileAfter(party: PartyId, store: Store, f: Option<seq<Row>>, start: nat, n: nat): Option<seq<Row>> {
    if store.OnFile? && f.Some? && start + n <= |f.value| then Some(ZeroRange(party, f.value, start, start + n)) else f
  }

  /** What P0 or P2 holds: in memory everything from the start, in the file what has not been handed out. */
  ghost predicate StoreSound(d: Items, party: PartyId, total: nat, store: Store, own: seq<nat>,
                             f: Option<seq<Row>>, held: seq<nat>, c: nat) {
    match store
    case NoRows => total == 0 && own == []
    case Memory(v) => total <= |v| && Holds(d, party, v, own, 0)
    case OnFile => own == [] && FileSound(d, party, total, f, held, c)
  }

  ghost predicate FileSound(d: Items, party: PartyId, total: nat, f: Option<seq<Row>>, held: seq<nat>, c: nat) {
    f.Some? && total <= |f.value| && Holds(d, party, f.value, held, c)
  }

  /** Handing out positions leaves the rest. */
  lemma FileServes(d: Items, party: PartyId, total: nat, f: seq<Row>, held: seq<nat>, c: nat, n: nat)
    requires Holds(d, party, f, held, c) && c + n <= total <= |f|
    ensures Holds(d, party, ZeroRange(party, f, c, c + n), held, c + n)
  {
  }

  /** New rows at the end of a store. */
  lemma HoldsMore(d: Items, party: PartyId, rows: seq<Row>, held: seq<nat>, c: nat, total: nat, n: nat)
    requires Holds(d, party, rows, held, c)
    ensures Holds(d, party, rows + StoredRows(d, party, total, n), held + Range(total, n), c)
  {
  }

  class LazyDaBits {
    const d: Items
    const party: PartyId
    const dir: Dir
    var total: nat
    var cursor: nat
    var store: Store
    var saved: bool
    /** The items of the rows in memory. */
    ghost var own: seq<nat>

    /** The items of the rows in the store, wherever it is. */
    ghost function Held(): seq<nat>
      reads this, dir
    {
      if store.OnFile? then dir.held else own
    }

    ghost predicate StoresAt(c: nat)
      reads this, dir
    {
      if party == ID1 then store.NoRows? && own == []
      else
        && StoreSound(d, party, total, store, own, dir.stored, dir.held, c)
        && (saved && dir.meta.Some? && dir.meta.value.total > 0 ==>
              FileSound(d, party, dir.meta.value.total, dir.stored, dir.held, c))
    }

    /** P0's and P2's meta file, once written, always carries the current cursor; P1's does not. */
    ghost predicate Valid()
      reads this, dir
    {
      && d.Faithful() && StoresAt(cursor)
      && (saved ==> dir.meta.Some? && (party != ID1 ==> dir.meta.value.cursor == cursor))
    }

    ghost function SavedMeta(): Option<Meta>
      reads this, dir
    {
      if saved then dir.meta else None
    }

    /** A new pool over what the party received, in memory or in its file. */
    constructor New(d: Items, party: PartyId, dir: Dir, total: nat, store: Store)
      requires d.Faithful() && (party == ID1 ==> store.NoRows?)
      requires party != ID1 ==>
        || (store.Memory? && store.v == StoredRows(d, party, 0, total))
        || (store.OnFile? && dir.stored == Some(StoredRows(d, party, 0, total)) && dir.held == Range(0, total))
      ensures Valid() && this.d == d && this.party == party && this.dir == dir && this.store == store
      ensures this.total == total && cursor == 0 && !saved
      ensures party != ID1 ==> Held() == Range(0, total)
    {
      this.d, this.party, this.dir, this.store := d, party, dir, store;
      this.total, cursor, saved := total, 0, false;
      own := if store.Memory? then Range(0, total) else [];
    }

    method PersistCursor()
      modifies dir`meta
      ensures dir.meta == if saved && old(dir.meta).Some? then Some(old(dir.meta).value.(cursor := cursor))
                          else old(dir.meta)
    {
      if saved && dir.meta.Some? {
        dir.meta := Some(dir.meta.value.(cursor := cursor));
      }
    }

    /** The rows of a range of the store. */
    method ReadRows(c: nat, n: nat) returns (rows: seq<Row>)
      requires party != ID1 && StoresAt(c) && c + n <= total
      ensures |rows| == n && forall i :: 0 <= i < n ==> rows[i] == StoredRow(d, party, ItemAt(Held(), c + i))
    {
      match store
      case NoRows => rows := [];
      case Memory(v) => rows := v[c..c + n];
      case OnFile => rows := dir.stored.value[c..c + n];
    }

    /** Zeroes a range of the file; a store in memory is left alone. */
    method Consume(c: nat, n: nat)
      requires party != ID1 && StoresAt(c) && c + n <= total
      modifies dir`stored
      ensures dir.stored == FileAfter(party, store, old(dir.stored), c, n)
      ensures StoresAt(c + n)
    {
      if store.OnFile? {
        FileServes(d, party, total, dir.stored.value, dir.held, c, n);
        dir.stored := Some(ZeroRange(party, dir.stored.value, c, c + n));
      }
    }

    /**
      Hands out the next `n` positions, or fails and changes nothing.  P0 and P2
      take the stored parts from their stores, and zero them in a file; P1 does
      not persist its cursor.
     */
    method TakeBatch(n: nat) returns (r: Result<Batch>)
      requires Valid()
      modifies this`cursor, dir`meta, dir`stored
      ensures Valid() && Held() == old(Held())
      ensures r == if old(cursor) + n <= total then Ok(Served(d, party, Held(), old(cursor), n)) else Err
      ensures cursor == if r.Ok? then old(cursor) + n else old(cursor)
      ensures dir.stored == if r.Ok? && party != ID1 then FileAfter(party, store, old(dir.stored), old(cursor), n)
                            else old(dir.stored)
      ensures SavedMeta() == if r.Err? || party == ID1 || !saved then old(SavedMeta())
                             else Some(old(dir.meta).value.(cursor := cursor))
    {
      if cursor + n > total {
        return Err;
      }
      var c := cursor;
      var b;
      if party == ID1 {
        ServedInPlace(d, party, Held(), c, n);
        b := BatchP1(d, c, n);
        cursor := cursor + n;
      } else {
        var rows := ReadRows(c, n);
        if party == ID2 {
          b := BatchP2(d, c, n, rows, Held());
        } else {
          b := BatchP0(d, c, n, rows, Held());
        }
        cursor := cursor + n;
        PersistCursor();
        Consume(c, n);
      }
      r := Ok(b);
    }

    /**
      Takes what an extension delivered, at the end of the store.  The new items
      are in their places exactly when the store ended at the total.
     */
    method ApplyExtension(deficit: nat, ext: seq<Row>)
      requires Valid() && ext == if party == ID1 then [] else StoredRows(d, party, total, deficit)
      modifies this`total, this`store, this`own, dir`stored, dir`held
      ensures Valid() && total == old(total) + deficit && SavedMeta() == old(SavedMeta())
      ensures store.OnFile? == old(store.OnFile?)
      ensures party == ID1 ==> Held() == old(Held())
      ensures party != ID1 ==> Held() == old(Held()) + Range(old(total), deficit)
      ensures party != ID1 && deficit > 0 ==>
        (InPlace(Held(), |old(Held())|, deficit) <==> |old(Held())| == old(total))
      ensures !store.OnFile? ==> dir.held == old(dir.held)
    {
      ghost var held := Held();
      if deficit == 0 {
        assert held + Range(total, 0) == held;
        return;
      }
      AppendedInPlace(held, total, deficit);
      if ext != [] {
        match store
        case NoRows =>
          store, own := Memory(ext), Range(total, deficit);
        case Memory(v) =>
          HoldsMore(d, party, v, own, 0, total, deficit);
          store, own := Memory(v + ext), own + Range(total, deficit);
        case OnFile =>
          HoldsMore(d, party, dir.stored.value, dir.held, cursor, total, deficit);
          dir.stored, dir.held := Some(dir.stored.value + ext), dir.held + Range(total, deficit);
      }
      total := total + deficit;
    }

    /** Writes the rows, if they are in memory, and the meta file. */
    method Save()
      requires Valid()
      modifies this`saved, dir`meta, dir`stored, dir`held
      ensures Valid() && saved && dir.meta == Some(Meta(total, cursor)) && Held() == old(Held())
      ensures store.Memory? && store.v != [] ==> dir.stored == Some(store.v) && dir.held == own
      ensures !(store.Memory? && store.v != []) ==> dir.stored == old(dir.stored) && dir.held == old(dir.held)
    {
      if store.Memory? && store.v != [] {
        dir.stored, dir.held := Some(store.v), own;
      }
      dir.meta := Some(Meta(total, cursor));
      saved := true;
    }

    /** The pool object goes away; then every party persists its cursor. */
    method Drop()
      requires Valid()
      modifies dir`meta
      ensures Valid()
      ensures SavedMeta() == if saved then Some(old(dir.meta).value.(cursor := cursor)) else old(SavedMeta())
    {
      PersistCursor();
    }

    /** The pool restored from its directory; the stored file is taken as it is. */
    constructor Load(dir: Dir, d: Items, party: PartyId, ghost writer: LazyDaBits)
      requires writer.Valid() && writer.saved && writer.dir == dir && writer.d == d && writer.party == party
      ensures Valid() && this.d == d && this.party == party && this.dir == dir && saved
      ensures dir.meta == Some(Meta(total, cursor))
      ensures party != ID1 ==>
        (store.OnFile? <==> total > 0) && (store.NoRows? <==> total == 0) && own == []
    {
      var meta := dir.meta.value;
      this.d, this.party, this.dir := d, party, dir;
      total, cursor, saved := meta.total, meta.cursor, true;
      store := if meta.total > 0 && party != ID1 then OnFile else NoRows;
      own := [];
    }
  }
}
