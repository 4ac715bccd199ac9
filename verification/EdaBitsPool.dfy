/**
  The stateful edaBits source of one party: takes, cached windows, extension,
  persistence and reservations.

  P0 and P1 hold seeds and regenerate items on demand, optionally from a window
  cached on disk; P2 holds the shares it received.  `Valid` couples this state
  to the eager definition, and every operation is specified by that definition.
  A file holds one row per item here; `FlatRows` and `BackingStore` relate rows
  to flat element offsets and to bytes.
 */
module EdaBitsPool {
  import opened Arith
  import opened Wrappers
  import opened Field
  import opened RngStream
  import opened EdaBitsSpec
  import opened EdaBits
  import opened Positions
  import Forks

  /** Machine words wrap: `usize` has 64 bits. */
  const USIZE := 0x1_0000_0000_0000_0000

  /** No buffer is longer than `isize::MAX`, so counters stay below this. */
  const LIMIT := 0x8000_0000_0000_0000

  /** `size_of::<F>()` */
  const FIELD_SIZE := 32

  /** `usize` subtraction in a release build. */
  function WrapSub(a: nat, b: nat): nat
    requires a < USIZE && b < USIZE
  {
    if b <= a then a - b else a - b + USIZE
  }

  /** `edabits_K.meta`. */
  datatype Meta = Meta(s1: Snap, s2: Snap, total: nat, party: PartyId, cursor: nat, fb: nat)

  /** `edabits_K.precache.meta`: the identity of the pool and the cached window. */
  datatype PrecacheMeta =
    PrecacheMeta(s1: Snap, s2: Snap, fb: nat, total: nat, start: nat, len: nat, party: PartyId)

  /** The pool directory; a file that does not exist is `None`. */
  class Dir {
    var meta: Option<Meta>
    var alpha2: Option<seq<Row>>
    var pcMeta: Option<PrecacheMeta>
    var pcAlpha: Option<seq<Row>>
    var pcGamma: Option<seq<nat>>
  }

  datatype Mode = NoStore | P2Authoritative | P01Precache(start: nat, len: nat)

  /** Where a store keeps its elements. */
  datatype Store = Empty | InMemory(v: seq<Row>) | Alpha2File | PrecacheFile

  // -------------------------------------------------------------------------
  // Stores: positioned writes and consumption
  // -------------------------------------------------------------------------

  /** `BackingStore::consume`: the range is zeroed; an invalid or empty range is ignored. */
  function Consume<T>(s: seq<T>, zero: T, start: nat, end: nat): (r: seq<T>)
    ensures |r| == |s|
    ensures start <= end <= |s| ==> forall i :: 0 <= i < |s| ==> r[i] == if start <= i < end then zero else s[i]
  {
    if start >= end || end > |s| then s
    else seq(|s|, i requires 0 <= i < |s| => if start <= i < end then zero else s[i])
  }

  /** A positioned write inside the store. */
  function WriteAt<T>(s: seq<T>, start: nat, data: seq<T>): (r: seq<T>)
    requires start + |data| <= |s|
    ensures |r| == |s| && r[..start + |data|] == s[..start] + data
  {
    s[..start] + data + s[start + |data|..]
  }

  /** Positions `lo ..` of `s` are the items from `base + lo` on; the positions below are zeroed. */
  ghost predicate Live(src: Source, base: nat, rows: seq<Row>, lo: nat) {
    lo <= |rows| && forall i :: lo <= i < |rows| ==> rows[i] == src.rowAt(base + i)
  }

  ghost predicate LiveGammas(src: Source, base: nat, gammas: seq<nat>, lo: nat) {
    lo <= |gammas| && forall i :: lo <= i < |gammas| ==> gammas[i] == src.gammaAt(base + i)
  }

  ghost predicate ZeroBelow<T>(s: seq<T>, zero: T, lo: nat) {
    lo <= |s| && forall i :: 0 <= i < lo ==> s[i] == zero
  }

  function ZeroRow(k: nat): (row: Row)
    ensures |row| == k && forall j :: 0 <= j < k ==> row[j] == Zero
  {
    seq<Fe>(k, _ => Zero)
  }

  /** Reading and then zeroing the front of the live part hands out eager items and keeps the rest. */
  lemma TakeLive(src: Source, base: nat, rows: seq<Row>, lo: nat, n: nat, zero: Row)
    requires Live(src, base, rows, lo) && lo + n <= |rows|
    ensures rows[lo..lo + n] == src.EagerRows(base + lo, n)
    ensures Live(src, base, Consume(rows, zero, lo, lo + n), lo + n)
    ensures ZeroBelow(rows, zero, lo) ==> ZeroBelow(Consume(rows, zero, lo, lo + n), zero, lo + n)
  {
  }

  lemma TakeLiveGammas(src: Source, base: nat, gammas: seq<nat>, lo: nat, n: nat)
    requires LiveGammas(src, base, gammas, lo) && lo + n <= |gammas|
    ensures gammas[lo..lo + n] == src.EagerGammas(base + lo, n)
    ensures LiveGammas(src, base, Consume(gammas, 0, lo, lo + n), lo + n)
    ensures ZeroBelow(gammas, 0, lo) ==> ZeroBelow(Consume(gammas, 0, lo, lo + n), 0, lo + n)
  {
  }

  /** The ring elements of a party that knows none. */
  function ZeroGammas(src: Source, c: nat, n: nat): (gs: seq<nat>)
    requires src.Faithful() && src.party != ID0
    ensures gs == src.EagerGammas(c, n)
  {
    seq(n, _ => 0)
  }

  // -------------------------------------------------------------------------
  // Cached windows
  // -------------------------------------------------------------------------

  /** The window belongs to this pool. */
  predicate Ours(src: Source, m: PrecacheMeta) {
    m.party == src.party && m.s1 == src.s1 && m.s2 == src.s2 && m.fb == src.layout.fb
  }

  /** Items of the window that have been handed out once items below `cursor` have. */
  function Used(m: PrecacheMeta, cursor: nat): nat {
    if cursor <= m.start then 0 else Min(cursor - m.start, m.len)
  }

  /** The unused part of a window on disk holds the items it should. */
  ghost predicate WindowOnDisk(
      src: Source, m: PrecacheMeta, cursor: nat, alpha: Option<seq<Row>>, gamma: Option<seq<nat>>) {
    && m.start <= cursor && 0 < m.len < LIMIT
    && alpha.Some? && |alpha.value| == m.len && Live(src, m.start, alpha.value, Used(m, cursor))
    && (src.party == ID0 ==>
          gamma.Some? && |gamma.value| == m.len && LiveGammas(src, m.start, gamma.value, Used(m, cursor)))
  }

  /** How many of items `cursor .. cursor + n` the cached window serves. */
  function CachedPart(mode: Mode, cursor: nat, n: nat): nat {
    match mode
    case P01Precache(start, len) =>
      if cursor < start || cursor >= start + len then 0 else Min(start + len - cursor, n)
    case _ => 0
  }

  /** The window's file after items `cursor .. cursor + n` left the pool. */
  function WindowAfter<T>(mode: Mode, f: Option<seq<T>>, zero: T, cursor: nat, n: nat): Option<seq<T>> {
    var cached := CachedPart(mode, cursor, n);
    if f.Some? && mode.P01Precache? && cached > 0 then
      Some(Consume(f.value, zero, cursor - mode.start, cursor - mode.start + cached))
    else
      f
  }

  /** A file after the range of a reservation, if it has one, was zeroed. */
  function RangeConsumed<T>(f: Option<seq<T>>, zero: T, range: Option<(nat, nat)>): Option<seq<T>> {
    if f.Some? && range.Some? then Some(Consume(f.value, zero, range.value.0, range.value.1)) else f
  }

  /** P2's file after items `cursor .. cursor + n` left the pool. */
  function Alpha2After(store: Store, f: Option<seq<Row>>, zero: Row, cursor: nat, n: nat): Option<seq<Row>> {
    if f.Some? && store.Alpha2File? then Some(Consume(f.value, zero, cursor, cursor + n)) else f
  }

  /** Handing out items through a window moves its used part by exactly the served items. */
  lemma UsedAdvances(m: PrecacheMeta, cursor: nat, n: nat)
    requires m.start <= cursor
    ensures Used(m, cursor + n) == Used(m, cursor) + CachedPart(P01Precache(m.start, m.len), cursor, n)
    ensures CachedPart(P01Precache(m.start, m.len), cursor, n) > 0 ==> Used(m, cursor) == cursor - m.start
  {
  }

  /** What a store holds. */
  ghost function ContentsOf(store: Store, alpha2: Option<seq<Row>>): seq<Row> {
    match store
    case InMemory(v) => v
    case Alpha2File => if alpha2.Some? then alpha2.value else []
    case _ => []
  }

  /** The rows in positions `start .. start + n` of a store that holds these items. */
  function ServedRows(src: Source, held: seq<nat>, start: nat, n: nat): (rows: seq<Row>)
    ensures |rows| == n && forall i :: 0 <= i < n ==> rows[i] == src.rowAt(ItemAt(held, start + i))
  {
    seq(n, i requires 0 <= i < n => src.rowAt(ItemAt(held, start + i)))
  }

  /** What those positions hand out. */
  function Served(src: Source, held: seq<nat>, start: nat, n: nat): (b: Batch)
    ensures |b.gammas| == |b.rows| == n
    ensures held == [] ==> b == src.Eager(start, n)
  {
    Batch(src.EagerGammas(start, n), ServedRows(src, held, start, n))
  }

  /** Positions that hold their own items hand out the eager batch. */
  lemma ServedInPlace(src: Source, held: seq<nat>, start: nat, n: nat)
    requires InPlace(held, start, n)
    ensures Served(src, held, start, n) == src.Eager(start, n)
  {
  }

  lemma ServedJoin(src: Source, held: seq<nat>, start: nat, a: nat, b: nat)
    ensures Append(Served(src, held, start, a), Served(src, held, start + a, b)) == Served(src, held, start, a + b)
  {
    assert src.EagerGammas(start, a) + src.EagerGammas(start + a, b) == src.EagerGammas(start, a + b);
    assert ServedRows(src, held, start, a) + ServedRows(src, held, start + a, b) == ServedRows(src, held, start, a + b);
  }

  /** The positions from `lo` on hold the rows of these items. */
  ghost predicate Holds(src: Source, rows: seq<Row>, held: seq<nat>, lo: nat) {
    lo <= |rows| == |held| && forall i :: lo <= i < |rows| ==> rows[i] == src.rowAt(held[i])
  }

  /**
    P2 with positions below `c` handed out: a row for every item, possibly with
    rows of an extension that was never saved behind them.  The rows from `c` on
    are those of the items `held`; the file lost those handed out since `bare`.
   */
  ghost predicate P2Inv(src: Source, total: nat, mode: Mode, store: Store, alpha2: Option<seq<Row>>,
                        held: seq<nat>, bare: nat, c: nat) {
    var rows := ContentsOf(store, alpha2);
    && !mode.P01Precache? && !store.PrecacheFile?
    && (store.Alpha2File? ==> alpha2.Some? && mode.P2Authoritative?)
    && (mode.NoStore? ==> total == 0 && store.Empty? && held == [])
    && (mode.P2Authoritative? ==>
          && total <= |rows| && Holds(src, rows, held, c)
          && (store.InMemory? ==> total == |rows|)
          && (store.Alpha2File? ==> forall i :: bare <= i < c ==> rows[i] == ZeroRow(src.layout.k)))
  }

  /** P2 serves a batch from its store. */
  lemma P2Serves(src: Source, total: nat, mode: Mode, store: Store, alpha2: Option<seq<Row>>,
                 held: seq<nat>, bare: nat, c: nat, n: nat)
    requires P2Inv(src, total, mode, store, alpha2, held, bare, c) && mode.P2Authoritative? && c + n <= total
    ensures ContentsOf(store, alpha2)[c..c + n] == ServedRows(src, held, c, n)
    ensures P2Inv(src, total, mode, store, Alpha2After(store, alpha2, ZeroRow(src.layout.k), c, n), held, bare, c + n)
  {
  }

  /** P2's file takes the rows of the new items at its end; any other store falls behind. */
  lemma P2Extends(src: Source, total: nat, mode: Mode, store: Store, alpha2: Option<seq<Row>>,
                  held: seq<nat>, bare: nat, c: nat, n: nat)
    requires P2Inv(src, total, mode, store, alpha2, held, bare, c) && 0 < n
    ensures mode.P2Authoritative? && store.Alpha2File? ==>
      P2Inv(src, total + n, mode, store, Some(alpha2.value + src.EagerRows(total, n)), held + Range(total, n), bare, c)
    ensures !(mode.P2Authoritative? && store.Alpha2File?) ==>
      !P2Inv(src, total + n, mode, store, alpha2, held, bare, c)
  {
  }

  /** P0 or P1 with items below `c` handed out: no store, or a window on disk whose used part is zeroed. */
  ghost predicate P01Inv(src: Source, mode: Mode, store: Store, pcMeta: Option<PrecacheMeta>,
                         alpha: Option<seq<Row>>, gamma: Option<seq<nat>>, c: nat) {
    && !mode.P2Authoritative? && (mode.NoStore? ==> store.Empty?)
    && (pcMeta.Some? && Ours(src, pcMeta.value) ==> WindowOnDisk(src, pcMeta.value, c, alpha, gamma))
    && (mode.P01Precache? ==>
          && store.PrecacheFile? && pcMeta.Some? && Ours(src, pcMeta.value)
          && pcMeta.value.start == mode.start && pcMeta.value.len == mode.len
          && ZeroBelow(alpha.value, ZeroRow(src.layout.k), Used(pcMeta.value, c))
          && (src.party == ID0 ==> ZeroBelow(gamma.value, 0, Used(pcMeta.value, c))))
  }

  function GammaAfter(src: Source, mode: Mode, gamma: Option<seq<nat>>, c: nat, n: nat): Option<seq<nat>> {
    if src.party == ID0 then WindowAfter(mode, gamma, 0, c, n) else gamma
  }

  /** A window that serves nothing stays as it is while the cursor moves. */
  lemma WindowIdles(src: Source, m: PrecacheMeta, alpha: Option<seq<Row>>, gamma: Option<seq<nat>>, c: nat, n: nat)
    requires WindowOnDisk(src, m, c, alpha, gamma)
    ensures WindowOnDisk(src, m, c + n, alpha, gamma)
  {
  }

  /** A window that serves `n` items loses exactly those. */
  lemma WindowServes(src: Source, m: PrecacheMeta, alpha: seq<Row>, gamma: seq<nat>, c: nat, n: nat)
    requires WindowOnDisk(src, m, c, Some(alpha), Some(gamma)) && c + n <= m.start + m.len
    requires ZeroBelow(alpha, ZeroRow(src.layout.k), c - m.start)
    ensures var alpha' := Consume(alpha, ZeroRow(src.layout.k), c - m.start, c - m.start + n);
            && alpha[c - m.start..c - m.start + n] == src.EagerRows(c, n)
            && Live(src, m.start, alpha', Used(m, c + n)) && ZeroBelow(alpha', ZeroRow(src.layout.k), Used(m, c + n))
  {
    TakeLive(src, m.start, alpha, c - m.start, n, ZeroRow(src.layout.k));
  }

  lemma WindowServesGammas(src: Source, m: PrecacheMeta, alpha: seq<Row>, gamma: seq<nat>, c: nat, n: nat)
    requires WindowOnDisk(src, m, c, Some(alpha), Some(gamma)) && c + n <= m.start + m.len
    requires src.party == ID0 && ZeroBelow(gamma, 0, c - m.start)
    ensures var gamma' := Consume(gamma, 0, c - m.start, c - m.start + n);
            && gamma[c - m.start..c - m.start + n] == src.EagerGammas(c, n)
            && LiveGammas(src, m.start, gamma', Used(m, c + n)) && ZeroBelow(gamma', 0, Used(m, c + n))
  {
    TakeLiveGammas(src, m.start, gamma, c - m.start, n);
  }

  /** The window serves the front of a batch. */
  lemma WindowFront(src: Source, mode: Mode, store: Store, pcMeta: Option<PrecacheMeta>,
                    alpha: Option<seq<Row>>, gamma: Option<seq<nat>>, c: nat, n: nat)
    requires P01Inv(src, mode, store, pcMeta, alpha, gamma, c) && 0 < n == CachedPart(mode, c, n)
    ensures P01Inv(src, mode, store, pcMeta, WindowAfter(mode, alpha, ZeroRow(src.layout.k), c, n),
                   GammaAfter(src, mode, gamma, c, n), c + n)
    ensures alpha.Some? && mode.start <= c && c - mode.start + n <= |alpha.value|
    ensures alpha.value[c - mode.start..c - mode.start + n] == src.EagerRows(c, n)
    ensures src.party == ID0 ==>
      && gamma.Some? && c - mode.start + n <= |gamma.value|
      && gamma.value[c - mode.start..c - mode.start + n] == src.EagerGammas(c, n)
  {
    UsedAdvances(pcMeta.value, c, n);
    var gs := if gamma.Some? then gamma.value else [];
    WindowServes(src, pcMeta.value, alpha.value, gs, c, n);
    if src.party == ID0 {
      WindowServesGammas(src, pcMeta.value, alpha.value, gs, c, n);
    }
  }

  /** Items that the window does not serve leave it as it is. */
  lemma WindowPassed(src: Source, mode: Mode, store: Store, pcMeta: Option<PrecacheMeta>,
                     alpha: Option<seq<Row>>, gamma: Option<seq<nat>>, c: nat, n: nat)
    requires P01Inv(src, mode, store, pcMeta, alpha, gamma, c) && CachedPart(mode, c, n) == 0
    ensures P01Inv(src, mode, store, pcMeta, alpha, gamma, c + n)
  {
    if mode.P01Precache? {
      UsedAdvances(pcMeta.value, c, n);
    }
    if pcMeta.Some? && Ours(src, pcMeta.value) {
      WindowIdles(src, pcMeta.value, alpha, gamma, c, n);
    }
  }

  /** A batch, of which the window serves the front. */
  lemma P01Serves(src: Source, mode: Mode, store: Store, pcMeta: Option<PrecacheMeta>,
                  alpha: Option<seq<Row>>, gamma: Option<seq<nat>>, c: nat, n: nat)
    requires P01Inv(src, mode, store, pcMeta, alpha, gamma, c)
    ensures P01Inv(src, mode, store, pcMeta, WindowAfter(mode, alpha, ZeroRow(src.layout.k), c, n),
                   GammaAfter(src, mode, gamma, c, n), c + n)
    ensures var cached := CachedPart(mode, c, n);
            cached > 0 ==>
              && alpha.Some? && mode.start <= c && c - mode.start + cached <= |alpha.value|
              && alpha.value[c - mode.start..c - mode.start + cached] == src.EagerRows(c, cached)
              && (src.party == ID0 ==>
                    && gamma.Some? && c - mode.start + cached <= |gamma.value|
                    && gamma.value[c - mode.start..c - mode.start + cached] == src.EagerGammas(c, cached))
  {
    var cached, zero := CachedPart(mode, c, n), ZeroRow(src.layout.k);
    var alpha', gamma' := WindowAfter(mode, alpha, zero, c, n), GammaAfter(src, mode, gamma, c, n);
    if cached == 0 {
      WindowPassed(src, mode, store, pcMeta, alpha, gamma, c, n);
    } else {
      assert CachedPart(mode, c, cached) == cached && CachedPart(mode, c + cached, n - cached) == 0;
      WindowFront(src, mode, store, pcMeta, alpha, gamma, c, cached);
      WindowPassed(src, mode, store, pcMeta, alpha', gamma', c + cached, n - cached);
    }
  }

  /** The ranges of a reservation are those a plain take consumes: of the window, */
  lemma ReservedInWindow<T>(party: PartyId, mode: Mode, f: Option<seq<T>>, zero: T, c: nat, n: nat)
    requires !mode.P2Authoritative?
    ensures var res := ReservationAt(party, mode, c, n);
            && res.alphaConsume == res.gammaConsume && (res.alphaConsume.Some? ==> mode.P01Precache?)
            && RangeConsumed(f, zero, res.alphaConsume) == WindowAfter(mode, f, zero, c, n)
  {
  }

  /** and of P2's file. */
  lemma ReservedAtP2(src: Source, total: nat, mode: Mode, store: Store, alpha2: Option<seq<Row>>,
                     held: seq<nat>, bare: nat, c: nat, n: nat)
    requires P2Inv(src, total, mode, store, alpha2, held, bare, c) && c + n <= total && src.party == ID2
    ensures var zero := ZeroRow(src.layout.k);
            var after := Alpha2After(store, alpha2, zero, c, n);
            && (store.Alpha2File? ==>
                  RangeConsumed(alpha2, zero, ReservationAt(src.party, mode, c, n).alphaConsume) == after)
            && P2Inv(src, total, mode, store, after, held, bare, c + n)
  {
    if mode.P2Authoritative? {
      P2Serves(src, total, mode, store, alpha2, held, bare, c, n);
    }
  }

  /** The lazy source; `saved` says that the meta path is known. */
  class LazyEdaBits {
    const src: Source
    const dir: Dir
    var total: nat
    var cursor: nat
    var mode: Mode
    var alphaStore: Store
    var saved: bool
    /** Which item each row of P2's store holds; empty at P0 and P1. */
    ghost var held: seq<nat>
    /** Positions below this one were handed out before the rows came to P2's file. */
    ghost const bare: nat

    ghost predicate StoresAt(c: nat)
      reads this, dir
    {
      if src.party == ID2 then P2Inv(src, total, mode, alphaStore, dir.alpha2, held, bare, c)
      else held == [] && P01Inv(src, mode, alphaStore, dir.pcMeta, dir.pcAlpha, dir.pcGamma, c)
    }

    /** The meta file, once written, always carries the current cursor. */
    ghost predicate ValidMeta()
      reads this, dir
    {
      saved ==>
        && dir.meta.Some?
        && dir.meta.value == Meta(src.s1, src.s2, dir.meta.value.total, src.party, cursor, src.layout.fb)
        && dir.meta.value.total < LIMIT
    }

    /** What P2 saved covers the total it saved, and a store in memory was written out. */
    ghost predicate ValidSave()
      reads this, dir
    {
      src.party == ID2 && saved ==>
        && dir.meta.Some? && dir.meta.value.total <= total
        && (mode.P2Authoritative? && alphaStore.InMemory? && alphaStore.v != [] ==> dir.alpha2 == Some(alphaStore.v))
    }

    ghost predicate Valid()
      reads this, dir
    {
      src.Faithful() && total < LIMIT && cursor < LIMIT && ValidMeta() && ValidSave() && StoresAt(cursor)
    }

    /** The total recorded in the meta file. */
    ghost function SavedTotal(): Option<nat>
      reads this, dir
    {
      if saved && dir.meta.Some? then Some(dir.meta.value.total) else None
    }

    /**
      A fresh pool.  P2 starts from the shares it received, in memory or in its
      file; the others start from seeds alone, and no window of theirs exists.
     */
    constructor New(src: Source, dir: Dir, total: nat, store: Store)
      requires src.Faithful() && total < LIMIT
      requires src.party == ID2 ==>
        || (store.InMemory? && store.v == src.EagerRows(0, total))
        || (store.Alpha2File? && dir.alpha2 == Some(src.EagerRows(0, total)))
      requires src.party != ID2 ==> store.Empty? && (dir.pcMeta.Some? ==> !Ours(src, dir.pcMeta.value))
      ensures Valid() && this.src == src && this.dir == dir
      ensures this.total == total && cursor == 0 && !saved && alphaStore == store
      ensures mode == if src.party == ID2 then P2Authoritative else NoStore
      ensures held == (if src.party == ID2 then Range(0, total) else []) && bare == 0
    {
      this.src, this.dir := src, dir;
      this.total, cursor, saved := total, 0, false;
      mode := if src.party == ID2 then P2Authoritative else NoStore;
      alphaStore := store;
      held, bare := if src.party == ID2 then Range(0, total) else [], 0;
    }

    /** `total - cursor` as the machine computes it. */
    function Remaining(): nat
      reads this
      requires total < LIMIT && cursor < LIMIT
    {
      WrapSub(total, cursor)
    }

    // -----------------------------------------------------------------------
    // Taking
    // -----------------------------------------------------------------------

    method PersistCursor()
      modifies dir`meta
      ensures dir.meta == if saved && old(dir.meta).Some? then Some(old(dir.meta).value.(cursor := cursor))
                          else old(dir.meta)
    {
      if saved && dir.meta.Some? {
        dir.meta := Some(dir.meta.value.(cursor := cursor));
      }
    }

    /** P2 slices its store and consumes what it read. */
    method FillP2Store(c: nat, n: nat) returns (rows: seq<Row>)
      requires src.party == ID2 && StoresAt(c) && mode.P2Authoritative? && c + n <= total
      modifies dir`alpha2
      ensures rows == ServedRows(src, held, c, n)
      ensures dir.alpha2 == Alpha2After(alphaStore, old(dir.alpha2), ZeroRow(src.layout.k), c, n)
      ensures StoresAt(c + n)
    {
      P2Serves(src, total, mode, alphaStore, dir.alpha2, held, bare, c, n);
      match alphaStore {
        case Empty =>
          rows := [];
        case InMemory(v) =>
          rows := v[c..c + n];
        case Alpha2File =>
          rows := dir.alpha2.value[c..c + n];
          dir.alpha2 := Some(Consume(dir.alpha2.value, ZeroRow(src.layout.k), c, c + n));
      }
    }

    /** Serves the front of a batch from the cached window, consuming it. */
    method FillPrecache(c: nat, n: nat) returns (b: Batch)
      requires src.Faithful() && src.party != ID2 && StoresAt(c)
      modifies dir`pcAlpha, dir`pcGamma
      ensures b == src.Eager(c, CachedPart(mode, c, n))
      ensures dir.pcAlpha == WindowAfter(mode, old(dir.pcAlpha), ZeroRow(src.layout.k), c, n)
      ensures dir.pcGamma == GammaAfter(src, mode, old(dir.pcGamma), c, n)
      ensures StoresAt(c + n)
    {
      P01Serves(src, mode, alphaStore, dir.pcMeta, dir.pcAlpha, dir.pcGamma, c, n);
      if !mode.P01Precache? || c < mode.start || c >= mode.start + mode.len {
        return Batch([], []);
      }
      var cached := Min(mode.start + mode.len - c, n);
      if cached == 0 {
        return Batch([], []);
      }
      var start := c - mode.start;
      var rows := dir.pcAlpha.value[start..start + cached];
      dir.pcAlpha := Some(Consume(dir.pcAlpha.value, ZeroRow(src.layout.k), start, start + cached));
      var gammas: seq<nat>;
      if src.party == ID0 {
        gammas := dir.pcGamma.value[start..start + cached];
        dir.pcGamma := Some(Consume(dir.pcGamma.value, 0, start, start + cached));
      } else {
        gammas := ZeroGammas(src, c, cached);
      }
      b := Batch(gammas, rows);
    }

    /** P0 and P1: the window first, regeneration for the rest. */
    method FillP01(c: nat, n: nat) returns (b: Batch)
      requires src.Faithful() && src.party != ID2 && StoresAt(c)
      modifies dir`pcAlpha, dir`pcGamma
      ensures b == src.Eager(c, n)
      ensures dir.pcAlpha == WindowAfter(mode, old(dir.pcAlpha), ZeroRow(src.layout.k), c, n)
      ensures dir.pcGamma == GammaAfter(src, mode, old(dir.pcGamma), c, n)
      ensures StoresAt(c + n)
    {
      b := FillPrecache(c, n);
      var precached := |b.rows|;
      if precached < n {
        var rest := Regenerate(src, c + precached, n - precached);
        EagerJoin(src, c, precached, n - precached);
        b := Append(b, rest);
      }
    }

    method Advance(n: nat)
      requires src.Faithful() && total < LIMIT && cursor + n <= total && StoresAt(cursor + n)
      requires ValidMeta() && ValidSave()
      modifies this`cursor, dir`meta
      ensures Valid() && cursor == old(cursor) + n && SavedTotal() == old(SavedTotal())
    {
      cursor := cursor + n;
      PersistCursor();
    }

    /**
      Hands out the next `n` positions, from the store, from the window, or
      regenerated, in any mix; it fails exactly when fewer are left.  P0 and P1
      hand out the items of those positions, P2 the items its store has there.
      Of the files it zeroes exactly what leaves the pool.
     */
    method TakeBatch(n: nat) returns (r: Result<Batch>)
      requires Valid()
      modifies this`cursor, dir`meta, dir`alpha2, dir`pcAlpha, dir`pcGamma
      ensures Valid() && SavedTotal() == old(SavedTotal())
      ensures r == if old(cursor) + n <= total then Ok(Served(src, held, old(cursor), n)) else Err
      ensures src.party != ID2 ==> held == []
      ensures cursor == if r.Ok? then old(cursor) + n else old(cursor)
      ensures r.Ok? && src.party == ID2 ==>
        && dir.alpha2 == Alpha2After(alphaStore, old(dir.alpha2), ZeroRow(src.layout.k), old(cursor), n)
        && unchanged(dir`pcAlpha) && unchanged(dir`pcGamma)
      ensures r.Ok? && src.party != ID2 ==>
        && dir.pcAlpha == WindowAfter(mode, old(dir.pcAlpha), ZeroRow(src.layout.k), old(cursor), n)
        && dir.pcGamma == GammaAfter(src, mode, old(dir.pcGamma), old(cursor), n) && unchanged(dir`alpha2)
      ensures r.Err? ==> unchanged(dir)
    {
      if cursor + n > total {
        return Err;
      }
      var b := Batch([], []);
      if n == 0 {
        return Ok(b);
      }
      if src.party == ID2 {
        var rows := FillP2Store(cursor, n);
        b := Batch(ZeroGammas(src, cursor, n), rows);
      } else {
        b := FillP01(cursor, n);
      }
      Advance(n);
      r := Ok(b);
    }

    // -----------------------------------------------------------------------
    // Cached windows
    // -----------------------------------------------------------------------

    /** Generates a window chunk by chunk into files of the right size. */
    method GenerateWindow(start: nat, requested: nat, chunkLen: nat) returns (alpha: seq<Row>, gamma: seq<nat>)
      requires src.Faithful() && src.party != ID2 && 0 < chunkLen
      ensures Batch(gamma, alpha) == src.Eager(start, requested)
    {
      alpha, gamma := seq(requested, _ => []), seq(requested, _ => 0);
      var offset := 0;
      while offset < requested
        invariant 0 <= offset <= requested && |alpha| == |gamma| == requested
        invariant Batch(gamma[..offset], alpha[..offset]) == src.Eager(start, offset)
      {
        var len := Min(requested - offset, chunkLen);
        var b := Regenerate(src, start + offset, len);
        EagerJoin(src, start, offset, len);
        alpha := WriteAt(alpha, offset, b.rows);
        gamma := WriteAt(gamma, offset, b.gammas);
        offset := offset + len;
      }
    }

    method ClearPrecacheFiles()
      requires Valid()
      modifies this`mode, this`alphaStore, dir`pcAlpha, dir`pcGamma, dir`pcMeta
      ensures Valid() && SavedTotal() == old(SavedTotal())
      ensures src.party == ID2 ==> unchanged(this) && unchanged(dir)
      ensures src.party != ID2 ==> mode.NoStore? && dir.pcMeta.None?
    {
      if src.party != ID2 {
        dir.pcAlpha, dir.pcGamma, dir.pcMeta := None, None, None;
        mode, alphaStore := NoStore, Empty;
      }
    }

    predicate HasMatchingPrecache(requested: nat)
      reads this, dir
      requires total < LIMIT && cursor < LIMIT
    {
      var requested := Min(requested, Remaining());
      && requested != 0
      && mode.P01Precache? && mode.start == cursor && mode.len >= requested
      && (dir.pcAlpha.Some? && |dir.pcAlpha.value| >= requested)
      && (src.party == ID0 ==> dir.pcGamma.Some? && |dir.pcGamma.value| >= requested)
    }

    /** Caches the next `requested` items on disk; nothing that a taker sees changes. */
    method PreparePrecache(requested: nat) returns (ok: bool)
      requires Valid() && requested < LIMIT
      modifies this`mode, this`alphaStore, dir`pcAlpha, dir`pcGamma, dir`pcMeta
      ensures Valid() && SavedTotal() == old(SavedTotal())
      ensures ok <==> src.party == ID2 || requested == 0 || Remaining() == 0 || requested <= Remaining()
      ensures ok && src.party != ID2 && requested != 0 && Remaining() != 0 ==>
        && mode.P01Precache? && mode.start == cursor && mode.len >= requested
        && (!old(HasMatchingPrecache(requested)) ==> mode.len == requested)
      ensures src.party == ID2 ==> unchanged(this) && unchanged(dir)
    {
      if src.party == ID2 || requested == 0 || Remaining() == 0 {
        ClearPrecacheFiles();
        return true;
      }
      if requested > Remaining() {
        return false;
      }
      if HasMatchingPrecache(requested) {
        return true;
      }
      var targetItems := (96 * 1024 * 1024) / Max(src.layout.k * FIELD_SIZE, 1);
      var chunkLen := Min(requested, Max(targetItems, 16 * 1024));
      var alpha, gamma := GenerateWindow(cursor, requested, chunkLen);
      dir.pcAlpha := Some(alpha);
      dir.pcGamma := if src.party == ID0 then Some(gamma) else None;
      dir.pcMeta := Some(PrecacheMeta(src.s1, src.s2, src.layout.fb, total, cursor, requested, src.party));
      mode, alphaStore := P01Precache(cursor, requested), PrecacheFile;
      ok := true;
    }

    // -----------------------------------------------------------------------
    // Extension
    // -----------------------------------------------------------------------

    /** P0 and P1 only learn the new total; a window is dropped. */
    method ApplyExtension(deficit: nat)
      requires Valid() && src.party != ID2 && total + deficit < LIMIT
      modifies this`total, this`mode, this`alphaStore, dir`pcAlpha, dir`pcGamma, dir`pcMeta
      ensures Valid() && total == old(total) + deficit && SavedTotal() == old(SavedTotal())
      ensures deficit > 0 ==> mode.NoStore?
    {
      if deficit == 0 {
        return;
      }
      total := total + deficit;
      if saved {
        ClearPrecacheFiles();
      } else {
        mode, alphaStore := NoStore, Empty;
      }
    }

    /**
      P2 receives the rows P0 sent for the new items.  Only a file-backed store
      takes them, at its end: any other one is left behind while the total
      grows, so the pool stays usable exactly when its store is the file.  The
      new items are in their places exactly when the file ended at the total.
     */
    method ExtendAuthoritative(deficit: nat, received: seq<Row>)
      requires Valid() && src.party == ID2 && total + deficit < LIMIT && 0 < deficit
      requires received == src.EagerRows(total, deficit)
      modifies this`total, this`held, dir`alpha2
      ensures total == old(total) + deficit && SavedTotal() == old(SavedTotal())
      ensures Valid() <==> mode.P2Authoritative? && alphaStore.Alpha2File?
      ensures held == if mode.P2Authoritative? && alphaStore.Alpha2File? then old(held) + Range(old(total), deficit)
                      else old(held)
      ensures Valid() ==>
        (InPlace(held, |old(held)|, deficit) <==> |old(held)| == old(total))
    {
      P2Extends(src, total, mode, alphaStore, dir.alpha2, held, bare, cursor, deficit);
      AppendedInPlace(held, total, deficit);
      if alphaStore.Alpha2File? {
        dir.alpha2 := Some(dir.alpha2.value + received);
        held := held + Range(total, deficit);
      }
      total := total + deficit;
    }

    // -----------------------------------------------------------------------
    // Persistence
    // -----------------------------------------------------------------------

    method Save()
      requires Valid()
      modifies this`saved, dir`meta, dir`alpha2
      ensures Valid() && saved && SavedTotal() == Some(total)
      ensures dir.alpha2 == if mode.P2Authoritative? && alphaStore.InMemory? && alphaStore.v != []
                            then Some(alphaStore.v) else old(dir.alpha2)
    {
      if mode.P2Authoritative? && alphaStore.InMemory? && alphaStore.v != [] {
        dir.alpha2 := Some(alphaStore.v);
      }
      dir.meta := Some(Meta(src.s1, src.s2, total, src.party, cursor, src.layout.fb));
      saved := true;
    }

    /**
      The pool restored from its directory.  P2 reopens its file, whatever it
      holds behind the saved total.  P0 and P1 take over a window only if it
      belongs to this pool and total and starts at the cursor; a stale one is
      deleted.
     */
    constructor Load(dir: Dir, known: Source, ghost writer: LazyEdaBits)
      requires writer.Valid() && writer.saved && writer.dir == dir && writer.src == known
      modifies dir`pcAlpha, dir`pcGamma, dir`pcMeta
      ensures Valid() && src == known && this.dir == dir && saved
      ensures cursor == writer.cursor && SavedTotal() == old(writer.SavedTotal()) == Some(total)
      ensures mode.P01Precache? ==> mode.start == cursor
      ensures known.party == ID2 ==>
        && held == (if total > 0 then writer.held else [])
        && (mode.P2Authoritative? <==> total > 0) && (alphaStore.Alpha2File? <==> total > 0)
    {
      var meta := dir.meta.value;
      this.dir := dir;
      src := known.(s1 := meta.s1, s2 := meta.s2, layout := known.layout.(fb := meta.fb));
      total, cursor, saved := meta.total, meta.cursor, true;
      var fits := false;
      if known.party != ID2 && dir.pcMeta.Some? {
        var m := dir.pcMeta.value;
        fits := && Ours(known, m) && m.total == meta.total && m.start == meta.cursor
                && dir.pcAlpha.Some? && m.len <= |dir.pcAlpha.value|
                && (known.party == ID0 ==> dir.pcGamma.Some? && m.len <= |dir.pcGamma.value|);
      }
      if known.party == ID2 && meta.total > 0 {
        mode, alphaStore := P2Authoritative, Alpha2File;
      } else if fits {
        mode, alphaStore := P01Precache(dir.pcMeta.value.start, dir.pcMeta.value.len), PrecacheFile;
      } else {
        mode, alphaStore := NoStore, Empty;
      }
      held := if known.party == ID2 && meta.total > 0 then writer.held else [];
      bare := if writer.alphaStore.Alpha2File? then writer.bare else writer.cursor;
      new;
      if known.party != ID2 && !fits && dir.pcMeta.Some? {
        dir.pcAlpha, dir.pcGamma, dir.pcMeta := None, None, None;
      }
    }

    // -----------------------------------------------------------------------
    // Reservations
    // -----------------------------------------------------------------------

    /** Reserves the next `n` items without moving the cursor. */
    method ReserveRange(n: nat) returns (r: Result<Reservation>)
      requires Valid()
      ensures r.Ok? <==> cursor + n <= total
      ensures r.Ok? ==> r.value == ReservationAt(src.party, mode, cursor, n)
    {
      if cursor + n > total {
        return Err;
      }
      match mode {
        case P2Authoritative =>
          r := Ok(Reservation(View(cursor, n, cursor, n, 0, true, false), Some((cursor, cursor + n)), None));
        case P01Precache(start, len) =>
          var cached := if cursor < start || cursor >= start + len then 0 else Min(start + len - cursor, n);
          var range := if cached > 0 then Some((cursor - start, cursor - start + cached)) else None;
          var root := View(cursor, n, start, len, start, cached > 0, cached > 0 && src.party == ID0);
          r := Ok(Reservation(root, range, range));
        case NoStore =>
          r := Ok(Reservation(View(cursor, n, 0, 0, 0, false, false), None, None));
      }
    }

    /** The rows a view reads; the store checks the range. */
    method ReadRows(v: View, n: nat) returns (r: Result<seq<Row>>)
      requires v.storeStart <= v.start
      ensures r == if !v.hasAlpha || v.start - v.storeStart + n > |StoreRows()| then Err
                   else Ok(StoreRows()[v.start - v.storeStart..v.start - v.storeStart + n])
    {
      var start := v.start - v.storeStart;
      var rows := match alphaStore
        case Empty => []
        case InMemory(v) => v
        case Alpha2File => if dir.alpha2.Some? then dir.alpha2.value else []
        case PrecacheFile => if dir.pcAlpha.Some? then dir.pcAlpha.value else [];
      if !v.hasAlpha || start + n > |rows| {
        return Err;
      }
      r := Ok(rows[start..start + n]);
    }

    method ReadGammas(v: View, n: nat) returns (r: Result<seq<nat>>)
      requires v.storeStart <= v.start
      ensures r == if !v.hasGamma || dir.pcGamma.None? || v.start - v.storeStart + n > |dir.pcGamma.value| then Err
                   else Ok(dir.pcGamma.value[v.start - v.storeStart..v.start - v.storeStart + n])
    {
      var start := v.start - v.storeStart;
      if !v.hasGamma || dir.pcGamma.None? || start + n > |dir.pcGamma.value| {
        return Err;
      }
      r := Ok(dir.pcGamma.value[start..start + n]);
    }

    ghost function StoreRows(): seq<Row>
      reads this, dir
    {
      if alphaStore.PrecacheFile? then (if dir.pcAlpha.Some? then dir.pcAlpha.value else [])
      else ContentsOf(alphaStore, dir.alpha2)
    }

    /** The view starts in the store, whose range covers its front except past the end of a window. */
    ghost predicate Covered(v: View, cached: nat)
      reads this
    {
      mode.P01Precache? ==> v.start + cached <= mode.start + mode.len
    }

    lemma RowsThere(v: View, cached: nat, n: nat)
      requires Valid() && cursor + n <= total && ViewOf(v, ReservationAt(src.party, mode, cursor, n).root)
      requires 0 < cached <= v.len && !mode.NoStore?
      ensures v.storeStart <= v.start && (src.party == ID0 ==> mode.P01Precache?)
      ensures Covered(v, cached) <==> v.hasAlpha && v.start - v.storeStart + cached <= |StoreRows()|
      ensures Covered(v, cached) ==>
        StoreRows()[v.start - v.storeStart..v.start - v.storeStart + cached] == ServedRows(src, held, v.start, cached)
    {
    }

    lemma GammasThere(v: View, cached: nat, n: nat)
      requires Valid() && cursor + n <= total && ViewOf(v, ReservationAt(src.party, mode, cursor, n).root)
      requires 0 < cached <= v.len && mode.P01Precache? && src.party == ID0 && Covered(v, cached)
      ensures v.storeStart <= v.start && v.hasGamma
      ensures dir.pcGamma.Some? && v.start - v.storeStart + cached <= |dir.pcGamma.value|
      ensures dir.pcGamma.value[v.start - v.storeStart..v.start - v.storeStart + cached]
           == src.EagerGammas(v.start, cached)
    {
    }

    /** Reads the front of a view from the store: it is there exactly if the store's range covers it. */
    method ReadCached(v: View, cached: nat, n: nat) returns (r: Result<Batch>)
      requires Valid() && cursor + n <= total && ViewOf(v, ReservationAt(src.party, mode, cursor, n).root)
      requires 0 < cached <= v.len && !mode.NoStore?
      ensures r == if mode.P01Precache? && v.start + cached > mode.start + mode.len then Err
                   else Ok(Served(src, held, v.start, cached))
    {
      RowsThere(v, cached, n);
      var rows := ReadRows(v, cached);
      if rows.Err? {
        return Err;
      }
      if src.party == ID0 {
        GammasThere(v, cached, n);
        var gammas := ReadGammas(v, cached);
        if gammas.Err? {
          return Err;
        }
        r := Ok(Batch(gammas.value, rows.value));
      } else {
        r := Ok(Batch(ZeroGammas(src, v.start, cached), rows.value));
      }
    }

    /**
      Fills one view of a reservation.  The number of cached items is computed
      by an unguarded machine subtraction: a view that starts past the end of
      the cached window wraps around and fails, every other view gets its items.
     */
    method FillView(v: View, n: nat) returns (r: Result<Batch>)
      requires Valid() && cursor + n <= total && ViewOf(v, ReservationAt(src.party, mode, cursor, n).root)
      ensures r == if v.len == 0 || WindowReaches(mode, v.start) then Ok(Served(src, held, v.start, v.len)) else Err
    {
      if v.len == 0 {
        return Ok(Batch([], []));
      }
      var cached := if v.cachedLen == 0 || v.start < v.cachedStart then 0
                    else Min(WrapSub(v.cachedStart + v.cachedLen, v.start), v.len);
      var b := Batch([], []);
      if cached > 0 {
        var front := ReadCached(v, cached, n);
        if front.Err? {
          return Err;
        }
        b := front.value;
      }
      if cached < v.len {
        if src.party == ID2 {
          return Err;
        }
        var rest := Regenerate(src, v.start + cached, v.len - cached);
        ServedJoin(src, held, v.start, cached, v.len - cached);
        b := Append(b, rest);
      }
      r := Ok(b);
    }

    /** Consumes the store ranges of a reservation. */
    method ConsumeReserved(res: Reservation, n: nat)
      requires StoresAt(cursor) && cursor + n <= total && res == ReservationAt(src.party, mode, cursor, n)
      modifies dir`alpha2, dir`pcAlpha, dir`pcGamma
      ensures StoresAt(cursor + n)
      ensures src.party == ID2 ==>
        && dir.alpha2 == Alpha2After(alphaStore, old(dir.alpha2), ZeroRow(src.layout.k), cursor, n)
        && unchanged(dir`pcAlpha) && unchanged(dir`pcGamma)
      ensures src.party != ID2 ==>
        && dir.pcAlpha == WindowAfter(mode, old(dir.pcAlpha), ZeroRow(src.layout.k), cursor, n)
        && dir.pcGamma == GammaAfter(src, mode, old(dir.pcGamma), cursor, n) && unchanged(dir`alpha2)
    {
      ghost var zero := ZeroRow(src.layout.k);
      if src.party == ID2 {
        ReservedAtP2(src, total, mode, alphaStore, dir.alpha2, held, bare, cursor, n);
        ConsumeAlpha(res.alphaConsume);
        return;
      }
      P01Serves(src, mode, alphaStore, dir.pcMeta, dir.pcAlpha, dir.pcGamma, cursor, n);
      ReservedInWindow(src.party, mode, dir.pcAlpha, zero, cursor, n);
      ReservedInWindow(src.party, mode, dir.pcGamma, 0, cursor, n);
      ConsumeAlpha(res.alphaConsume);
      if src.party == ID0 {
        ConsumeGamma(res.gammaConsume);
      }
    }

    /** Zeroes a range of the file behind the store, if there is one. */
    method ConsumeAlpha(range: Option<(nat, nat)>)
      requires range.Some? && alphaStore.Alpha2File? ==> dir.alpha2.Some?
      requires range.Some? && alphaStore.PrecacheFile? ==> dir.pcAlpha.Some?
      modifies dir`alpha2, dir`pcAlpha
      ensures dir.alpha2 == if alphaStore.Alpha2File? then RangeConsumed(old(dir.alpha2), ZeroRow(src.layout.k), range)
                            else old(dir.alpha2)
      ensures dir.pcAlpha == if alphaStore.PrecacheFile? then
                               RangeConsumed(old(dir.pcAlpha), ZeroRow(src.layout.k), range)
                             else old(dir.pcAlpha)
    {
      if range.Some? {
        var (start, end) := range.value;
        if alphaStore.Alpha2File? {
          dir.alpha2 := Some(Consume(dir.alpha2.value, ZeroRow(src.layout.k), start, end));
        } else if alphaStore.PrecacheFile? {
          dir.pcAlpha := Some(Consume(dir.pcAlpha.value, ZeroRow(src.layout.k), start, end));
        }
      }
    }

    method ConsumeGamma(range: Option<(nat, nat)>)
      requires range.Some? ==> dir.pcGamma.Some?
      modifies dir`pcGamma
      ensures dir.pcGamma == RangeConsumed(old(dir.pcGamma), 0, range)
    {
      if range.Some? {
        var (start, end) := range.value;
        dir.pcGamma := Some(Consume(dir.pcGamma.value, 0, start, end));
      }
    }

    /** Moves the cursor over a reserved range and consumes its part of the stores. */
    method FinalizeReservedRange(res: Reservation, n: nat)
      requires Valid() && cursor + n <= total && res == ReservationAt(src.party, mode, cursor, n)
      modifies this`cursor, dir`meta, dir`alpha2, dir`pcAlpha, dir`pcGamma
      ensures Valid() && SavedTotal() == old(SavedTotal()) && cursor == old(cursor) + n
      ensures src.party == ID2 ==>
        && dir.alpha2 == Alpha2After(alphaStore, old(dir.alpha2), ZeroRow(src.layout.k), old(cursor), n)
        && unchanged(dir`pcAlpha) && unchanged(dir`pcGamma)
      ensures src.party != ID2 ==>
        && dir.pcAlpha == WindowAfter(mode, old(dir.pcAlpha), ZeroRow(src.layout.k), old(cursor), n)
        && dir.pcGamma == GammaAfter(src, mode, old(dir.pcGamma), old(cursor), n) && unchanged(dir`alpha2)
    {
      ConsumeReserved(res, n);
      Advance(n);
    }

    /**
      A forked batch: reserve, let every chunk fill its own view, finalize.  It
      yields exactly what `TakeBatch` would and leaves the pool as `TakeBatch`
      would, if and only if there are forks and scratch buffers for the chunks
      and no chunk starts past the end of the cached window; otherwise it fails
      and nothing is taken.
     */
    method TakeForked(n: nat, chunk: Option<nat>, forks: nat, scratch: nat) returns (r: Result<Batch>)
      requires Valid()
      modifies this`cursor, dir`meta, dir`alpha2, dir`pcAlpha, dir`pcGamma
      ensures Valid() && SavedTotal() == old(SavedTotal())
      ensures r == if && old(cursor) + n <= total
                      && (n == 0 || (Enough(n, chunk, forks, scratch)
                                     && WindowReaches(mode, old(cursor) + LastView(n, chunk, forks))))
                   then Ok(Served(src, held, old(cursor), n)) else Err
      ensures cursor == if r.Ok? then old(cursor) + n else old(cursor)
      ensures r.Ok? && src.party == ID2 ==>
        && dir.alpha2 == Alpha2After(alphaStore, old(dir.alpha2), ZeroRow(src.layout.k), old(cursor), n)
        && unchanged(dir`pcAlpha) && unchanged(dir`pcGamma)
      ensures r.Ok? && src.party != ID2 ==>
        && dir.pcAlpha == WindowAfter(mode, old(dir.pcAlpha), ZeroRow(src.layout.k), old(cursor), n)
        && dir.pcGamma == GammaAfter(src, mode, old(dir.pcGamma), old(cursor), n) && unchanged(dir`alpha2)
      ensures r.Err? ==> unchanged(dir)
    {
      var reserved := ReserveRange(n);
      if reserved.Err? {
        return Err;
      }
      r := FillForked(reserved.value.root, n, chunk, forks, scratch);
      if r.Ok? {
        FinalizeReservedRange(reserved.value, n);
      }
    }

    /** Fills one chunk behind those that are done. */
    method FillChunk(root: View, n: nat, start: nat, len: nat, done: Batch) returns (r: Result<Batch>)
      requires Valid() && cursor + n <= total && root == ReservationAt(src.party, mode, cursor, n).root
      requires 0 < len && start + len <= n && done == Served(src, held, cursor, start)
      ensures r == if WindowReaches(mode, cursor + start) then Ok(Served(src, held, cursor, start + len)) else Err
    {
      r := FillView(RangeView(root, start, len), n);
      ServedJoin(src, held, cursor, start, len);
      if r.Ok? {
        r := Ok(Append(done, r.value));
      }
    }

    /** Fills a batch with one view, or with one view per fork. */
    method FillForked(root: View, n: nat, chunk: Option<nat>, forks: nat, scratch: nat) returns (r: Result<Batch>)
      requires Valid() && cursor + n <= total && root == ReservationAt(src.party, mode, cursor, n).root
      ensures r == if n == 0 || (Enough(n, chunk, forks, scratch)
                                 && WindowReaches(mode, cursor + LastView(n, chunk, forks)))
                   then Ok(Served(src, held, cursor, n)) else Err
    {
      if n == 0 {
        return Ok(Batch([], []));
      }
      var size := ChunkSize(n, chunk, forks);
      if size == 0 {
        return Err;
      }
      if forks == 0 || n <= size {
        if scratch == 0 {
          return Err;
        }
        r := FillChunk(root, n, 0, n, Batch([], []));
        return;
      }
      var chunks := CeilDiv(n, size);
      if scratch < chunks || forks < chunks {
        return Err;
      }
      r := FillChunks(root, n, size);
    }

    /** Fills the chunk views of a reservation and joins them in order. */
    method FillChunks(root: View, n: nat, chunk: nat) returns (r: Result<Batch>)
      requires Valid() && 0 < chunk && cursor + n <= total && root == ReservationAt(src.party, mode, cursor, n).root
      ensures r == if n == 0 || WindowReaches(mode, cursor + LastChunk(n, chunk))
                   then Ok(Served(src, held, cursor, n)) else Err
    {
      var start: nat := 0;
      r := Ok(Batch([], []));
      while start < n
        invariant start <= n && r == Ok(Served(src, held, cursor, start))
        invariant start < n ==> LastChunk(n, chunk) == start + LastChunk(n - start, chunk)
        invariant start == n > 0 ==> WindowReaches(mode, cursor + LastChunk(n, chunk))
      {
        var len := Min(n - start, chunk);
        r := FillChunk(root, n, start, len, r.value);
        WindowShrinks(mode, cursor + start, LastChunk(n - start, chunk));
        if r.Err? {
          return;
        }
        start := start + len;
      }
    }
  }

  /** The chunk size asked for, or the one that spreads `n` items over all forks. */
  function ChunkSize(n: nat, chunk: Option<nat>, forks: nat): nat {
    if chunk.Some? then chunk.value else if forks == 0 then n else CeilDiv(n, forks)
  }

  /** There is a fork and a scratch buffer for every chunk; a batch that is not split needs one buffer only. */
  predicate Enough(n: nat, chunk: Option<nat>, forks: nat, scratch: nat) {
    var size := ChunkSize(n, chunk, forks);
    && size != 0
    && if forks == 0 || n <= size then scratch >= 1 else CeilDiv(n, size) <= Min(scratch, forks)
  }

  /** Where the last view of a forked batch starts. */
  function LastView(n: nat, chunk: Option<nat>, forks: nat): nat {
    var size := ChunkSize(n, chunk, forks);
    if forks == 0 || size == 0 then 0 else LastChunk(n, size)
  }

  /** With the default chunk size the forks always suffice: a scratch buffer per fork is enough. */
  lemma DefaultChunksFit(n: nat, forks: nat, scratch: nat)
    requires 0 < n && Max(forks, 1) <= scratch
    ensures Enough(n, None, forks, scratch)
  {
    if forks > 0 {
      Forks.ForksWithinLimit(n, forks);
    }
  }

  /** Where the last chunk of `n` items starts. */
  function LastChunk(n: nat, chunk: nat): nat
    requires 0 < chunk
  {
    if n <= chunk then 0 else chunk + LastChunk(n - chunk, chunk)
  }

  /** A range of a reservation, with what its reader needs to know about the store. */
  datatype View = View(start: nat, len: nat, cachedStart: nat, cachedLen: nat, storeStart: nat,
                       hasAlpha: bool, hasGamma: bool)

  /** A reserved range and the store ranges to consume when it is finalized. */
  datatype Reservation = Reservation(root: View, alphaConsume: Option<(nat, nat)>, gammaConsume: Option<(nat, nat)>)

  function RangeView(root: View, start: nat, len: nat): View {
    root.(start := root.start + start, len := len)
  }

  /** A reservation of `n` items by a pool in this state. */
  function ReservationAt(party: PartyId, mode: Mode, cursor: nat, n: nat): Reservation {
    match mode
    case P2Authoritative =>
      Reservation(View(cursor, n, cursor, n, 0, true, false), Some((cursor, cursor + n)), None)
    case P01Precache(start, len) =>
      var cached := CachedPart(mode, cursor, n);
      var range := if cached > 0 && start <= cursor then Some((cursor - start, cursor - start + cached)) else None;
      Reservation(View(cursor, n, start, len, start, cached > 0, cached > 0 && party == ID0), range, range)
    case NoStore =>
      Reservation(View(cursor, n, 0, 0, 0, false, false), None, None)
  }

  /** A view into a reservation. */
  predicate ViewOf(v: View, root: View) {
    && v == root.(start := v.start, len := v.len)
    && root.start <= v.start && v.start + v.len <= root.start + root.len
  }

  /** The end of the cached window, if there is one, is not before this item. */
  predicate WindowReaches(mode: Mode, start: nat) {
    mode.P01Precache? ==> start <= mode.start + mode.len
  }

  lemma WindowShrinks(mode: Mode, start: nat, more: nat)
    ensures WindowReaches(mode, start + more) ==> WindowReaches(mode, start)
  {
  }

  /**
    A window of four items and a batch of eight in chunks of three: the last
    view starts past the window, so the forked batch fails where the plain one
    does not.
   */
  method ForkedBatchMissesWindow(pool: LazyEdaBits) returns (forked: Result<Batch>, plain: Result<Batch>)
    requires pool.Valid() && pool.src.party != ID2 && pool.mode.NoStore? && pool.cursor + 8 <= pool.total
    modifies pool, pool.dir
    ensures forked.Err? && plain == Ok(pool.src.Eager(old(pool.cursor), 8))
  {
    var ok := pool.PreparePrecache(4);
    assert LastChunk(2, 3) == 0 && LastChunk(5, 3) == 3;
    forked := pool.TakeForked(8, Some(3), 3, 3);
    plain := pool.TakeBatch(8);
  }
}
