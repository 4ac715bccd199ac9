/**
  The accumulator of opening claims: openings by id, an index by polynomial and
  point, and aliases for ids whose polynomial was already opened at the point.
 */
module OpeningAccumulator {
  import opened Wrappers
  import opened Field

  datatype PolyId = CommittedPoly(p: nat) | VirtualPoly(p: nat) | ReducedPoly(i: nat) | UntrustedPoly | TrustedPoly

  datatype OpeningId =
    Committed(p: nat, sumcheck: nat) | Virtual(p: nat, sumcheck: nat) | Reduced(i: nat) | Untrusted | Trusted

  function Underlying(id: OpeningId): PolyId {
    match id
    case Committed(p, _) => CommittedPoly(p)
    case Virtual(p, _) => VirtualPoly(p)
    case Reduced(i) => ReducedPoly(i)
    case Untrusted => UntrustedPoly
    case Trusted => TrustedPoly
  }

  /** Two ids stand for one polynomial: the same id, or the same committed or virtual polynomial in two sumchecks. */
  predicate SamePolynomial(a: OpeningId, b: OpeningId)
    ensures SamePolynomial(a, b) <==> Underlying(a) == Underlying(b)
  {
    || a == b
    || (a.Committed? && b.Committed? && a.p == b.p)
    || (a.Virtual? && b.Virtual? && a.p == b.p)
  }

  type Point = seq<Fe>

  datatype Opening = Opening(point: Point, claim: Fe)

  datatype Tables = Tables(openings: map<OpeningId, Opening>, index: map<(PolyId, Point), OpeningId>,
                           aliases: map<OpeningId, OpeningId>)

  /** The result of a registration: the id the claim goes under, and whether it is new. */
  datatype Registered = Registered(t: Tables, id: OpeningId, isNew: bool)

  /** A registration; an inconsistent duplicate claim aborts. */
  function Register(t: Tables, key: OpeningId, point: Point, claim: Fe): Option<Registered> {
    var slot := (Underlying(key), point);
    if slot in t.index && t.index[slot] in t.openings then
      var existing := t.index[slot];
      if existing != key && t.openings[existing].claim != claim then None
      else
        var aliases := if existing != key then t.aliases[key := existing] else t.aliases;
        Some(Registered(t.(openings := t.openings[key := Opening(point, claim)], aliases := aliases), existing, false))
    else
      var index := if point != [] then t.index[slot := key] else t.index;
      Some(Registered(t.(openings := t.openings[key := Opening(point, claim)], index := index), key, true))
  }

  /** The id that holds an opening: itself, or the one it is an alias of. */
  function Canonical(t: Tables, key: OpeningId): OpeningId {
    if key in t.aliases then t.aliases[key] else key
  }

  // -------------------------------------------------------------------------
  // The invariant
  // -------------------------------------------------------------------------

  /** The index lists, for a non-empty point, an id of that polynomial opened there, which is no alias. */
  ghost predicate IndexSound(t: Tables) {
    forall slot :: slot in t.index ==>
      && slot.1 != [] && t.index[slot] in t.openings && t.index[slot] !in t.aliases
      && Underlying(t.index[slot]) == slot.0 && t.openings[t.index[slot]].point == slot.1
  }

  /** An alias leads in one step to the indexed id of the same polynomial and point, with the same claim. */
  ghost predicate AliasesSound(t: Tables) {
    forall k :: k in t.aliases ==>
      && k in t.openings && var slot := (Underlying(k), t.openings[k].point);
      slot in t.index && t.index[slot] == t.aliases[k] && t.aliases[k] in t.openings
      && t.openings[t.aliases[k]] == t.openings[k]
  }

  /** Every opening at a non-empty point is indexed, under itself or the id it is an alias of. */
  ghost predicate IndexComplete(t: Tables) {
    forall k :: k in t.openings && t.openings[k].point != [] ==>
      var slot := (Underlying(k), t.openings[k].point);
      slot in t.index && t.index[slot] == Canonical(t, k)
  }

  ghost predicate Sound(t: Tables) {
    IndexSound(t) && AliasesSound(t) && IndexComplete(t)
  }

  /** An id without a place in the index: never registered, or only at the empty point. */
  predicate Unplaced(t: Tables, key: OpeningId) {
    key in t.openings ==> t.openings[key].point == []
  }

  /** What registering such an id does to the tables: a new index entry, or an alias of the indexed id. */
  ghost predicate Step(t: Tables, t': Tables, key: OpeningId, o: Opening, id: OpeningId, isNew: bool) {
    var slot := (Underlying(key), o.point);
    && Unplaced(t, key) && t'.openings == t.openings[key := o]
    && (if isNew then
          id == key && slot !in t.index && t'.aliases == t.aliases
          && t'.index == if o.point == [] then t.index else t.index[slot := key]
        else
          slot in t.index && id == t.index[slot] && id in t.openings && t.openings[id] == o
          && t'.index == t.index && t'.aliases == t.aliases[key := id])
  }

  /** Nothing in the tables leads to an id without a place. */
  lemma UnplacedIsFree(t: Tables, key: OpeningId)
    requires Sound(t) && Unplaced(t, key)
    ensures key !in t.aliases && (forall slot :: slot in t.index ==> t.index[slot] != key)
    ensures forall k :: k in t.aliases ==> t.aliases[k] != key
  {
  }

  lemma RegisterSteps(t: Tables, key: OpeningId, point: Point, claim: Fe)
    requires Sound(t) && Unplaced(t, key) && Register(t, key, point, claim).Some?
    ensures var r := Register(t, key, point, claim).value; Step(t, r.t, key, Opening(point, claim), r.id, r.isNew)
  {
    UnplacedIsFree(t, key);
  }

  lemma StepIndexSound(t: Tables, t': Tables, key: OpeningId, o: Opening, id: OpeningId, isNew: bool)
    requires Sound(t) && Step(t, t', key, o, id, isNew)
    ensures IndexSound(t')
  {
    UnplacedIsFree(t, key);
  }

  lemma StepAliasesSound(t: Tables, t': Tables, key: OpeningId, o: Opening, id: OpeningId, isNew: bool)
    requires Sound(t) && Step(t, t', key, o, id, isNew)
    ensures AliasesSound(t')
  {
    UnplacedIsFree(t, key);
    forall k | k in t'.aliases
      ensures k in t'.openings && (Underlying(k), t'.openings[k].point) in t'.index
      ensures t'.index[(Underlying(k), t'.openings[k].point)] == t'.aliases[k] && t'.aliases[k] in t'.openings
      ensures t'.openings[t'.aliases[k]] == t'.openings[k]
    {
      if k != key {
        assert k in t.aliases && t.openings[k] == t'.openings[k];
      }
    }
  }

  lemma StepIndexComplete(t: Tables, t': Tables, key: OpeningId, o: Opening, id: OpeningId, isNew: bool)
    requires Sound(t) && Step(t, t', key, o, id, isNew)
    ensures IndexComplete(t')
  {
    UnplacedIsFree(t, key);
    forall k | k in t'.openings && t'.openings[k].point != []
      ensures (Underlying(k), t'.openings[k].point) in t'.index
      ensures t'.index[(Underlying(k), t'.openings[k].point)] == Canonical(t', k)
    {
      if k != key {
        assert t.openings[k] == t'.openings[k] && (Underlying(k), t.openings[k].point) in t.index;
      }
    }
  }

  /** Registering an id without a place keeps the invariant. */
  lemma RegisterSound(t: Tables, key: OpeningId, point: Point, claim: Fe)
    requires Sound(t) && Unplaced(t, key) && Register(t, key, point, claim).Some?
    ensures Sound(Register(t, key, point, claim).value.t)
  {
    var r := Register(t, key, point, claim).value;
    RegisterSteps(t, key, point, claim);
    StepIndexSound(t, r.t, key, Opening(point, claim), r.id, r.isNew);
    StepAliasesSound(t, r.t, key, Opening(point, claim), r.id, r.isNew);
    StepIndexComplete(t, r.t, key, Opening(point, claim), r.id, r.isNew);
  }

  // -------------------------------------------------------------------------
  // Registering an id again
  // -------------------------------------------------------------------------

  /**
    When an id may be registered: it has no place yet; it is an alias and its
    polynomial was opened at the new point too; or it is indexed, at the same
    point, and its claim stays the same unless no other id relies on it.
   */
  ghost predicate MayRegister(t: Tables, key: OpeningId, point: Point, claim: Fe) {
    || Unplaced(t, key)
    || (key in t.aliases && (Underlying(key), point) in t.index)
    || (key !in t.aliases && t.openings[key].point == point
        && (t.openings[key].claim == claim || forall k :: k in t.aliases ==> t.aliases[k] != key))
  }

  /** What moving an alias to another indexed point does to the tables. */
  ghost predicate Moves(t: Tables, t': Tables, key: OpeningId, o: Opening) {
    var slot := (Underlying(key), o.point);
    && key in t.aliases && slot in t.index && t.index[slot] in t.openings && t.openings[t.index[slot]] == o
    && t' == Tables(t.openings[key := o], t.index, t.aliases[key := t.index[slot]])
  }

  /** Nothing in the tables leads to an alias. */
  lemma AliasIsFree(t: Tables, key: OpeningId)
    requires Sound(t) && key in t.aliases
    ensures forall slot :: slot in t.index ==> t.index[slot] != key
    ensures forall k :: k in t.aliases ==> t.aliases[k] != key
  {
  }

  lemma MovesAliasesSound(t: Tables, t': Tables, key: OpeningId, o: Opening)
    requires Sound(t) && Moves(t, t', key, o)
    ensures AliasesSound(t')
  {
    AliasIsFree(t, key);
    forall k | k in t'.aliases
      ensures k in t'.openings && (Underlying(k), t'.openings[k].point) in t'.index
      ensures t'.index[(Underlying(k), t'.openings[k].point)] == t'.aliases[k] && t'.aliases[k] in t'.openings
      ensures t'.openings[t'.aliases[k]] == t'.openings[k]
    {
      if k != key {
        assert k in t.aliases && t.openings[k] == t'.openings[k];
      }
    }
  }

  lemma MovesIndexComplete(t: Tables, t': Tables, key: OpeningId, o: Opening)
    requires Sound(t) && Moves(t, t', key, o)
    ensures IndexComplete(t')
  {
    AliasIsFree(t, key);
    forall k | k in t'.openings && t'.openings[k].point != []
      ensures (Underlying(k), t'.openings[k].point) in t'.index
      ensures t'.index[(Underlying(k), t'.openings[k].point)] == Canonical(t', k)
    {
      if k != key {
        assert t.openings[k] == t'.openings[k] && (Underlying(k), t.openings[k].point) in t.index;
      }
    }
  }

  lemma MovesSound(t: Tables, t': Tables, key: OpeningId, o: Opening)
    requires Sound(t) && Moves(t, t', key, o)
    ensures Sound(t')
  {
    AliasIsFree(t, key);
    MovesAliasesSound(t, t', key, o);
    MovesIndexComplete(t, t', key, o);
  }

  /** An alias that moves to another indexed point keeps the invariant; one that moves anywhere else breaks it. */
  lemma AliasAgain(t: Tables, key: OpeningId, point: Point, claim: Fe)
    requires Sound(t) && key in t.openings && key in t.aliases && Register(t, key, point, claim).Some?
    ensures Sound(Register(t, key, point, claim).value.t) <==> (Underlying(key), point) in t.index
  {
    var slot, t' := (Underlying(key), point), Register(t, key, point, claim).value.t;
    AliasIsFree(t, key);
    if slot in t.index {
      MovesSound(t, t', key, Opening(point, claim));
    } else if point != [] {
      assert t'.index[slot] == key && key in t'.aliases;
    } else {
      assert key in t'.aliases && t'.openings[key].point == [];
    }
  }

  /** An indexed id that moves to another point leaves an index entry that lies. */
  lemma IndexedMoves(t: Tables, key: OpeningId, point: Point, claim: Fe)
    requires Sound(t) && key in t.openings && key !in t.aliases && t.openings[key].point != []
    requires Register(t, key, point, claim).Some? && t.openings[key].point != point
    ensures !Sound(Register(t, key, point, claim).value.t)
  {
    var slot, t' := (Underlying(key), t.openings[key].point), Register(t, key, point, claim).value.t;
    assert t.index[slot] == key && t'.index[slot] == key;
  }

  /** An indexed id may get another claim at its point exactly if no alias leads to it. */
  lemma IndexedAgain(t: Tables, key: OpeningId, claim: Fe)
    requires Sound(t) && key in t.openings && key !in t.aliases && t.openings[key].point != []
    requires Register(t, key, t.openings[key].point, claim).Some?
    ensures Sound(Register(t, key, t.openings[key].point, claim).value.t)
       <==> t.openings[key].claim == claim || forall k :: k in t.aliases ==> t.aliases[k] != key
  {
    var point := t.openings[key].point;
    var t' := Register(t, key, point, claim).value.t;
    assert t.index[(Underlying(key), point)] == key;
    assert t' == t.(openings := t.openings[key := Opening(point, claim)]);
    if t.openings[key].claim == claim {
      assert t'.openings == t.openings;
    } else if k :| k in t.aliases && t.aliases[k] == key {
      assert t'.openings[k].claim == t.openings[key].claim != claim;
    } else {
      assert forall k :: k in t'.openings ==> t'.openings[k].point == t.openings[k].point;
      assert AliasesSound(t');
    }
  }

  /** A registration that does not abort keeps the invariant if and only if the id may be registered there. */
  lemma RegisterSoundIff(t: Tables, key: OpeningId, point: Point, claim: Fe)
    requires Sound(t) && Register(t, key, point, claim).Some?
    ensures Sound(Register(t, key, point, claim).value.t) <==> MayRegister(t, key, point, claim)
  {
    if Unplaced(t, key) {
      RegisterSound(t, key, point, claim);
    } else if key in t.aliases {
      AliasAgain(t, key, point, claim);
    } else if t.openings[key].point == point {
      IndexedAgain(t, key, claim);
    } else {
      IndexedMoves(t, key, point, claim);
    }
  }

  /** The polynomial has not been opened at this point; at the empty point that never counts as opened. */
  ghost predicate Unopened(t: Tables, key: OpeningId, point: Point) {
    point == [] || forall id :: id in t.openings && SamePolynomial(id, key) ==> t.openings[id].point != point
  }

  /** Another id, no alias, has a different claim for the polynomial at this point. */
  ghost predicate Clashes(t: Tables, key: OpeningId, point: Point, claim: Fe) {
    point != [] && exists id ::
      && id in t.openings && id !in t.aliases && id != key
      && SamePolynomial(id, key) && t.openings[id].point == point && t.openings[id].claim != claim
  }

  lemma IndexedIff(t: Tables, key: OpeningId, point: Point)
    requires Sound(t)
    ensures (Underlying(key), point) in t.index <==> !Unopened(t, key, point)
  {
    var slot := (Underlying(key), point);
    if slot in t.index {
      var id := t.index[slot];
      assert id in t.openings && SamePolynomial(id, key) && t.openings[id].point == point;
    }
    if id :| point != [] && id in t.openings && SamePolynomial(id, key) && t.openings[id].point == point {
      assert (Underlying(id), t.openings[id].point) == slot;
    }
  }

  /** When a registration aborts, and when it is new, in terms of the ids on record. */
  lemma RegisterIff(t: Tables, key: OpeningId, point: Point, claim: Fe)
    requires Sound(t)
    ensures Register(t, key, point, claim).None? <==> Clashes(t, key, point, claim)
    ensures Register(t, key, point, claim).Some? ==>
      (Register(t, key, point, claim).value.isNew <==> Unopened(t, key, point))
  {
    var slot := (Underlying(key), point);
    IndexedIff(t, key, point);
    if slot in t.index {
      var id := t.index[slot];
      assert id in t.openings && id !in t.aliases && SamePolynomial(id, key) && t.openings[id].point == point;
    }
    if Clashes(t, key, point, claim) {
      var id :| id in t.openings && id !in t.aliases && id != key && SamePolynomial(id, key)
                && t.openings[id].point == point && t.openings[id].claim != claim;
      assert (Underlying(id), t.openings[id].point) == slot && t.index[slot] == Canonical(t, id) == id;
    }
  }

  /** Every id reads back what it was registered with. */
  lemma ReadsBack(t: Tables, key: OpeningId)
    requires Sound(t) && key in t.openings
    ensures Canonical(t, key) in t.openings && Canonical(t, key) !in t.aliases
    ensures t.openings[Canonical(t, key)] == t.openings[key]
  {
    if key in t.aliases {
      var slot := (Underlying(key), t.openings[key].point);
      assert t.index[slot] == t.aliases[key];
    }
  }

  /** After the second registration of `a` its alias `b` reads back the claim of another point. */
  lemma SecondRegistrationBreaks(x: Fe, y: Fe, c: Fe, c': Fe)
    requires x != y && c != c'
    ensures var a, b := Committed(0, 0), Committed(0, 1);
            var t0 := Register(Tables(map[], map[], map[]), a, [x], c).value.t;
            var t1 := Register(t0, b, [x], c).value.t;
            var t2 := Register(t1, a, [y], c').value.t;
            Sound(t1) && t2.openings[b].claim == c && t2.openings[Canonical(t2, b)].claim == c'
  {
    var a, b := Committed(0, 0), Committed(0, 1);
    var t := Tables(map[], map[], map[]);
    RegisterSound(t, a, [x], c);
    var t0 := Register(t, a, [x], c).value.t;
    RegisterSound(t0, b, [x], c);
  }

  /**
    `a` at `x`, `b` at `x`, `b` at `y`, `a` at `y`, with equal claims at each
    point: each of the two ids becomes an alias of the other, so following
    aliases from either never ends.
   */
  lemma SecondRegistrationCycles(x: Fe, y: Fe, c: Fe, c': Fe)
    requires x != y
    ensures var a, b := Committed(0, 0), Committed(0, 1);
            var t0 := Register(Tables(map[], map[], map[]), a, [x], c).value.t;
            var t1 := Register(t0, b, [x], c).value.t;
            var t2 := Register(t1, b, [y], c').value.t;
            var r := Register(t2, a, [y], c');
            r.Some? && a in r.value.t.aliases && b in r.value.t.aliases
            && r.value.t.aliases[a] == b && r.value.t.aliases[b] == a
  {
    assert [x] != [y];
  }

  // -------------------------------------------------------------------------
  // The accumulator
  // -------------------------------------------------------------------------

  class Accumulator {
    var t: Tables
    var pendingClaims: seq<Fe>
    var pendingIds: seq<OpeningId>
    var transcript: seq<Fe>
    var zkMode: bool

    constructor (zk: bool)
      ensures t == Tables(map[], map[], map[]) && zkMode == zk
      ensures pendingClaims == [] && pendingIds == [] && transcript == []
    {
      t := Tables(map[], map[], map[]);
      pendingClaims, pendingIds, transcript, zkMode := [], [], [], zk;
    }

    /** Follows aliases; one step is enough. */
    method ResolveAlias(key: OpeningId) returns (r: OpeningId)
      requires Sound(t)
      ensures r == Canonical(t, key)
    {
      r := key;
      ghost var steps := 0;
      while r in t.aliases
        invariant steps <= 1 && (steps == 0 ==> r == key)
        invariant steps == 1 ==> key in t.aliases && r == t.aliases[key] && r !in t.aliases
        decreases 1 - steps
      {
        assert t.index[(Underlying(key), t.openings[key].point)] == t.aliases[key];
        r := t.aliases[r];
        steps := steps + 1;
      }
    }

    /** The claim on record; reading an id that was never registered aborts. */
    method GetOpening(key: OpeningId) returns (claim: Option<Fe>)
      requires Sound(t)
      ensures claim == if key in t.openings then Some(t.openings[key].claim) else None
    {
      var id := ResolveAlias(key);
      if key in t.openings {
        ReadsBack(t, key);
      } else {
        assert key !in t.aliases;
      }
      claim := if id in t.openings then Some(t.openings[id].claim) else None;
    }

    /**
      Registers an opening and, if it is new, hands its claim to the transcript
      or the pending list.  The tables stay sound exactly if the id may be
      registered there.
     */
    method Append(key: OpeningId, point: Point, claim: Fe) returns (ok: bool)
      modifies this
      ensures ok <==> old(Register(t, key, point, claim)).Some?
      ensures !ok ==> unchanged(this)
      ensures old(Sound(t)) ==> (ok <==> !old(Clashes(t, key, point, claim)))
      ensures old(Sound(t)) && ok ==>
        (old(Register(t, key, point, claim)).value.isNew <==> old(Unopened(t, key, point)))
      ensures old(Sound(t)) && ok ==> (Sound(t) <==> old(MayRegister(t, key, point, claim)))
      ensures ok ==> var r := old(Register(t, key, point, claim)).value;
                     && t == r.t && zkMode == old(zkMode)
                     && pendingClaims == old(pendingClaims) + (if r.isNew && zkMode then [claim] else [])
                     && pendingIds == old(pendingIds) + (if r.isNew && zkMode then [key] else [])
                     && transcript == old(transcript) + (if r.isNew && !zkMode then [claim] else [])
    {
      var r := Register(t, key, point, claim);
      if Sound(t) {
        RegisterIff(t, key, point, claim);
      }
      if r.None? {
        return false;
      }
      if Sound(t) {
        RegisterSoundIff(t, key, point, claim);
      }
      var isNew := r.value.isNew;
      t := r.value.t;
      if isNew {
        if zkMode {
          pendingClaims := pendingClaims + [claim];
          pendingIds := pendingIds + [r.value.id];
        } else {
          transcript := transcript + [claim];
        }
      }
      ok := true;
    }

    method SetZkMode(zk: bool)
      modifies this`zkMode
      ensures zkMode == zk
    {
      zkMode := zk;
    }

    /** All pending claims go to the transcript, in order. */
    method FlushToTranscript()
      modifies this
      ensures t == old(t) && zkMode == old(zkMode)
      ensures transcript == old(transcript) + old(pendingClaims) && pendingClaims == [] && pendingIds == []
    {
      var i := 0;
      var claims := pendingClaims;
      pendingClaims := [];
      while i < |claims|
        invariant 0 <= i <= |claims| && transcript == old(transcript) + claims[..i]
        invariant t == old(t) && zkMode == old(zkMode) && pendingClaims == []
      {
        transcript := transcript + [claims[i]];
        i := i + 1;
      }
      pendingIds := [];
    }

    /** Hands over the pending claims with their ids. */
    method TakePending() returns (claims: seq<Fe>, ids: seq<OpeningId>)
      modifies this
      ensures t == old(t) && zkMode == old(zkMode) && transcript == old(transcript)
      ensures claims == old(pendingClaims) && ids == old(pendingIds) && pendingClaims == [] && pendingIds == []
    {
      claims, ids := pendingClaims, pendingIds;
      pendingClaims, pendingIds := [], [];
    }
  }
}
