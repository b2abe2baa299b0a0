/**
 * The pairing pass of the trip-creation service as a function of its input: the
 * state after each tap (two pools of unmatched taps keyed by card, and the pairs
 * resolved so far), the orphan phase that empties the pools, and the properties of
 * the result: every recognised tap lands in exactly one trip, pairs obey the pairing
 * rule, no orphan tap-on could have paired with an orphan tap-off, and the trips come
 * in the order "pairs, then orphan tap-ons, then orphan tap-offs".
 */
module Matching {
  import opened TapModel
  import opened TripBuilders

  /** Unmatched taps, per card, in insertion order. */
  type Pool = map<string, seq<Tap>>

  /** Which taps a trip was made from. */
  datatype Resolution = Paired(on: Tap, off: Tap) | OrphanOn(on: Tap) | OrphanOff(off: Tap)

  /** The working state of one pass. */
  datatype Pools = Pools(onPool: Pool, offPool: Pool, resolved: seq<Resolution>)

  /** Every pass starts from empty pools and no trips. */
  const Start: Pools := Pools(map[], map[], [])

  /** The pool of a card, or an empty list when the card has none. */
  function Lookup(pool: Pool, pan: string): seq<Tap> {
    if pan in pool then pool[pan] else []
  }

  /** Whether a tap-on and a tap-off may form one trip: same card, on strictly before off, same date. */
  predicate Pairable(on: Tap, off: Tap) {
    on.pan == off.pan && on.time < off.time && Date(on.time) == Date(off.time)
  }

  // ---------------------------------------------------------------------------
  // The single pass
  // ---------------------------------------------------------------------------

  /** An incoming tap-on takes the first matching pooled tap-off of its card, or is pooled. */
  function AfterTapOn(p: Pools, tapOn: Tap): Pools {
    var offs := Lookup(p.offPool, tapOn.pan);
    match FindMatchingTapOff(offs, tapOn.pan, tapOn.time)
    case Some(i) =>
      Pools(p.onPool, p.offPool[tapOn.pan := RemoveFirst(offs, offs[i])], p.resolved + [Paired(tapOn, offs[i])])
    case None =>
      Pools(p.onPool[tapOn.pan := Lookup(p.onPool, tapOn.pan) + [tapOn]], p.offPool, p.resolved)
  }

  /** An incoming tap-off takes the first matching pooled tap-on of its card, or is pooled. */
  function AfterTapOff(p: Pools, tapOff: Tap): Pools {
    var ons := Lookup(p.onPool, tapOff.pan);
    match FindMatchingTapOn(ons, tapOff.pan, tapOff.time)
    case Some(i) =>
      Pools(p.onPool[tapOff.pan := RemoveFirst(ons, ons[i])], p.offPool, p.resolved + [Paired(ons[i], tapOff)])
    case None =>
      Pools(p.onPool, p.offPool[tapOff.pan := Lookup(p.offPool, tapOff.pan) + [tapOff]], p.resolved)
  }

  /** One tap; a tap of another kind changes nothing. */
  function AfterTap(p: Pools, tap: Tap): Pools {
    match tap.kind
    case On => AfterTapOn(p, tap)
    case Off => AfterTapOff(p, tap)
    case Other => p
  }

  /** The taps in arrival order. */
  function AfterTaps(p: Pools, taps: seq<Tap>): Pools
    decreases |taps|
  {
    if taps == [] then p
    else AfterTap(AfterTaps(p, taps[..|taps| - 1]), taps[|taps| - 1])
  }

  // ---------------------------------------------------------------------------
  // The orphan phase
  // ---------------------------------------------------------------------------

  /** `order` lists every key of `keys` exactly once: one possible iteration order of a map. */
  ghost predicate IsEnumeration(order: seq<string>, keys: set<string>) {
    && (forall i, j :: 0 <= i < j < |order| ==> order[i] != order[j])
    && (forall k :: k in keys <==> k in order)
  }

  /** The keys an iteration order visits. */
  function Elems(order: seq<string>): set<string> {
    set k | k in order
  }

  /** A list of distinct keys has as many elements as it has keys. */
  lemma {:induction false} DistinctSize(order: seq<string>)
    requires forall i, j :: 0 <= i < j < |order| ==> order[i] != order[j]
    ensures |Elems(order)| == |order|
    decreases |order|
  {
    if order != [] {
      var init, k := order[..|order| - 1], order[|order| - 1];
      forall i, j | 0 <= i < j < |init| ensures init[i] != init[j] {
        assert init[i] == order[i] && init[j] == order[j];
      }
      DistinctSize(init);
      assert order == init + [k];
      assert Elems(order) == Elems(init) + {k};
      forall j | 0 <= j < |init| ensures init[j] != k {
        assert init[j] == order[j];
      }
      assert k !in Elems(init);
    }
  }

  /** An iteration of a map visits exactly as many keys as the map has. */
  lemma EnumerationSize(order: seq<string>, keys: set<string>)
    requires IsEnumeration(order, keys)
    ensures |order| == |keys|
  {
    DistinctSize(order);
    assert Elems(order) == keys;
  }

  /** Part way through the iteration of a map: `order` visited so far, `pending` still to visit. */
  ghost predicate EnumeratedSoFar(order: seq<string>, pending: set<string>, keys: set<string>) {
    && (forall i, j :: 0 <= i < j < |order| ==> order[i] != order[j])
    && (forall k :: k in keys <==> k in pending || k in order)
    && (forall k :: k in pending ==> k !in order)
  }

  /** Visiting one pending key keeps the iteration going; visiting them all enumerates the map. */
  lemma EnumerationStep(order: seq<string>, pending: set<string>, keys: set<string>, k: string)
    requires EnumeratedSoFar(order, pending, keys) && k in pending
    ensures EnumeratedSoFar(order + [k], pending - {k}, keys)
    ensures pending - {k} == {} ==> IsEnumeration(order + [k], keys)
  {
  }

  /** The pooled taps, card by card in `order`, each card's taps in insertion order. */
  function Flatten(order: seq<string>, pool: Pool): seq<Tap>
    decreases |order|
  {
    if order == [] then []
    else Flatten(order[..|order| - 1], pool) + Lookup(pool, order[|order| - 1])
  }

  function AsOrphanOns(s: seq<Tap>): seq<Resolution> {
    seq(|s|, i requires 0 <= i < |s| => OrphanOn(s[i]))
  }

  function AsOrphanOffs(s: seq<Tap>): seq<Resolution> {
    seq(|s|, i requires 0 <= i < |s| => OrphanOff(s[i]))
  }

  /**
   * The resolutions of a whole call, given the iteration orders of the two pools:
   * the pairs in the order they were made, then the orphan tap-ons, then the orphan tap-offs.
   */
  function Outcome(taps: seq<Tap>, onOrder: seq<string>, offOrder: seq<string>): seq<Resolution> {
    var p := AfterTaps(Start, taps);
    p.resolved + AsOrphanOns(Flatten(onOrder, p.onPool)) + AsOrphanOffs(Flatten(offOrder, p.offPool))
  }

  /** The trip of a resolution, built as the service builds it. */
  function Price(r: Resolution, fc: FareCalculator): Trip {
    match r
    case Paired(on, off) => CreateTrip(on, Some(off), fc)
    case OrphanOn(on) => CreateIncompleteTrip(on, fc)
    case OrphanOff(off) => HandleOrphanTapOff(off, fc)
  }

  function PriceAll(rs: seq<Resolution>, fc: FareCalculator): (trips: seq<Trip>)
    ensures |trips| == |rs|
    ensures forall i :: 0 <= i < |rs| ==> trips[i] == Price(rs[i], fc)
    decreases |rs|
  {
    if rs == [] then []
    else PriceAll(rs[..|rs| - 1], fc) + [Price(rs[|rs| - 1], fc)]
  }

  // ---------------------------------------------------------------------------
  // Invariants of the pass
  // ---------------------------------------------------------------------------

  /** Every pooled tap is filed under its own card and has the pool's kind. */
  ghost predicate KeyedBy(pool: Pool, kind: TapType) {
    forall k, i :: k in pool && 0 <= i < |pool[k]| ==> pool[k][i].pan == k && pool[k][i].kind == kind
  }

  /** `t` is pooled (under its own card). */
  predicate Pooled(pool: Pool, t: Tap) {
    t.pan in pool && t in pool[t.pan]
  }

  /** No pooled tap-on could pair with a pooled tap-off. */
  ghost predicate NoPendingPair(onPool: Pool, offPool: Pool) {
    forall a, b :: Pooled(onPool, a) && Pooled(offPool, b) ==> !Pairable(a, b)
  }

  /** A pair made from a tap-on and a later same-day tap-off of the same card. */
  predicate ValidPair(r: Resolution) {
    r.Paired? && r.on.kind == On && r.off.kind == Off && Pairable(r.on, r.off)
  }

  ghost predicate Consistent(p: Pools) {
    && KeyedBy(p.onPool, On)
    && KeyedBy(p.offPool, Off)
    && NoPendingPair(p.onPool, p.offPool)
    && (forall i :: 0 <= i < |p.resolved| ==> ValidPair(p.resolved[i]))
  }

  /** The tap-off taken by an incoming tap-on leaves its pool by position: the first match. */
  lemma MatchedTapOffRemoval(offs: seq<Tap>, pan: string, time: int, i: nat)
    requires FindMatchingTapOff(offs, pan, time) == Some(i)
    ensures RemoveFirst(offs, offs[i]) == offs[..i] + offs[i + 1..]
  {
    forall j | 0 <= j < i ensures offs[j] != offs[i] {
      assert !IsMatchingTapOff(offs[j], pan, time);
    }
    RemoveFirstAt(offs, i);
  }

  /** The tap-on taken by an incoming tap-off leaves its pool by position: the first match. */
  lemma MatchedTapOnRemoval(ons: seq<Tap>, pan: string, time: int, i: nat)
    requires FindMatchingTapOn(ons, pan, time) == Some(i)
    ensures RemoveFirst(ons, ons[i]) == ons[..i] + ons[i + 1..]
  {
    forall j | 0 <= j < i ensures ons[j] != ons[i] {
      assert !IsMatchingTapOn(ons[j], pan, time);
    }
    RemoveFirstAt(ons, i);
  }

  lemma RemoveAtPreservesKeyedBy(pool: Pool, pan: string, i: nat, kind: TapType)
    requires KeyedBy(pool, kind)
    requires i < |Lookup(pool, pan)|
    ensures KeyedBy(pool[pan := pool[pan][..i] + pool[pan][i + 1..]], kind)
  {
    var s := pool[pan];
    var r := s[..i] + s[i + 1..];
    var q: Pool := pool[pan := r];
    forall k: string, j: int | k in q && 0 <= j < |q[k]| ensures q[k][j].pan == k && q[k][j].kind == kind {
      if k == pan {
        if j < i { assert r[j] == s[j]; } else { assert r[j] == s[j + 1]; }
      } else {
        assert q[k] == pool[k];
      }
    }
  }

  /** Removing one position of a card's list pools nothing new. */
  lemma RemoveAtKeepsPooled(pool: Pool, pan: string, i: nat)
    requires i < |Lookup(pool, pan)|
    ensures forall b :: Pooled(pool[pan := pool[pan][..i] + pool[pan][i + 1..]], b) ==> Pooled(pool, b)
  {
    var s := pool[pan];
    var rest := s[..i] + s[i + 1..];
    forall b | Pooled(pool[pan := rest], b) ensures Pooled(pool, b) {
      if b.pan == pan {
        var m :| 0 <= m < |rest| && rest[m] == b;
        if m < i { assert rest[m] == s[m]; } else { assert rest[m] == s[m + 1]; }
      }
    }
  }

  lemma AfterTapOnConsistent(p: Pools, tapOn: Tap)
    requires Consistent(p) && tapOn.kind == On
    ensures Consistent(AfterTapOn(p, tapOn))
  {
    match FindMatchingTapOff(Lookup(p.offPool, tapOn.pan), tapOn.pan, tapOn.time)
    case Some(i) => TapOnPairedConsistent(p, tapOn, i);
    case None => TapOnPooledConsistent(p, tapOn);
  }

  lemma TapOnPairedConsistent(p: Pools, tapOn: Tap, i: nat)
    requires Consistent(p) && tapOn.kind == On
    requires FindMatchingTapOff(Lookup(p.offPool, tapOn.pan), tapOn.pan, tapOn.time) == Some(i)
    ensures Consistent(AfterTapOn(p, tapOn))
  {
    var pan := tapOn.pan;
    var offs := Lookup(p.offPool, pan);
    var q := AfterTapOn(p, tapOn);
    MatchedTapOffRemoval(offs, pan, tapOn.time, i);
    var rest := offs[..i] + offs[i + 1..];
    assert q == Pools(p.onPool, p.offPool[pan := rest], p.resolved + [Paired(tapOn, offs[i])]);
    RemoveAtPreservesKeyedBy(p.offPool, pan, i, Off);
    RemoveAtKeepsPooled(p.offPool, pan, i);
    assert ValidPair(q.resolved[|p.resolved|]);
  }

  lemma TapOnPooledConsistent(p: Pools, tapOn: Tap)
    requires Consistent(p) && tapOn.kind == On
    requires FindMatchingTapOff(Lookup(p.offPool, tapOn.pan), tapOn.pan, tapOn.time).None?
    ensures Consistent(AfterTapOn(p, tapOn))
  {
    var pan := tapOn.pan;
    var offs := Lookup(p.offPool, pan);
    var q := AfterTapOn(p, tapOn);
    assert q == Pools(p.onPool[pan := Lookup(p.onPool, pan) + [tapOn]], p.offPool, p.resolved);
    forall a, b | Pooled(q.onPool, a) && Pooled(q.offPool, b) ensures !Pairable(a, b) {
      if a == tapOn && b.pan == pan {
        var j :| 0 <= j < |offs| && offs[j] == b;
        assert !IsMatchingTapOff(offs[j], pan, tapOn.time);
      } else if a != tapOn {
        assert Pooled(p.onPool, a);
      }
    }
  }

  lemma AfterTapOffConsistent(p: Pools, tapOff: Tap)
    requires Consistent(p) && tapOff.kind == Off
    ensures Consistent(AfterTapOff(p, tapOff))
  {
    match FindMatchingTapOn(Lookup(p.onPool, tapOff.pan), tapOff.pan, tapOff.time)
    case Some(i) => TapOffPairedConsistent(p, tapOff, i);
    case None => TapOffPooledConsistent(p, tapOff);
  }

  lemma TapOffPairedConsistent(p: Pools, tapOff: Tap, i: nat)
    requires Consistent(p) && tapOff.kind == Off
    requires FindMatchingTapOn(Lookup(p.onPool, tapOff.pan), tapOff.pan, tapOff.time) == Some(i)
    ensures Consistent(AfterTapOff(p, tapOff))
  {
    var pan := tapOff.pan;
    var ons := Lookup(p.onPool, pan);
    var q := AfterTapOff(p, tapOff);
    MatchedTapOnRemoval(ons, pan, tapOff.time, i);
    var rest := ons[..i] + ons[i + 1..];
    assert q == Pools(p.onPool[pan := rest], p.offPool, p.resolved + [Paired(ons[i], tapOff)]);
    RemoveAtPreservesKeyedBy(p.onPool, pan, i, On);
    RemoveAtKeepsPooled(p.onPool, pan, i);
    assert ValidPair(q.resolved[|p.resolved|]);
  }

  lemma TapOffPooledConsistent(p: Pools, tapOff: Tap)
    requires Consistent(p) && tapOff.kind == Off
    requires FindMatchingTapOn(Lookup(p.onPool, tapOff.pan), tapOff.pan, tapOff.time).None?
    ensures Consistent(AfterTapOff(p, tapOff))
  {
    var pan := tapOff.pan;
    var ons := Lookup(p.onPool, pan);
    var q := AfterTapOff(p, tapOff);
    assert q == Pools(p.onPool, p.offPool[pan := Lookup(p.offPool, pan) + [tapOff]], p.resolved);
    forall a, b | Pooled(q.onPool, a) && Pooled(q.offPool, b) ensures !Pairable(a, b) {
      if b == tapOff && a.pan == pan {
        var j :| 0 <= j < |ons| && ons[j] == a;
        assert !IsMatchingTapOn(ons[j], pan, tapOff.time);
      } else if b != tapOff {
        assert Pooled(p.offPool, b);
      }
    }
  }

  /** Each tap keeps the pools keyed by card, free of pairable leftovers, and the pairs valid. */
  lemma AfterTapConsistent(p: Pools, tap: Tap)
    requires Consistent(p)
    ensures Consistent(AfterTap(p, tap))
  {
    match tap.kind
    case On => AfterTapOnConsistent(p, tap);
    case Off => AfterTapOffConsistent(p, tap);
    case Other =>
  }

  lemma {:induction false} AfterTapsConsistent(taps: seq<Tap>)
    ensures Consistent(AfterTaps(Start, taps))
    decreases |taps|
  {
    if taps != [] {
      AfterTapsConsistent(taps[..|taps| - 1]);
      AfterTapConsistent(AfterTaps(Start, taps[..|taps| - 1]), taps[|taps| - 1]);
    }
  }
}
