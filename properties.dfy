/**
 * What the pairing pass promises beyond coverage: the pairing rule for an incoming
 * tap, stated without reference to the search that implements it; the shape and
 * order of the result; that no orphan tap-on could have paired with an orphan
 * tap-off; that the orphan iteration order changes nothing but the order of orphan
 * trips; and that every trip produced is well formed.
 */
module Properties {
  import opened TapModel
  import opened TripBuilders
  import opened Matching
  import opened Coverage

  // ---------------------------------------------------------------------------
  // The pairing rule
  // ---------------------------------------------------------------------------

  /**
   * An incoming tap-on whose card has a pooled tap-off it may pair with takes the
   * first such tap-off in pool order, and that tap-off alone leaves the pool.
   */
  lemma TapOnTakesFirstCandidate(p: Pools, tapOn: Tap, i: nat)
    requires i < |Lookup(p.offPool, tapOn.pan)|
    requires Pairable(tapOn, Lookup(p.offPool, tapOn.pan)[i])
    requires forall j :: 0 <= j < i ==> !Pairable(tapOn, Lookup(p.offPool, tapOn.pan)[j])
    ensures AfterTapOn(p, tapOn) ==
              Pools(p.onPool,
                    p.offPool[tapOn.pan := Lookup(p.offPool, tapOn.pan)[..i] + Lookup(p.offPool, tapOn.pan)[i + 1..]],
                    p.resolved + [Paired(tapOn, Lookup(p.offPool, tapOn.pan)[i])])
  {
    var offs := Lookup(p.offPool, tapOn.pan);
    var found := FindMatchingTapOff(offs, tapOn.pan, tapOn.time);
    assert IsMatchingTapOff(offs[i], tapOn.pan, tapOn.time);
    forall j | 0 <= j < i ensures !IsMatchingTapOff(offs[j], tapOn.pan, tapOn.time) {
      assert !Pairable(tapOn, offs[j]);
    }
    assert found == Some(i);
    MatchedTapOffRemoval(offs, tapOn.pan, tapOn.time, i);
  }

  /** An incoming tap-on with no pooled tap-off it may pair with joins its card's pool, at the end. */
  lemma TapOnPooledWithoutCandidate(p: Pools, tapOn: Tap)
    requires forall j :: 0 <= j < |Lookup(p.offPool, tapOn.pan)| ==> !Pairable(tapOn, Lookup(p.offPool, tapOn.pan)[j])
    ensures AfterTapOn(p, tapOn) ==
              Pools(p.onPool[tapOn.pan := Lookup(p.onPool, tapOn.pan) + [tapOn]], p.offPool, p.resolved)
  {
    var offs := Lookup(p.offPool, tapOn.pan);
    if FindMatchingTapOff(offs, tapOn.pan, tapOn.time).Some? {
      var i := FindMatchingTapOff(offs, tapOn.pan, tapOn.time).value;
      assert Pairable(tapOn, offs[i]);
      assert false;
    }
  }

  /**
   * An incoming tap-off whose card has a pooled tap-on it may pair with takes the
   * first such tap-on in pool order, and that tap-on alone leaves the pool.
   */
  lemma TapOffTakesFirstCandidate(p: Pools, tapOff: Tap, i: nat)
    requires i < |Lookup(p.onPool, tapOff.pan)|
    requires Pairable(Lookup(p.onPool, tapOff.pan)[i], tapOff)
    requires forall j :: 0 <= j < i ==> !Pairable(Lookup(p.onPool, tapOff.pan)[j], tapOff)
    ensures AfterTapOff(p, tapOff) ==
              Pools(p.onPool[tapOff.pan := Lookup(p.onPool, tapOff.pan)[..i] + Lookup(p.onPool, tapOff.pan)[i + 1..]],
                    p.offPool,
                    p.resolved + [Paired(Lookup(p.onPool, tapOff.pan)[i], tapOff)])
  {
    var ons := Lookup(p.onPool, tapOff.pan);
    var found := FindMatchingTapOn(ons, tapOff.pan, tapOff.time);
    assert IsMatchingTapOn(ons[i], tapOff.pan, tapOff.time);
    forall j | 0 <= j < i ensures !IsMatchingTapOn(ons[j], tapOff.pan, tapOff.time) {
      assert !Pairable(ons[j], tapOff);
    }
    assert found == Some(i);
    MatchedTapOnRemoval(ons, tapOff.pan, tapOff.time, i);
  }

  /** An incoming tap-off with no pooled tap-on it may pair with joins its card's pool, at the end. */
  lemma TapOffPooledWithoutCandidate(p: Pools, tapOff: Tap)
    requires forall j :: 0 <= j < |Lookup(p.onPool, tapOff.pan)| ==> !Pairable(Lookup(p.onPool, tapOff.pan)[j], tapOff)
    ensures AfterTapOff(p, tapOff) ==
              Pools(p.onPool, p.offPool[tapOff.pan := Lookup(p.offPool, tapOff.pan) + [tapOff]], p.resolved)
  {
    var ons := Lookup(p.onPool, tapOff.pan);
    if FindMatchingTapOn(ons, tapOff.pan, tapOff.time).Some? {
      var i := FindMatchingTapOn(ons, tapOff.pan, tapOff.time).value;
      assert Pairable(ons[i], tapOff);
      assert false;
    }
  }

  // ---------------------------------------------------------------------------
  // Shape and order of the result
  // ---------------------------------------------------------------------------

  /** Pairs come first, then orphan tap-ons, then orphan tap-offs. */
  function Rank(r: Resolution): nat {
    match r
    case Paired(_, _) => 0
    case OrphanOn(_) => 1
    case OrphanOff(_) => 2
  }

  /** A pair is a valid pair; an orphan has the kind of its side. */
  predicate WellFormedResolution(r: Resolution) {
    match r
    case Paired(_, _) => ValidPair(r)
    case OrphanOn(on) => on.kind == On
    case OrphanOff(off) => off.kind == Off
  }

  /** Every tap walked out of a pool was pooled under its own card, with the pool's kind. */
  lemma {:induction false} FlattenPooled(order: seq<string>, pool: Pool, kind: TapType)
    requires KeyedBy(pool, kind)
    ensures forall t :: t in Flatten(order, pool) ==> Pooled(pool, t) && t.kind == kind
    decreases |order|
  {
    if order != [] {
      var init, k := order[..|order| - 1], order[|order| - 1];
      FlattenPooled(init, pool, kind);
      forall t | t in Lookup(pool, k) ensures Pooled(pool, t) && t.kind == kind {
        var m :| 0 <= m < |pool[k]| && pool[k][m] == t;
      }
    }
  }

  /** Position `i` of pairs, then orphan tap-ons, then orphan tap-offs. */
  lemma LayoutAt(rs: seq<Resolution>, ons: seq<Tap>, offs: seq<Tap>, i: nat)
    requires i < |rs| + |ons| + |offs|
    ensures var o := rs + AsOrphanOns(ons) + AsOrphanOffs(offs);
            (i < |rs| ==> o[i] == rs[i]) &&
            (|rs| <= i < |rs| + |ons| ==> o[i] == OrphanOn(ons[i - |rs|])) &&
            (|rs| + |ons| <= i ==> o[i] == OrphanOff(offs[i - |rs| - |ons|]))
  {
  }

  /**
   * The result holds the pairs exactly at its first positions, in the order they were
   * made, then the orphan tap-ons, then the orphan tap-offs; every pair is a valid pair
   * and every orphan has the kind of its side.
   */
  lemma OutcomeShape(taps: seq<Tap>, onOrder: seq<string>, offOrder: seq<string>)
    ensures forall i, j :: 0 <= i < j < |Outcome(taps, onOrder, offOrder)| ==>
              Rank(Outcome(taps, onOrder, offOrder)[i]) <= Rank(Outcome(taps, onOrder, offOrder)[j])
    ensures forall i :: 0 <= i < |Outcome(taps, onOrder, offOrder)| ==>
              WellFormedResolution(Outcome(taps, onOrder, offOrder)[i])
    ensures forall i :: 0 <= i < |Outcome(taps, onOrder, offOrder)| ==>
              (Outcome(taps, onOrder, offOrder)[i].Paired? <==> i < |AfterTaps(Start, taps).resolved|)
  {
    var p := AfterTaps(Start, taps);
    AfterTapsConsistent(taps);
    var ons := Flatten(onOrder, p.onPool);
    var offs := Flatten(offOrder, p.offPool);
    FlattenPooled(onOrder, p.onPool, On);
    FlattenPooled(offOrder, p.offPool, Off);
    var o := Outcome(taps, onOrder, offOrder);
    var a, b := |p.resolved|, |p.resolved| + |ons|;
    assert o == p.resolved + AsOrphanOns(ons) + AsOrphanOffs(offs);
    forall i | 0 <= i < |o|
      ensures i < a ==> o[i] == p.resolved[i]
      ensures a <= i < b ==> o[i] == OrphanOn(ons[i - a])
      ensures b <= i ==> o[i] == OrphanOff(offs[i - b])
    {
      LayoutAt(p.resolved, ons, offs, i);
    }
    forall i | 0 <= i < |o| ensures WellFormedResolution(o[i]) {
      if a <= i < b {
        assert ons[i - a] in ons;
      } else if b <= i {
        assert offs[i - b] in offs;
      }
    }
  }

  /**
   * Nothing pairable is left over: an orphan tap-on and an orphan tap-off of the result
   * never satisfy the pairing rule (same card, on strictly before off, same date).
   */
  lemma NoMissedPair(taps: seq<Tap>, onOrder: seq<string>, offOrder: seq<string>, i: nat, j: nat)
    requires i < |Outcome(taps, onOrder, offOrder)| && j < |Outcome(taps, onOrder, offOrder)|
    requires Outcome(taps, onOrder, offOrder)[i].OrphanOn? && Outcome(taps, onOrder, offOrder)[j].OrphanOff?
    ensures !Pairable(Outcome(taps, onOrder, offOrder)[i].on, Outcome(taps, onOrder, offOrder)[j].off)
  {
    var p := AfterTaps(Start, taps);
    AfterTapsConsistent(taps);
    var ons := Flatten(onOrder, p.onPool);
    var offs := Flatten(offOrder, p.offPool);
    FlattenPooled(onOrder, p.onPool, On);
    FlattenPooled(offOrder, p.offPool, Off);
    var o := Outcome(taps, onOrder, offOrder);
    var a, b := |p.resolved|, |p.resolved| + |ons|;
    assert o == p.resolved + AsOrphanOns(ons) + AsOrphanOffs(offs);
    assert forall k :: 0 <= k < a ==> o[k] == p.resolved[k];
    assert forall k :: b <= k < |o| ==> o[k] == OrphanOff(offs[k - b]);
    assert a <= i < b && o[i] == OrphanOn(ons[i - a]) && ons[i - a] in ons;
    assert b <= j && offs[j - b] in offs;
  }

  /** One tap adds at most one pair, at the end, and that pair contains the tap. */
  lemma StepAppendsPair(p: Pools, tap: Tap)
    ensures var q := AfterTap(p, tap);
            q.resolved == p.resolved ||
            (q.resolved == p.resolved + [q.resolved[|p.resolved|]] && tap in TapsOfOne(q.resolved[|p.resolved|]))
  {
  }

  /**
   * Pairs are emitted in the order of the taps that complete them: the pairs made from
   * a prefix of the input are a prefix of the pairs made from the whole input.
   */
  lemma {:induction false} PairsInCompletionOrder(taps: seq<Tap>, n: nat)
    requires n <= |taps|
    ensures AfterTaps(Start, taps[..n]).resolved <= AfterTaps(Start, taps).resolved
    decreases |taps|
  {
    if n < |taps| {
      var init := taps[..|taps| - 1];
      assert init[..n] == taps[..n];
      PairsInCompletionOrder(init, n);
      StepAppendsPair(AfterTaps(Start, init), taps[|taps| - 1]);
    } else {
      assert taps[..n] == taps;
    }
  }

  /**
   * The iteration order of the pools decides only the order of the orphan trips: the
   * pairs are the same, and so are the orphan taps, counted with multiplicity.
   */
  lemma OrphanOrderIrrelevant(taps: seq<Tap>, on1: seq<string>, off1: seq<string>, on2: seq<string>, off2: seq<string>)
    requires IsEnumeration(on1, AfterTaps(Start, taps).onPool.Keys) && IsEnumeration(on2, AfterTaps(Start, taps).onPool.Keys)
    requires IsEnumeration(off1, AfterTaps(Start, taps).offPool.Keys) && IsEnumeration(off2, AfterTaps(Start, taps).offPool.Keys)
    ensures Outcome(taps, on1, off1)[..|AfterTaps(Start, taps).resolved|] == Outcome(taps, on2, off2)[..|AfterTaps(Start, taps).resolved|]
    ensures multiset(Flatten(on1, AfterTaps(Start, taps).onPool)) == multiset(Flatten(on2, AfterTaps(Start, taps).onPool))
    ensures multiset(Flatten(off1, AfterTaps(Start, taps).offPool)) == multiset(Flatten(off2, AfterTaps(Start, taps).offPool))
  {
    var p := AfterTaps(Start, taps);
    FlattenEnumeration(on1, p.onPool);
    FlattenEnumeration(on2, p.onPool);
    FlattenEnumeration(off1, p.offPool);
    FlattenEnumeration(off2, p.offPool);
    PairsPrefix(taps, on1, off1);
    PairsPrefix(taps, on2, off2);
  }

  /** The pairs open the result, whatever the orphan order. */
  lemma PairsPrefix(taps: seq<Tap>, onOrder: seq<string>, offOrder: seq<string>)
    ensures Outcome(taps, onOrder, offOrder)[..|AfterTaps(Start, taps).resolved|] == AfterTaps(Start, taps).resolved
  {
    var p := AfterTaps(Start, taps);
    var rest := AsOrphanOns(Flatten(onOrder, p.onPool)) + AsOrphanOffs(Flatten(offOrder, p.offPool));
    assert Outcome(taps, onOrder, offOrder) == p.resolved + rest;
  }

  // ---------------------------------------------------------------------------
  // Well-formed trips
  // ---------------------------------------------------------------------------

  /**
   * A trip has at least one side; a side has both its time and its stop; it is INCOMPLETE
   * exactly when a side is missing, and then lasts 0 seconds and costs the maximum fare of
   * its one stop; CANCELLED trips start and end at one stop, last 0 seconds and cost
   * nothing; COMPLETED trips join two stops, cost the fare between them and last the
   * positive number of seconds between the taps, less than a day.
   */
  predicate WellFormedTrip(t: Trip, fc: FareCalculator) {
    && (t.started.Some? <==> t.fromStopId.Some?)
    && (t.finished.Some? <==> t.toStopId.Some?)
    && (t.started.Some? || t.finished.Some?)
    && (t.status == Incomplete <==> t.started.None? || t.finished.None?)
    && (t.status == Incomplete ==>
          t.durationSecs == 0 &&
          t.chargeAmount == fc.maxFare(if t.fromStopId.Some? then t.fromStopId.value else t.toStopId.value))
    && (t.status == Cancelled ==> t.chargeAmount == 0 && t.durationSecs == 0 && t.fromStopId == t.toStopId)
    && (t.status == Completed ==>
          t.fromStopId != t.toStopId &&
          t.chargeAmount == fc.fare(t.fromStopId.value, t.toStopId.value) &&
          t.durationSecs == t.finished.value - t.started.value &&
          0 < t.durationSecs < SecondsPerDay)
  }

  /** The tap whose card, operator and vehicle a trip carries: its tap-on when it has one. */
  function CarrierTap(r: Resolution): Tap {
    if r.OrphanOff? then r.off else r.on
  }

  /** The card, operator and vehicle of a trip are those of its carrier tap. */
  predicate CarriedBy(t: Trip, tap: Tap) {
    t.pan == tap.pan && t.companyId == tap.companyId && t.busId == tap.busId
  }

  lemma PriceWellFormed(r: Resolution, fc: FareCalculator)
    requires WellFormedResolution(r)
    ensures WellFormedTrip(Price(r, fc), fc)
    ensures CarriedBy(Price(r, fc), CarrierTap(r))
    ensures r.Paired? ==> Price(r, fc).pan == r.off.pan
  {
    if r.Paired? {
      var d := Date(r.on.time);
      assert d * SecondsPerDay <= r.on.time < r.off.time < (d + 1) * SecondsPerDay;
    }
  }

  /**
   * Every trip of a call is well formed and carries the card, operator and vehicle of
   * its tap-on, or of its tap-off when it has no tap-on; both taps of a pair share the card.
   */
  lemma TripsWellFormed(taps: seq<Tap>, onOrder: seq<string>, offOrder: seq<string>, fc: FareCalculator)
    ensures forall i :: 0 <= i < |Outcome(taps, onOrder, offOrder)| ==>
              WellFormedTrip(PriceAll(Outcome(taps, onOrder, offOrder), fc)[i], fc)
    ensures forall i :: 0 <= i < |Outcome(taps, onOrder, offOrder)| ==>
              CarriedBy(PriceAll(Outcome(taps, onOrder, offOrder), fc)[i], CarrierTap(Outcome(taps, onOrder, offOrder)[i]))
    ensures forall i :: 0 <= i < |Outcome(taps, onOrder, offOrder)| && Outcome(taps, onOrder, offOrder)[i].Paired? ==>
              PriceAll(Outcome(taps, onOrder, offOrder), fc)[i].pan == Outcome(taps, onOrder, offOrder)[i].off.pan
  {
    OutcomeShape(taps, onOrder, offOrder);
    var o := Outcome(taps, onOrder, offOrder);
    forall i | 0 <= i < |o|
      ensures WellFormedTrip(PriceAll(o, fc)[i], fc)
      ensures CarriedBy(PriceAll(o, fc)[i], CarrierTap(o[i]))
      ensures o[i].Paired? ==> PriceAll(o, fc)[i].pan == o[i].off.pan
    {
      PriceWellFormed(o[i], fc);
    }
  }
}
