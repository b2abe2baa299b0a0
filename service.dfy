/**
 * The trip-creation service as the object it is: two maps of unmatched taps keyed by
 * card and the list of trips built so far, updated tap by tap. Each method is proved
 * against the pairing pass of module Matching, so the properties proved there (coverage,
 * the pairing rule, order, well-formed trips) hold of what the service returns.
 */
module Service {
  import opened TapModel
  import opened TripBuilders
  import opened Matching

  /** The orphans of one more card continue the orphans of the cards before it. */
  lemma OrphanOnsStep(r0: seq<Resolution>, order: seq<string>, pool: Pool, pan: string, r1: seq<Resolution>)
    requires r1 == r0 + AsOrphanOns(Flatten(order, pool))
    ensures r1 + AsOrphanOns(Lookup(pool, pan)) == r0 + AsOrphanOns(Flatten(order + [pan], pool))
  {
    var prev, taps := Flatten(order, pool), Lookup(pool, pan);
    assert (order + [pan])[..|order|] == order;
    assert Flatten(order + [pan], pool) == prev + taps;
    assert AsOrphanOns(prev + taps) == AsOrphanOns(prev) + AsOrphanOns(taps);
  }

  /** The orphans of one more card continue the orphans of the cards before it. */
  lemma OrphanOffsStep(r0: seq<Resolution>, order: seq<string>, pool: Pool, pan: string, r1: seq<Resolution>)
    requires r1 == r0 + AsOrphanOffs(Flatten(order, pool))
    ensures r1 + AsOrphanOffs(Lookup(pool, pan)) == r0 + AsOrphanOffs(Flatten(order + [pan], pool))
  {
    var prev, taps := Flatten(order, pool), Lookup(pool, pan);
    assert (order + [pan])[..|order|] == order;
    assert Flatten(order + [pan], pool) == prev + taps;
    assert AsOrphanOffs(prev + taps) == AsOrphanOffs(prev) + AsOrphanOffs(taps);
  }

  /** One more tap-on of a card's list is one more orphan. */
  lemma OrphanOnsNext(r0: seq<Resolution>, taps: seq<Tap>, j: nat, r1: seq<Resolution>)
    requires j < |taps| && r1 == r0 + AsOrphanOns(taps[..j])
    ensures r1 + [OrphanOn(taps[j])] == r0 + AsOrphanOns(taps[..j + 1])
  {
    assert AsOrphanOns(taps[..j + 1]) == AsOrphanOns(taps[..j]) + [OrphanOn(taps[j])];
  }

  /** One more tap-off of a card's list is one more orphan. */
  lemma OrphanOffsNext(r0: seq<Resolution>, taps: seq<Tap>, j: nat, r1: seq<Resolution>)
    requires j < |taps| && r1 == r0 + AsOrphanOffs(taps[..j])
    ensures r1 + [OrphanOff(taps[j])] == r0 + AsOrphanOffs(taps[..j + 1])
  {
    assert AsOrphanOffs(taps[..j + 1]) == AsOrphanOffs(taps[..j]) + [OrphanOff(taps[j])];
  }

  lemma PriceAllSnoc(rs: seq<Resolution>, r: Resolution, fc: FareCalculator)
    ensures PriceAll(rs + [r], fc) == PriceAll(rs, fc) + [Price(r, fc)]
  {
    assert (rs + [r])[..|rs|] == rs;
  }

  class TripsCreationService {
    const fareCalculator: FareCalculator
    /** Unmatched tap-ons, per card, in arrival order. */
    var tapOnMap: Pool
    /** Unmatched tap-offs, per card, in arrival order. */
    var tapOffMap: Pool
    /** The trips built so far. */
    var trips: seq<Trip>
    /** Which taps each trip of `trips` was built from. */
    ghost var resolved: seq<Resolution>

    /** The working state, as the pairing pass sees it. */
    ghost function State(): Pools
      reads this
    {
      Pools(tapOnMap, tapOffMap, resolved)
    }

    /** Each trip is the one its resolution prices to. */
    ghost predicate Valid()
      reads this
    {
      trips == PriceAll(resolved, fareCalculator)
    }

    constructor(fareCalculator: FareCalculator)
      ensures this.fareCalculator == fareCalculator
      ensures State() == Start && trips == [] && Valid()
    {
      this.fareCalculator := fareCalculator;
      tapOnMap := map[];
      tapOffMap := map[];
      trips := [];
      resolved := [];
    }

    /** Each call begins from empty maps and no trips. */
    method ResetTrips()
      modifies this
      ensures State() == Start && trips == [] && Valid()
    {
      tapOnMap := map[];
      tapOffMap := map[];
      trips := [];
      resolved := [];
    }

    /** Pairs the tap with a pooled tap-off, or pools it. */
    method HandleTapOn(tapOn: Tap)
      requires Valid()
      modifies this
      ensures Valid() && State() == AfterTapOn(old(State()), tapOn)
    {
      var matchingOffTaps := Lookup(tapOffMap, tapOn.pan);
      var matching := FindMatchingTapOff(matchingOffTaps, tapOn.pan, tapOn.time);
      if matching.Some? {
        var matchingTapOff := matchingOffTaps[matching.value];
        var trip := CreateTrip(tapOn, Some(matchingTapOff), fareCalculator);
        trips := trips + [trip];
        resolved := resolved + [Paired(tapOn, matchingTapOff)];
        tapOffMap := tapOffMap[tapOn.pan := RemoveFirst(matchingOffTaps, matchingTapOff)];
      } else {
        tapOnMap := tapOnMap[tapOn.pan := Lookup(tapOnMap, tapOn.pan) + [tapOn]];
      }
    }

    /** Pairs the tap with a pooled tap-on, or pools it. */
    method HandleTapOff(tapOff: Tap)
      requires Valid()
      modifies this
      ensures Valid() && State() == AfterTapOff(old(State()), tapOff)
    {
      var matchingOnTaps := Lookup(tapOnMap, tapOff.pan);
      var matching := FindMatchingTapOn(matchingOnTaps, tapOff.pan, tapOff.time);
      if matching.Some? {
        var matchingTapOn := matchingOnTaps[matching.value];
        var trip := CreateTrip(matchingTapOn, Some(tapOff), fareCalculator);
        trips := trips + [trip];
        resolved := resolved + [Paired(matchingTapOn, tapOff)];
        tapOnMap := tapOnMap[tapOff.pan := RemoveFirst(matchingOnTaps, matchingTapOn)];
      } else {
        tapOffMap := tapOffMap[tapOff.pan := Lookup(tapOffMap, tapOff.pan) + [tapOff]];
      }
    }

    /** Dispatches on the kind of the tap; a tap of another kind is skipped. */
    method CreateCompletedAndCancelledTrips(tap: Tap)
      requires Valid()
      modifies this
      ensures Valid() && State() == AfterTap(old(State()), tap)
    {
      if tap.kind == On {
        HandleTapOn(tap);
      } else if tap.kind == Off {
        HandleTapOff(tap);
      }
    }

    /** One INCOMPLETE trip per tap of one card's list, in list order. */
    method AddOrphanOnTrips(taps: seq<Tap>)
      requires Valid()
      modifies this
      ensures Valid() && resolved == old(resolved) + AsOrphanOns(taps)
      ensures tapOnMap == old(tapOnMap) && tapOffMap == old(tapOffMap)
    {
      for j := 0 to |taps|
        invariant Valid()
        invariant tapOnMap == old(tapOnMap) && tapOffMap == old(tapOffMap)
        invariant resolved == old(resolved) + AsOrphanOns(taps[..j])
      {
        PriceAllSnoc(resolved, OrphanOn(taps[j]), fareCalculator);
        OrphanOnsNext(old(resolved), taps, j, resolved);
        trips := trips + [CreateIncompleteTrip(taps[j], fareCalculator)];
        resolved := resolved + [OrphanOn(taps[j])];
      }
      assert taps[..|taps|] == taps;
    }

    /**
     * One INCOMPLETE trip per pooled tap-on, card by card in the map's iteration order
     * (`order`), then the map is cleared.
     */
    method ProcessOrphanOnTaps() returns (ghost order: seq<string>)
      requires Valid()
      modifies this
      ensures Valid()
      ensures IsEnumeration(order, old(tapOnMap).Keys)
      ensures resolved == old(resolved) + AsOrphanOns(Flatten(order, old(tapOnMap)))
      ensures tapOnMap == map[] && tapOffMap == old(tapOffMap)
    {
      var pending := tapOnMap.Keys;
      ghost var pool := tapOnMap;
      order := [];
      while pending != {}
        invariant Valid()
        invariant tapOnMap == old(tapOnMap) && tapOffMap == old(tapOffMap) && tapOnMap == pool
        invariant EnumeratedSoFar(order, pending, pool.Keys)
        invariant pending == {} ==> IsEnumeration(order, pool.Keys)
        invariant resolved == old(resolved) + AsOrphanOns(Flatten(order, pool))
        decreases pending
      {
        var pan :| pan in pending;
        var taps := tapOnMap[pan];
        OrphanOnsStep(old(resolved), order, pool, pan, resolved);
        EnumerationStep(order, pending, pool.Keys, pan);
        AddOrphanOnTrips(taps);
        order := order + [pan];
        pending := pending - {pan};
      }
      tapOnMap := map[];
    }

    /** One INCOMPLETE trip per tap of one card's list, in list order. */
    method AddOrphanOffTrips(taps: seq<Tap>)
      requires Valid()
      modifies this
      ensures Valid() && resolved == old(resolved) + AsOrphanOffs(taps)
      ensures tapOnMap == old(tapOnMap) && tapOffMap == old(tapOffMap)
    {
      for j := 0 to |taps|
        invariant Valid()
        invariant tapOnMap == old(tapOnMap) && tapOffMap == old(tapOffMap)
        invariant resolved == old(resolved) + AsOrphanOffs(taps[..j])
      {
        PriceAllSnoc(resolved, OrphanOff(taps[j]), fareCalculator);
        OrphanOffsNext(old(resolved), taps, j, resolved);
        trips := trips + [HandleOrphanTapOff(taps[j], fareCalculator)];
        resolved := resolved + [OrphanOff(taps[j])];
      }
      assert taps[..|taps|] == taps;
    }

    /**
     * One INCOMPLETE trip per pooled tap-off, card by card in the map's iteration order
     * (`order`), then the map is cleared.
     */
    method ProcessOrphanOffTaps() returns (ghost order: seq<string>)
      requires Valid()
      modifies this
      ensures Valid()
      ensures IsEnumeration(order, old(tapOffMap).Keys)
      ensures resolved == old(resolved) + AsOrphanOffs(Flatten(order, old(tapOffMap)))
      ensures tapOffMap == map[] && tapOnMap == old(tapOnMap)
    {
      var pending := tapOffMap.Keys;
      ghost var pool := tapOffMap;
      order := [];
      while pending != {}
        invariant Valid()
        invariant tapOnMap == old(tapOnMap) && tapOffMap == old(tapOffMap) && tapOffMap == pool
        invariant EnumeratedSoFar(order, pending, pool.Keys)
        invariant pending == {} ==> IsEnumeration(order, pool.Keys)
        invariant resolved == old(resolved) + AsOrphanOffs(Flatten(order, pool))
        decreases pending
      {
        var pan :| pan in pending;
        var taps := tapOffMap[pan];
        OrphanOffsStep(old(resolved), order, pool, pan, resolved);
        EnumerationStep(order, pending, pool.Keys, pan);
        AddOrphanOffTrips(taps);
        order := order + [pan];
        pending := pending - {pan};
      }
      tapOffMap := map[];
    }

    /** Orphan tap-ons first, then orphan tap-offs. */
    method CreateTripsForOrphanTaps() returns (ghost onOrder: seq<string>, ghost offOrder: seq<string>)
      requires Valid()
      modifies this
      ensures Valid()
      ensures IsEnumeration(onOrder, old(tapOnMap).Keys) && IsEnumeration(offOrder, old(tapOffMap).Keys)
      ensures resolved == old(resolved) + AsOrphanOns(Flatten(onOrder, old(tapOnMap)))
                                        + AsOrphanOffs(Flatten(offOrder, old(tapOffMap)))
      ensures tapOnMap == map[] && tapOffMap == map[]
    {
      onOrder := ProcessOrphanOnTaps();
      offOrder := ProcessOrphanOffTaps();
    }

    /**
     * The trips of a list of taps: pairs in the order they complete, then orphan tap-ons,
     * then orphan tap-offs, each card's orphans in arrival order and the cards in the
     * maps' iteration orders `onOrder` and `offOrder`. Both maps are empty afterwards.
     */
    method CreateTrips(taps: seq<Tap>) returns (r: seq<Trip>, ghost onOrder: seq<string>, ghost offOrder: seq<string>)
      modifies this
      ensures IsEnumeration(onOrder, AfterTaps(Start, taps).onPool.Keys)
      ensures IsEnumeration(offOrder, AfterTaps(Start, taps).offPool.Keys)
      ensures resolved == Outcome(taps, onOrder, offOrder)
      ensures r == trips == PriceAll(Outcome(taps, onOrder, offOrder), fareCalculator)
      ensures tapOnMap == map[] && tapOffMap == map[]
    {
      ResetTrips();
      for i := 0 to |taps|
        invariant Valid() && State() == AfterTaps(Start, taps[..i])
      {
        assert taps[..i + 1][..i] == taps[..i];
        CreateCompletedAndCancelledTrips(taps[i]);
      }
      assert taps[..|taps|] == taps;
      onOrder, offOrder := CreateTripsForOrphanTaps();
      r := trips;
    }
  }
}
