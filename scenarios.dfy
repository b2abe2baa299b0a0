/**
 * Concrete calls: the unit scenarios of the service, one lemma each, stated for
 * every fare calculator that returns the fares the scenario fixes and for every
 * iteration order of the pools.
 */
module Scenarios {
  import opened TapModel
  import opened TripBuilders
  import opened Matching

  const Card: string := "4111111111111111"
  /** 2023-01-22T13:00 and 13:05, in seconds since 1970-01-01T00:00. */
  const At1300: int := 1674392400
  const At1305: int := 1674392700

  function ScenarioTap(id: int, time: int, kind: TapType, stop: string): Tap {
    Tap(id, time, kind, stop, "Company1", "Bus37", Card)
  }

  const TapOnStop1: Tap := ScenarioTap(1, At1300, On, "Stop1")
  const TapOffStop2: Tap := ScenarioTap(2, At1305, Off, "Stop2")
  const TapOffStop1: Tap := ScenarioTap(2, At1305, Off, "Stop1")

  /** A map with one key is iterated in one way only. */
  lemma SingleKeyEnumeration(order: seq<string>, k: string)
    requires IsEnumeration(order, {k})
    ensures order == [k]
  {
    EnumerationSize(order, {k});
    assert order[0] in order;
  }

  /** A map with no key is iterated as nothing. */
  lemma NoKeyEnumeration(order: seq<string>)
    requires IsEnumeration(order, {})
    ensures order == []
  {
    EnumerationSize(order, {});
  }

  lemma FirstTapOnPooled(t: Tap)
    requires t.kind == On
    ensures AfterTap(Start, t) == Pools(map[t.pan := [t]], map[], [])
  {
    assert Lookup(Start.onPool, t.pan) + [t] == [t];
  }

  lemma FirstTapOffPooled(t: Tap)
    requires t.kind == Off
    ensures AfterTap(Start, t) == Pools(map[], map[t.pan := [t]], [])
  {
    assert Lookup(Start.offPool, t.pan) + [t] == [t];
  }

  lemma AfterOneTap(t: Tap)
    ensures AfterTaps(Start, [t]) == AfterTap(Start, t)
  {
    assert [t][..0] == [];
  }

  lemma AfterTwoTaps(t: Tap, u: Tap)
    ensures AfterTaps(Start, [t, u]) == AfterTap(AfterTap(Start, t), u)
  {
    assert [t, u][..1] == [t];
    AfterOneTap(t);
  }

  lemma FlattenOne(k: string, pool: Pool)
    ensures Flatten([k], pool) == Lookup(pool, k)
  {
    assert [k][..0] == [];
  }

  /** A tap-off before its tap-on still pairs: one COMPLETED trip from Stop1 to Stop2 at the fare between them. */
  lemma OffBeforeOnCompletes(fc: FareCalculator, onOrder: seq<string>, offOrder: seq<string>)
    requires fc.fare("Stop1", "Stop2") == 325
    requires IsEnumeration(onOrder, AfterTaps(Start, [TapOffStop2, TapOnStop1]).onPool.Keys)
    requires IsEnumeration(offOrder, AfterTaps(Start, [TapOffStop2, TapOnStop1]).offPool.Keys)
    ensures var trips := PriceAll(Outcome([TapOffStop2, TapOnStop1], onOrder, offOrder), fc);
            |trips| == 1 && trips[0].status == Completed && trips[0].chargeAmount == 325 &&
            trips[0].fromStopId == Some("Stop1") && trips[0].toStopId == Some("Stop2")
  {
    AfterTwoTaps(TapOffStop2, TapOnStop1);
    FirstTapOffPooled(TapOffStop2);
    var p1 := AfterTap(Start, TapOffStop2);
    assert p1 == Pools(map[], map[Card := [TapOffStop2]], []);
    assert Date(At1300) == Date(At1305) == 19379;
    assert FindMatchingTapOff([TapOffStop2], Card, At1300) == Some(0);
    assert RemoveFirst([TapOffStop2], TapOffStop2) == [];
    var p := AfterTap(p1, TapOnStop1);
    assert p == Pools(map[], map[Card := []], [Paired(TapOnStop1, TapOffStop2)]);
    NoKeyEnumeration(onOrder);
    SingleKeyEnumeration(offOrder, Card);
    FlattenOne(Card, p.offPool);
    assert Outcome([TapOffStop2, TapOnStop1], onOrder, offOrder) == [Paired(TapOnStop1, TapOffStop2)];
  }

  /** A tap-on then its tap-off: one COMPLETED trip from Stop1 to Stop2 at the fare between them, 300 seconds long. */
  lemma OnThenOffCompletes(fc: FareCalculator, onOrder: seq<string>, offOrder: seq<string>)
    requires fc.fare("Stop1", "Stop2") == 250
    requires IsEnumeration(onOrder, AfterTaps(Start, [TapOnStop1, TapOffStop2]).onPool.Keys)
    requires IsEnumeration(offOrder, AfterTaps(Start, [TapOnStop1, TapOffStop2]).offPool.Keys)
    ensures var trips := PriceAll(Outcome([TapOnStop1, TapOffStop2], onOrder, offOrder), fc);
            |trips| == 1 && trips[0].status == Completed && trips[0].chargeAmount == 250 &&
            trips[0].fromStopId == Some("Stop1") && trips[0].toStopId == Some("Stop2") &&
            trips[0].durationSecs == 300
  {
    AfterTwoTaps(TapOnStop1, TapOffStop2);
    FirstTapOnPooled(TapOnStop1);
    var p1 := AfterTap(Start, TapOnStop1);
    assert p1 == Pools(map[Card := [TapOnStop1]], map[], []);
    assert Date(At1300) == Date(At1305) == 19379;
    assert FindMatchingTapOn([TapOnStop1], Card, At1305) == Some(0);
    assert RemoveFirst([TapOnStop1], TapOnStop1) == [];
    var p := AfterTap(p1, TapOffStop2);
    assert p == Pools(map[Card := []], map[], [Paired(TapOnStop1, TapOffStop2)]);
    SingleKeyEnumeration(onOrder, Card);
    NoKeyEnumeration(offOrder);
    FlattenOne(Card, p.onPool);
    assert Outcome([TapOnStop1, TapOffStop2], onOrder, offOrder) == [Paired(TapOnStop1, TapOffStop2)];
  }

  /** A lone tap-on: one INCOMPLETE trip at the maximum fare of its stop. */
  lemma LoneTapOnIsIncomplete(fc: FareCalculator, onOrder: seq<string>, offOrder: seq<string>)
    requires fc.maxFare("Stop1") == 550
    requires IsEnumeration(onOrder, AfterTaps(Start, [TapOnStop1]).onPool.Keys)
    requires IsEnumeration(offOrder, AfterTaps(Start, [TapOnStop1]).offPool.Keys)
    ensures var trips := PriceAll(Outcome([TapOnStop1], onOrder, offOrder), fc);
            |trips| == 1 && trips[0].status == Incomplete && trips[0].chargeAmount == 550
  {
    AfterOneTap(TapOnStop1);
    FirstTapOnPooled(TapOnStop1);
    var p := AfterTap(Start, TapOnStop1);
    assert p == Pools(map[Card := [TapOnStop1]], map[], []);
    SingleKeyEnumeration(onOrder, Card);
    NoKeyEnumeration(offOrder);
    FlattenOne(Card, p.onPool);
    assert Outcome([TapOnStop1], onOrder, offOrder) == [OrphanOn(TapOnStop1)];
  }

  /** A lone tap-off: one INCOMPLETE trip at the maximum fare of its stop. */
  lemma LoneTapOffIsIncomplete(fc: FareCalculator, onOrder: seq<string>, offOrder: seq<string>)
    requires fc.maxFare("Stop2") == 700
    requires IsEnumeration(onOrder, AfterTaps(Start, [TapOffStop2]).onPool.Keys)
    requires IsEnumeration(offOrder, AfterTaps(Start, [TapOffStop2]).offPool.Keys)
    ensures var trips := PriceAll(Outcome([TapOffStop2], onOrder, offOrder), fc);
            |trips| == 1 && trips[0].status == Incomplete && trips[0].chargeAmount == 700
  {
    AfterOneTap(TapOffStop2);
    FirstTapOffPooled(TapOffStop2);
    var p := AfterTap(Start, TapOffStop2);
    assert p == Pools(map[], map[Card := [TapOffStop2]], []);
    NoKeyEnumeration(onOrder);
    SingleKeyEnumeration(offOrder, Card);
    FlattenOne(Card, p.offPool);
    assert Outcome([TapOffStop2], onOrder, offOrder) == [OrphanOff(TapOffStop2)];
  }

  /** Tap-on and tap-off at one stop: one CANCELLED trip, nothing charged. */
  lemma SameStopIsCancelled(fc: FareCalculator, onOrder: seq<string>, offOrder: seq<string>)
    requires IsEnumeration(onOrder, AfterTaps(Start, [TapOnStop1, TapOffStop1]).onPool.Keys)
    requires IsEnumeration(offOrder, AfterTaps(Start, [TapOnStop1, TapOffStop1]).offPool.Keys)
    ensures var trips := PriceAll(Outcome([TapOnStop1, TapOffStop1], onOrder, offOrder), fc);
            |trips| == 1 && trips[0].status == Cancelled && trips[0].chargeAmount == 0
  {
    AfterTwoTaps(TapOnStop1, TapOffStop1);
    FirstTapOnPooled(TapOnStop1);
    var p1 := AfterTap(Start, TapOnStop1);
    assert p1 == Pools(map[Card := [TapOnStop1]], map[], []);
    assert Date(At1300) == Date(At1305) == 19379;
    assert FindMatchingTapOn([TapOnStop1], Card, At1305) == Some(0);
    assert RemoveFirst([TapOnStop1], TapOnStop1) == [];
    var p := AfterTap(p1, TapOffStop1);
    assert p == Pools(map[Card := []], map[], [Paired(TapOnStop1, TapOffStop1)]);
    SingleKeyEnumeration(onOrder, Card);
    NoKeyEnumeration(offOrder);
    FlattenOne(Card, p.onPool);
    assert Outcome([TapOnStop1, TapOffStop1], onOrder, offOrder) == [Paired(TapOnStop1, TapOffStop1)];
  }

  /** 2023-01-22T23:59 and 2023-01-23T00:01. */
  const LateOn: Tap := ScenarioTap(3, 1674431940, On, "Stop1")
  const EarlyOff: Tap := ScenarioTap(4, 1674432060, Off, "Stop2")

  /** Taps either side of midnight do not pair: both stay pooled and become orphans. */
  lemma MidnightOutcome(onOrder: seq<string>, offOrder: seq<string>)
    requires IsEnumeration(onOrder, AfterTaps(Start, [LateOn, EarlyOff]).onPool.Keys)
    requires IsEnumeration(offOrder, AfterTaps(Start, [LateOn, EarlyOff]).offPool.Keys)
    ensures Outcome([LateOn, EarlyOff], onOrder, offOrder) == [OrphanOn(LateOn), OrphanOff(EarlyOff)]
  {
    AfterTwoTaps(LateOn, EarlyOff);
    FirstTapOnPooled(LateOn);
    var p1 := AfterTap(Start, LateOn);
    assert p1 == Pools(map[Card := [LateOn]], map[], []);
    assert Date(LateOn.time) == 19379 && Date(EarlyOff.time) == 19380;
    assert FindMatchingTapOn([LateOn], Card, EarlyOff.time) == None;
    assert Lookup(p1.offPool, Card) + [EarlyOff] == [EarlyOff];
    var p := AfterTap(p1, EarlyOff);
    assert p == Pools(map[Card := [LateOn]], map[Card := [EarlyOff]], []);
    SingleKeyEnumeration(onOrder, Card);
    SingleKeyEnumeration(offOrder, Card);
    FlattenOne(Card, p.onPool);
    FlattenOne(Card, p.offPool);
  }

  /** Taps either side of midnight do not pair: two INCOMPLETE trips, tap-on first. */
  lemma MidnightSplitsTrip(fc: FareCalculator, onOrder: seq<string>, offOrder: seq<string>)
    requires IsEnumeration(onOrder, AfterTaps(Start, [LateOn, EarlyOff]).onPool.Keys)
    requires IsEnumeration(offOrder, AfterTaps(Start, [LateOn, EarlyOff]).offPool.Keys)
    ensures var trips := PriceAll(Outcome([LateOn, EarlyOff], onOrder, offOrder), fc);
            |trips| == 2 && trips[0].status == Incomplete && trips[1].status == Incomplete &&
            trips[0].chargeAmount == fc.maxFare("Stop1") && trips[1].chargeAmount == fc.maxFare("Stop2") &&
            trips[0].started == Some(LateOn.time) && trips[0].toStopId.None? &&
            trips[1].started.None? && trips[1].finished == Some(EarlyOff.time)
  {
    MidnightOutcome(onOrder, offOrder);
    var trips := PriceAll([OrphanOn(LateOn), OrphanOff(EarlyOff)], fc);
    assert trips[0] == CreateIncompleteTrip(LateOn, fc);
    assert trips[1] == HandleOrphanTapOff(EarlyOff, fc);
  }

  /** A tap of another kind is skipped: no trip at all. */
  lemma OtherKindIsSkipped(fc: FareCalculator, onOrder: seq<string>, offOrder: seq<string>)
    requires IsEnumeration(onOrder, AfterTaps(Start, [ScenarioTap(5, At1300, Other, "Stop1")]).onPool.Keys)
    requires IsEnumeration(offOrder, AfterTaps(Start, [ScenarioTap(5, At1300, Other, "Stop1")]).offPool.Keys)
    ensures PriceAll(Outcome([ScenarioTap(5, At1300, Other, "Stop1")], onOrder, offOrder), fc) == []
  {
    AfterOneTap(ScenarioTap(5, At1300, Other, "Stop1"));
    NoKeyEnumeration(onOrder);
    NoKeyEnumeration(offOrder);
  }
}
