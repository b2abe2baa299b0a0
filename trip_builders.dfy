/**
 * The pure parts of the trip-creation service: the searches for a matching tap,
 * the removal of the matched tap from its pool, and the functions that build a
 * trip record from one or two taps.
 */
module TripBuilders {
  import opened TapModel

  /** The filter of the tap-off search: same card, strictly later, same calendar date. */
  predicate IsMatchingTapOff(t: Tap, pan: string, time: int) {
    t.pan == pan && t.time > time && Date(t.time) == Date(time)
  }

  /** The filter of the tap-on search: same card, strictly earlier, same calendar date. */
  predicate IsMatchingTapOn(t: Tap, pan: string, time: int) {
    t.pan == pan && t.time < time && Date(t.time) == Date(time)
  }

  /** The position of the first tap of `taps` that passes the tap-off filter, if any. */
  function FindMatchingTapOff(taps: seq<Tap>, pan: string, time: int): (r: Option<nat>)
    ensures r.Some? ==> r.value < |taps| && IsMatchingTapOff(taps[r.value], pan, time)
    ensures r.Some? ==> forall j :: 0 <= j < r.value ==> !IsMatchingTapOff(taps[j], pan, time)
    ensures r.None? ==> forall j :: 0 <= j < |taps| ==> !IsMatchingTapOff(taps[j], pan, time)
  {
    if taps == [] then None
    else if IsMatchingTapOff(taps[0], pan, time) then Some(0)
    else match FindMatchingTapOff(taps[1..], pan, time)
      case None => None
      case Some(i) => Some(i + 1)
  }

  /** The position of the first tap of `taps` that passes the tap-on filter, if any. */
  function FindMatchingTapOn(taps: seq<Tap>, pan: string, time: int): (r: Option<nat>)
    ensures r.Some? ==> r.value < |taps| && IsMatchingTapOn(taps[r.value], pan, time)
    ensures r.Some? ==> forall j :: 0 <= j < r.value ==> !IsMatchingTapOn(taps[j], pan, time)
    ensures r.None? ==> forall j :: 0 <= j < |taps| ==> !IsMatchingTapOn(taps[j], pan, time)
  {
    if taps == [] then None
    else if IsMatchingTapOn(taps[0], pan, time) then Some(0)
    else match FindMatchingTapOn(taps[1..], pan, time)
      case None => None
      case Some(i) => Some(i + 1)
  }

  /** Removal of the first element equal to `t`, as a list's remove-by-object does. */
  function RemoveFirst(s: seq<Tap>, t: Tap): (r: seq<Tap>)
    ensures t in s ==> |r| == |s| - 1
    ensures t !in s ==> r == s
  {
    if s == [] then []
    else if s[0] == t then s[1..]
    else [s[0]] + RemoveFirst(s[1..], t)
  }

  /** Removing `s[i]` by value deletes position `i` when no earlier element equals it. */
  lemma {:induction false} RemoveFirstAt(s: seq<Tap>, i: nat)
    requires i < |s|
    requires forall j :: 0 <= j < i ==> s[j] != s[i]
    ensures RemoveFirst(s, s[i]) == s[..i] + s[i + 1..]
  {
    if i > 0 {
      var tail := s[1..];
      assert tail[i - 1] == s[i];
      assert RemoveFirst(s, s[i]) == [s[0]] + RemoveFirst(tail, s[i]);
      forall j | 0 <= j < i - 1 ensures tail[j] != tail[i - 1] {
        assert tail[j] == s[j + 1];
      }
      RemoveFirstAt(tail, i - 1);
      assert s[..i] == [s[0]] + tail[..i - 1];
      assert s[i + 1..] == tail[i..];
    }
  }

  /** A trip for a pair (both timestamps, both stops) or a lone tap-on; attributes from the tap-on. */
  function CreateTripWithDetails(tapOn: Tap, tapOff: Option<Tap>, durationSecs: int, fare: int, status: TripStatus): (r: Trip)
    ensures r.started == Some(tapOn.time) && r.fromStopId == Some(tapOn.stopId)
    ensures tapOff.Some? ==> r.finished == Some(tapOff.value.time) && r.toStopId == Some(tapOff.value.stopId)
    ensures tapOff.None? ==> r.finished.None? && r.toStopId.None?
    ensures r.companyId == tapOn.companyId && r.busId == tapOn.busId && r.pan == tapOn.pan
    ensures r.durationSecs == durationSecs && r.chargeAmount == fare && r.status == status
  {
    Trip(Some(tapOn.time),
         if tapOff.Some? then Some(tapOff.value.time) else None,
         durationSecs,
         Some(tapOn.stopId),
         if tapOff.Some? then Some(tapOff.value.stopId) else None,
         fare,
         tapOn.companyId, tapOn.busId, tapOn.pan,
         status)
  }

  /** An INCOMPLETE trip with the tap-off side absent and no duration. */
  function CreateTripWithoutOff(tapOn: Tap, fare: int): (r: Trip)
    ensures r.status == Incomplete && r.durationSecs == 0 && r.chargeAmount == fare
    ensures r.started == Some(tapOn.time) && r.fromStopId == Some(tapOn.stopId)
    ensures r.finished.None? && r.toStopId.None?
    ensures r.companyId == tapOn.companyId && r.busId == tapOn.busId && r.pan == tapOn.pan
  {
    Trip(Some(tapOn.time), None, 0, Some(tapOn.stopId), None, fare,
         tapOn.companyId, tapOn.busId, tapOn.pan, Incomplete)
  }

  /** An INCOMPLETE trip with the tap-on side absent and no duration; attributes from the tap-off. */
  function CreateTripWithoutOn(tapOff: Tap, fare: int): (r: Trip)
    ensures r.status == Incomplete && r.durationSecs == 0 && r.chargeAmount == fare
    ensures r.started.None? && r.fromStopId.None?
    ensures r.finished == Some(tapOff.time) && r.toStopId == Some(tapOff.stopId)
    ensures r.companyId == tapOff.companyId && r.busId == tapOff.busId && r.pan == tapOff.pan
  {
    Trip(None, Some(tapOff.time), 0, None, Some(tapOff.stopId), fare,
         tapOff.companyId, tapOff.busId, tapOff.pan, Incomplete)
  }

  /** An orphan tap-on is charged the maximum fare of its stop. */
  function CreateIncompleteTrip(tapOn: Tap, fc: FareCalculator): (r: Trip)
    ensures r.status == Incomplete && r.chargeAmount == fc.maxFare(tapOn.stopId)
    ensures r.durationSecs == 0 && r.finished.None? && r.toStopId.None?
    ensures r.started == Some(tapOn.time) && r.fromStopId == Some(tapOn.stopId)
    ensures r.companyId == tapOn.companyId && r.busId == tapOn.busId && r.pan == tapOn.pan
  {
    CreateTripWithoutOff(tapOn, fc.maxFare(tapOn.stopId))
  }

  /** An orphan tap-off is charged the maximum fare of its stop. */
  function HandleOrphanTapOff(tapOff: Tap, fc: FareCalculator): (r: Trip)
    ensures r.status == Incomplete && r.chargeAmount == fc.maxFare(tapOff.stopId)
    ensures r.durationSecs == 0 && r.started.None? && r.fromStopId.None?
    ensures r.finished == Some(tapOff.time) && r.toStopId == Some(tapOff.stopId)
    ensures r.companyId == tapOff.companyId && r.busId == tapOff.busId && r.pan == tapOff.pan
  {
    CreateTripWithoutOn(tapOff, fc.maxFare(tapOff.stopId))
  }

  /** A pair at one stop: CANCELLED, nothing charged, no duration. */
  function CreateCancelledTrip(tapOn: Tap, tapOff: Tap): (r: Trip)
    ensures r.status == Cancelled && r.chargeAmount == 0 && r.durationSecs == 0
    ensures r.started == Some(tapOn.time) && r.finished == Some(tapOff.time)
    ensures r.fromStopId == Some(tapOn.stopId) && r.toStopId == Some(tapOff.stopId)
    ensures r.companyId == tapOn.companyId && r.busId == tapOn.busId && r.pan == tapOn.pan
  {
    CreateTripWithDetails(tapOn, Some(tapOff), 0, 0, Cancelled)
  }

  /** A pair between two stops: COMPLETED, the fare between them, the elapsed seconds. */
  function CreateCompletedTrip(tapOn: Tap, tapOff: Tap, fc: FareCalculator): (r: Trip)
    ensures r.status == Completed && r.chargeAmount == fc.fare(tapOn.stopId, tapOff.stopId)
    ensures r.started == Some(tapOn.time) && r.finished == Some(tapOff.time)
    ensures r.durationSecs == tapOff.time - tapOn.time
    ensures r.fromStopId == Some(tapOn.stopId) && r.toStopId == Some(tapOff.stopId)
    ensures r.companyId == tapOn.companyId && r.busId == tapOn.busId && r.pan == tapOn.pan
  {
    CreateTripWithDetails(tapOn, Some(tapOff), tapOff.time - tapOn.time,
                          fc.fare(tapOn.stopId, tapOff.stopId), Completed)
  }

  /**
   * Classification of a resolved pair (or a lone tap-on): CANCELLED exactly when both
   * stops are the same, COMPLETED exactly when they differ, INCOMPLETE without a tap-off.
   */
  function CreateTrip(tapOn: Tap, tapOff: Option<Tap>, fc: FareCalculator): (r: Trip)
    ensures r.status == Incomplete <==> tapOff.None?
    ensures r.status == Cancelled <==> tapOff.Some? && tapOn.stopId == tapOff.value.stopId
    ensures r.status == Completed <==> tapOff.Some? && tapOn.stopId != tapOff.value.stopId
    ensures r.status == Cancelled ==> r.chargeAmount == 0 && r.durationSecs == 0
    ensures r.status == Completed ==>
              r.chargeAmount == fc.fare(tapOn.stopId, tapOff.value.stopId) &&
              r.durationSecs == tapOff.value.time - tapOn.time
    ensures r.status == Incomplete ==> r.chargeAmount == fc.maxFare(tapOn.stopId) && r.durationSecs == 0
    ensures r.started == Some(tapOn.time) && r.fromStopId == Some(tapOn.stopId)
    ensures tapOff.Some? ==> r.finished == Some(tapOff.value.time) && r.toStopId == Some(tapOff.value.stopId)
    ensures tapOff.None? ==> r.finished.None? && r.toStopId.None?
    ensures r.companyId == tapOn.companyId && r.busId == tapOn.busId && r.pan == tapOn.pan
  {
    if tapOff.None? then CreateIncompleteTrip(tapOn, fc)
    else if tapOn.stopId == tapOff.value.stopId then CreateCancelledTrip(tapOn, tapOff.value)
    else CreateCompletedTrip(tapOn, tapOff.value, fc)
  }
}
