# Tap-to-trip pairing, modelled and proved in Dafny

This project models `TripsCreationService`, the part of a transit fare service that
turns a batch of card taps into trips. A tap is an ON or an OFF scan of a card (PAN)
at a stop, at a moment. The service takes the taps in arrival order and keeps two maps
from card to the taps not yet matched, one for tap-ons and one for tap-offs.

- An incoming tap-on takes the first pooled tap-off of its card that is strictly later
  and on the same calendar date. Otherwise the tap-on is pooled.
- An incoming tap-off takes the first pooled tap-on of its card that is strictly earlier
  and on the same date. Otherwise the tap-off is pooled.

A matched pair becomes a CANCELLED trip when both taps are at one stop: no charge, no
duration. At two different stops it becomes a COMPLETED trip, charged by the fare
calculator and lasting the seconds between the taps. After the last tap, every pooled
tap-on becomes an INCOMPLETE trip, and then every pooled tap-off does. Each is charged
the maximum fare of its stop.

The project has six model files and one of scenarios:

- `tap_model.dfy` holds the records: taps, trips, the fare calculator and calendar dates.
- `trip_builders.dfy` holds the pure parts of the service: the two searches for a matching
  tap, the remove-by-value on a card's list, and the trip builders.
- `matching.dfy` holds the pairing pass as a function of its input. Its state is
  `Pools`: the two maps, plus a record of which taps made each trip so far. It also
  holds the orphan phase for any iteration order of the maps, and the invariants the
  pass keeps.
- `coverage.dfy` proves that every tap-on and tap-off of the input ends in exactly one
  trip, and counts the trips.
- `properties.dfy` proves:
  - the pairing rule, stated without the search that implements it;
  - the order of the result;
  - that no orphan tap-on could have paired with an orphan tap-off;
  - that the iteration order moves only orphan trips;
  - that every trip produced is well formed.
- `service.dfy` is the service itself: a class with the two maps and the trip list as fields.
  Its methods update them in place and are proved against `matching.dfy`.
- `scenarios.dfy` holds the repository's unit scenarios, one lemma each, plus the
  midnight case and an unknown tap kind.

Time is whole seconds of local date-time. The date of a moment is floor division by
86400. Fares are whole amounts of the smallest currency unit. The fare calculator is
a pair of total functions given to the service. A tap whose kind is neither ON nor OFF
is `Other`.

## Model

| member | source | states |
|---|---|---|
| `TapModel.Date` | src/main/java/com/littlepay/tapfare/service/TripsCreationService.java:136-137 | the calendar date of a moment is the day whose 86400-second span contains it |
| `TripBuilders.FindMatchingTapOff` | src/main/java/com/littlepay/tapfare/service/TripsCreationService.java:134-140 | finds the first tap of the card that is strictly later on the same date, and none before it qualifies; no result means no tap qualifies |
| `TripBuilders.FindMatchingTapOn` | src/main/java/com/littlepay/tapfare/service/TripsCreationService.java:142-148 | finds the first tap of the card that is strictly earlier on the same date, and none before it qualifies; no result means no tap qualifies |
| `TripBuilders.RemoveFirst` | src/main/java/com/littlepay/tapfare/service/TripsCreationService.java:102 | removing by value drops one element when the value is present and changes nothing when it is absent |
| `TripBuilders.RemoveFirstAt` | src/main/java/com/littlepay/tapfare/service/TripsCreationService.java:126 | removing the value at position i deletes exactly position i when no earlier element equals it |
| `TripBuilders.CreateTripWithDetails` | src/main/java/com/littlepay/tapfare/service/TripsCreationService.java:200-213 | start time, start stop, operator, vehicle and card come from the tap-on; end time and end stop come from the tap-off, or are absent without one; duration, charge and status are the arguments given |
| `TripBuilders.CreateTripWithoutOff` | src/main/java/com/littlepay/tapfare/service/TripsCreationService.java:215-228 | an INCOMPLETE trip with only the tap-on side, duration 0, the given fare |
| `TripBuilders.CreateTripWithoutOn` | src/main/java/com/littlepay/tapfare/service/TripsCreationService.java:230-243 | an INCOMPLETE trip with only the tap-off side and the tap-off's attributes, duration 0, the given fare |
| `TripBuilders.CreateIncompleteTrip` | src/main/java/com/littlepay/tapfare/service/TripsCreationService.java:185-188 | an orphan tap-on is INCOMPLETE, charged the maximum fare of its stop, 0 seconds long, with no end; start, stop, operator, vehicle and card come from the tap-on |
| `TripBuilders.HandleOrphanTapOff` | src/main/java/com/littlepay/tapfare/service/TripsCreationService.java:180-183 | an orphan tap-off is INCOMPLETE, charged the maximum fare of its stop, 0 seconds long, with no start; end, stop, operator, vehicle and card come from the tap-off |
| `TripBuilders.CreateCancelledTrip` | src/main/java/com/littlepay/tapfare/service/TripsCreationService.java:190-192 | a CANCELLED trip charges 0 and lasts 0 seconds, with both sides present; operator, vehicle and card come from the tap-on |
| `TripBuilders.CreateCompletedTrip` | src/main/java/com/littlepay/tapfare/service/TripsCreationService.java:194-198 | a COMPLETED trip charges the fare between its two stops and lasts the seconds between its taps; operator, vehicle and card come from the tap-on |
| `TripBuilders.CreateTrip` | src/main/java/com/littlepay/tapfare/service/TripsCreationService.java:170-178 | INCOMPLETE exactly when the tap-off is absent, CANCELLED exactly when both stops are equal, COMPLETED exactly when they differ, each with its charge and duration; the start side and operator, vehicle and card from the tap-on; the end side from the tap-off, and absent without one |
| `Matching.PriceAll` | src/main/java/com/littlepay/tapfare/service/TripsCreationService.java:100-101 | the trip list has one trip per resolution, in order, each built as the service builds it |
| `Matching.EnumerationSize` | src/main/java/com/littlepay/tapfare/service/TripsCreationService.java:151 | iterating a map visits as many keys as the map has |
| `Matching.DistinctSize` | src/main/java/com/littlepay/tapfare/service/TripsCreationService.java:151-156 | a visit of distinct keys has as many steps as keys |
| `Matching.EnumerationStep` | src/main/java/com/littlepay/tapfare/service/TripsCreationService.java:151-156 | visiting one not-yet-visited key keeps the iteration going, and visiting the last one completes it |
| `Matching.MatchedTapOffRemoval` | src/main/java/com/littlepay/tapfare/service/TripsCreationService.java:96-102 | the matched tap-off found by the search is removed from exactly its own position |
| `Matching.MatchedTapOnRemoval` | src/main/java/com/littlepay/tapfare/service/TripsCreationService.java:120-126 | the matched tap-on found by the search is removed from exactly its own position |
| `Matching.RemoveAtPreservesKeyedBy` | src/main/java/com/littlepay/tapfare/service/TripsCreationService.java:126 | removing a tap keeps every pooled tap filed under its own card with the pool's kind |
| `Matching.RemoveAtKeepsPooled` | src/main/java/com/littlepay/tapfare/service/TripsCreationService.java:125-126 | removing a tap pools nothing new |
| `Matching.TapOnPairedConsistent` | src/main/java/com/littlepay/tapfare/service/TripsCreationService.java:99-103 | a tap-on that pairs keeps the pools keyed by card and free of pairable leftovers, and makes a valid pair |
| `Matching.TapOnPooledConsistent` | src/main/java/com/littlepay/tapfare/service/TripsCreationService.java:104-107 | pooling an unmatched tap-on leaves no tap-on and tap-off in the pools that could pair |
| `Matching.TapOffPairedConsistent` | src/main/java/com/littlepay/tapfare/service/TripsCreationService.java:123-127 | a tap-off that pairs keeps the pools keyed by card and free of pairable leftovers, and makes a valid pair |
| `Matching.TapOffPooledConsistent` | src/main/java/com/littlepay/tapfare/service/TripsCreationService.java:128-131 | pooling an unmatched tap-off leaves no tap-on and tap-off in the pools that could pair |
| `Matching.AfterTapOnConsistent` | src/main/java/com/littlepay/tapfare/service/TripsCreationService.java:95-108 | handling a tap-on keeps the pass invariant |
| `Matching.AfterTapOffConsistent` | src/main/java/com/littlepay/tapfare/service/TripsCreationService.java:119-132 | handling a tap-off keeps the pass invariant |
| `Matching.AfterTapConsistent` | src/main/java/com/littlepay/tapfare/service/TripsCreationService.java:62-72 | handling any tap keeps the pass invariant |
| `Matching.AfterTapsConsistent` | src/main/java/com/littlepay/tapfare/service/TripsCreationService.java:49-51 | after any list of taps, pooled taps are filed under their own card with the pool's kind, no pooled tap-on could pair with a pooled tap-off, and every pair is same card, on strictly before off, same date |
| `Coverage.Recognized` | src/main/java/com/littlepay/tapfare/service/TripsCreationService.java:65-71 | the taps the pass acts on are exactly the ON and OFF taps of the input |
| `Coverage.NumPaired` | src/main/java/com/littlepay/tapfare/service/TripsCreationService.java:100-101 | the number of pairs is at most the number of trips |
| `Coverage.PoolTapsAt` | src/main/java/com/littlepay/tapfare/service/TripsCreationService.java:32-33 | the pooled taps of a map are those of any one card plus those of the rest |
| `Coverage.PoolTapsUpdate` | src/main/java/com/littlepay/tapfare/service/TripsCreationService.java:102-105 | replacing one card's list changes the pooled taps by exactly the difference of the two lists |
| `Coverage.AfterTapOnCoverage` | src/main/java/com/littlepay/tapfare/service/TripsCreationService.java:95-108 | handling a tap-on adds exactly that tap to the taps pooled or in trips |
| `Coverage.AfterTapOffCoverage` | src/main/java/com/littlepay/tapfare/service/TripsCreationService.java:119-132 | handling a tap-off adds exactly that tap to the taps pooled or in trips |
| `Coverage.AfterTapsCoverage` | src/main/java/com/littlepay/tapfare/service/TripsCreationService.java:49-51 | after the pass, the taps in trips and the taps pooled are exactly the ON and OFF taps of the input, with multiplicity |
| `Coverage.TapsOfOrphans` | src/main/java/com/littlepay/tapfare/service/TripsCreationService.java:152-155 | the orphans of a list of taps are made from exactly those taps, in order |
| `Coverage.FlattenTakesOut` | src/main/java/com/littlepay/tapfare/service/TripsCreationService.java:151-156 | walking some distinct cards takes out exactly their pooled taps |
| `Coverage.FlattenEnumeration` | src/main/java/com/littlepay/tapfare/service/TripsCreationService.java:161-166 | walking every card in any iteration order yields every pooled tap exactly once |
| `Coverage.OutcomeCoverage` | src/main/java/com/littlepay/tapfare/service/TripsCreationService.java:49-54 | every ON and OFF tap of the input ends in exactly one trip, and no other tap does, whatever the iteration order |
| `Coverage.TapsOfSize` | src/main/java/com/littlepay/tapfare/service/TripsCreationService.java:100-101 | trips hold one tap each, plus one more for each pair |
| `Coverage.CountFromCoverage` | src/main/java/com/littlepay/tapfare/service/TripsCreationService.java:49-54 | trips that cover a list of taps number the taps minus the pairs |
| `Coverage.TripCount` | src/main/java/com/littlepay/tapfare/service/TripsCreationService.java:49-54 | the number of trips is the number of ON and OFF taps minus the number of pairs |
| `Properties.TapOnTakesFirstCandidate` | src/main/java/com/littlepay/tapfare/service/TripsCreationService.java:95-103 | a tap-on with a pairable pooled tap-off pairs with the first one in pool order; only that one leaves the pool and one pair is added |
| `Properties.TapOnPooledWithoutCandidate` | src/main/java/com/littlepay/tapfare/service/TripsCreationService.java:104-107 | a tap-on with no pairable pooled tap-off is appended to its card's list and nothing else changes |
| `Properties.TapOffTakesFirstCandidate` | src/main/java/com/littlepay/tapfare/service/TripsCreationService.java:119-127 | a tap-off with a pairable pooled tap-on pairs with the first one in pool order; only that one leaves the pool and one pair is added |
| `Properties.TapOffPooledWithoutCandidate` | src/main/java/com/littlepay/tapfare/service/TripsCreationService.java:128-131 | a tap-off with no pairable pooled tap-on is appended to its card's list and nothing else changes |
| `Properties.FlattenPooled` | src/main/java/com/littlepay/tapfare/service/TripsCreationService.java:151-153 | every tap walked out of a pool was pooled under its own card, with the pool's kind |
| `Properties.OutcomeShape` | src/main/java/com/littlepay/tapfare/service/TripsCreationService.java:49-54 | the pairs come first, exactly at the first positions, then orphan tap-ons, then orphan tap-offs; pairs are valid and orphans have their side's kind |
| `Properties.NoMissedPair` | src/main/java/com/littlepay/tapfare/service/TripsCreationService.java:81-84 | no orphan tap-on and orphan tap-off of the result share a card, a date and the on-before-off order |
| `Properties.StepAppendsPair` | src/main/java/com/littlepay/tapfare/service/TripsCreationService.java:99-101 | one tap adds at most one trip, at the end, and that trip contains the tap |
| `Properties.PairsInCompletionOrder` | src/main/java/com/littlepay/tapfare/service/TripsCreationService.java:51 | the pairs from a prefix of the input are a prefix of the pairs from the whole input |
| `Properties.PairsPrefix` | src/main/java/com/littlepay/tapfare/service/TripsCreationService.java:51-52 | the result opens with the pairs, whatever the iteration order |
| `Properties.OrphanOrderIrrelevant` | src/main/java/com/littlepay/tapfare/service/TripsCreationService.java:151-166 | two iteration orders give the same pairs, and the same orphan taps with multiplicity |
| `Properties.PriceWellFormed` | src/main/java/com/littlepay/tapfare/service/TripsCreationService.java:170-198 | a valid pair or an orphan of the right kind is priced into a well-formed trip whose card, operator and vehicle are those of its tap-on, or of its tap-off when it has none; a pair's trip carries the card of both taps |
| `Properties.TripsWellFormed` | src/main/java/com/littlepay/tapfare/service/TripsCreationService.java:49-54 | every returned trip is well formed: INCOMPLETE exactly when a side is missing, at the maximum fare of its stop; CANCELLED at one stop, free, 0 seconds; COMPLETED between two stops at their fare, lasting more than 0 and less than 86400 seconds; each trip carries the card, operator and vehicle of its tap-on, or of its tap-off when it has none |
| `Service.TripsCreationService.constructor` | src/main/java/com/littlepay/tapfare/service/TripsCreationService.java:36-38 | a new service holds the given fare calculator, empty maps and no trips |
| `Service.TripsCreationService.ResetTrips` | src/main/java/com/littlepay/tapfare/service/TripsCreationService.java:56-60 | both maps and the trip list are empty afterwards |
| `Service.TripsCreationService.HandleTapOn` | src/main/java/com/littlepay/tapfare/service/TripsCreationService.java:95-108 | the new state is the pairing pass's step on a tap-on, and the trips stay priced from their taps |
| `Service.TripsCreationService.HandleTapOff` | src/main/java/com/littlepay/tapfare/service/TripsCreationService.java:119-132 | the new state is the pairing pass's step on a tap-off, and the trips stay priced from their taps |
| `Service.TripsCreationService.CreateCompletedAndCancelledTrips` | src/main/java/com/littlepay/tapfare/service/TripsCreationService.java:62-72 | an ON tap is handled as a tap-on, an OFF tap as a tap-off, and any other tap changes nothing |
| `Service.TripsCreationService.AddOrphanOnTrips` | src/main/java/com/littlepay/tapfare/service/TripsCreationService.java:152-155 | one INCOMPLETE trip is appended per tap-on of one card's list, in list order, and the maps are unchanged |
| `Service.TripsCreationService.AddOrphanOffTrips` | src/main/java/com/littlepay/tapfare/service/TripsCreationService.java:162-165 | one INCOMPLETE trip is appended per tap-off of one card's list, in list order, and the maps are unchanged |
| `Service.TripsCreationService.ProcessOrphanOnTaps` | src/main/java/com/littlepay/tapfare/service/TripsCreationService.java:150-158 | cards are visited once each in some iteration order, each card's tap-ons become trips in list order, and the tap-on map is then empty with the tap-off map unchanged |
| `Service.TripsCreationService.ProcessOrphanOffTaps` | src/main/java/com/littlepay/tapfare/service/TripsCreationService.java:160-168 | cards are visited once each in some iteration order, each card's tap-offs become trips in list order, and the tap-off map is then empty with the tap-on map unchanged |
| `Service.TripsCreationService.CreateTripsForOrphanTaps` | src/main/java/com/littlepay/tapfare/service/TripsCreationService.java:81-84 | orphan tap-on trips come first, then orphan tap-off trips, and both maps are then empty |
| `Service.TripsCreationService.CreateTrips` | src/main/java/com/littlepay/tapfare/service/TripsCreationService.java:49-54 | whatever the state before, the returned trips are the pairing pass's result priced, which is a function of the taps and the iteration orders alone, and both maps are then empty |
| `Scenarios.OffBeforeOnCompletes` | src/test/java/com/littlepay/tapfare/service/TripsCreationServiceTest.java:28-43 | a tap-off listed before its tap-on gives one COMPLETED trip from Stop1 to Stop2 at the calculator's fare |
| `Scenarios.OnThenOffCompletes` | src/test/java/com/littlepay/tapfare/service/TripsCreationServiceTest.java:45-60 | a tap-on then its tap-off gives one COMPLETED trip from Stop1 to Stop2 at the calculator's fare, lasting 300 seconds |
| `Scenarios.LoneTapOnIsIncomplete` | src/test/java/com/littlepay/tapfare/service/TripsCreationServiceTest.java:73-85 | a lone tap-on gives one INCOMPLETE trip at its stop's maximum fare |
| `Scenarios.LoneTapOffIsIncomplete` | src/test/java/com/littlepay/tapfare/service/TripsCreationServiceTest.java:87-99 | a lone tap-off gives one INCOMPLETE trip at its stop's maximum fare |
| `Scenarios.SameStopIsCancelled` | src/test/java/com/littlepay/tapfare/service/TripsCreationServiceTest.java:101-112 | a tap-on and tap-off at one stop give one CANCELLED trip charging 0 |
| `Scenarios.MidnightOutcome` | src/main/java/com/littlepay/tapfare/service/TripsCreationService.java:142-147 | taps on either side of midnight stay pooled and become an orphan tap-on followed by an orphan tap-off |
| `Scenarios.MidnightSplitsTrip` | src/main/java/com/littlepay/tapfare/service/TripsCreationService.java:142-147 | taps on either side of midnight do not pair and give two INCOMPLETE trips at their stops' maximum fares: first the tap-on's trip (start, no end), then the tap-off's (end, no start) |
| `Scenarios.OtherKindIsSkipped` | src/main/java/com/littlepay/tapfare/service/TripsCreationService.java:69-71 | a tap of another kind gives no trip |

## Left out

- Fares are `double` in the code and whole numbers here. Floating-point rounding is not modelled.
- Timestamps are `LocalDateTime` in the code and whole seconds here. Sub-second parts are not modelled. Because of that, the truncation of `Duration.getSeconds` does not arise.
- Failures or exceptions from the fare calculator are not modelled. Neither is how often it is called. It is a pair of total functions.
- Logging is not modelled, and neither is the CSV reading and writing around the service (`TapsProcessor`).
- Null fields in a tap are not modelled. In the code such a tap may throw (in the search filter, or when stop identifiers are compared), or it may be pooled under a null card and become a trip with a null card; neither case is modelled. An unknown tap kind is modelled as `Other`.
- The maps and the trip list are `static` in the code, so every instance shares them. Here they are fields of one instance. Calls that overlap on several threads are not modelled. Sequential calls behave alike in both, because `createTrips` resets the state first.
- The code removes the matched tap from the list object held in the map, in place. Here the map entry is replaced by the shorter list. A card's key stays in the map with an empty list in both, and list aliasing is not modelled.
- Service.TripsCreationService.ProcessOrphanOnTaps: promises only that the cards are visited in some order that visits each key once. `HashMap` fixes no order, so the order across cards is stated no further. The order within a card is stated in full.
- Service.TripsCreationService.ProcessOrphanOffTaps: the same as for tap-ons.
- The ghost field `resolved` of the service records which taps made each trip. This lets contracts speak of taps; it is not state of the code.

Where the intended behaviour and the code differ, the model follows the code:

- Among several candidates it picks the first in pool insertion order, not the earliest by timestamp.
- It emits orphan trips in map iteration order, not a fixed order by card.
- It keeps the pooling state in the service object, not per call.
