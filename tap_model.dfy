/**
 * The records the trip-creation service works on: taps (its input), trips (its
 * output) and the fare calculator it consults.
 *
 * Timestamps are whole seconds of local date-time since 1970-01-01T00:00, fares are
 * integer amounts (cents) and the fare calculator is a pair of total, deterministic
 * lookups.
 */
module TapModel {

  datatype Option<+T> = None | Some(value: T)

  /** The kind of a tap. `Other` stands for any value that is neither ON nor OFF. */
  datatype TapType = On | Off | Other

  /** One card scan: identifier, time, kind, stop, operator, vehicle and card (PAN). */
  datatype Tap = Tap(
    id: int,
    time: int,
    kind: TapType,
    stopId: string,
    companyId: string,
    busId: string,
    pan: string)

  datatype TripStatus = Completed | Cancelled | Incomplete

  /** An output record; a missing side is `None` where the Java record stores null. */
  datatype Trip = Trip(
    started: Option<int>,
    finished: Option<int>,
    durationSecs: int,
    fromStopId: Option<string>,
    toStopId: Option<string>,
    chargeAmount: int,
    companyId: string,
    busId: string,
    pan: string,
    status: TripStatus)

  /** The injected collaborator: a fare between two stops, and the maximum fare of a stop. */
  datatype FareCalculator = FareCalculator(
    fare: (string, string) -> int,
    maxFare: string -> int)

  const SecondsPerDay: int := 86400

  /** The calendar date of a timestamp, as a day number (floor division). */
  function Date(t: int): (d: int)
    ensures d * SecondsPerDay <= t < (d + 1) * SecondsPerDay
  {
    t / SecondsPerDay
  }
}
