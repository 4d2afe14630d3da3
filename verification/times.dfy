/** Go's `time.Time`, reduced to what the classifier keeps of it: the
    wall-clock reading and the location it is read in. Instants, monotonic
    readings and time-zone rules are not modelled. */
module Times {

  /** The calendar and clock fields `time.Date` takes. */
  datatype WallClock = WallClock(year: int, month: nat, day: nat, hour: nat, minute: nat, second: nat, nanosecond: nat)

  /** A time: a wall-clock reading in a named location. */
  datatype Time = Time(wall: WallClock, location: string)

  /** `time.Time{}`: January 1 of year 1, 00:00:00 UTC. */
  const ZeroTime: Time := Time(WallClock(1, 1, 1, 0, 0, 0, 0), "UTC")
}
