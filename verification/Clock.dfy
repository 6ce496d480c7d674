/** Times, in units that do not matter, with Go's zero time as 0. */
module Clock {
  type Time = int

  const ZERO_TIME: Time := 0
}
