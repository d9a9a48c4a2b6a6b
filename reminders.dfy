/**
  The reminder scheduler's timing: on every pass it takes the wall-clock time of day in a
  fixed zone, aims one timer at the next 12:00 and one at the next 21:00 (today's if not yet
  passed, otherwise tomorrow's), and serves whichever fires first. Times of day are counted
  in nanoseconds, the resolution of Go's clock; the zone has no daylight saving.
*/
module Reminders {

  const NanosPerSecond: int := 1_000_000_000
  const DayLength: int := 24 * 3600 * NanosPerSecond
  const NoonAt: int := 12 * 3600 * NanosPerSecond
  const EveningAt: int := 21 * 3600 * NanosPerSecond

  /** A point in the day: nanoseconds since midnight. */
  predicate IsTimeOfDay(t: int)
  {
    0 <= t < DayLength
  }

  /** The time of day `w` nanoseconds after `now`. */
  function Later(now: int, w: int): int
  {
    (now + w) % DayLength
  }

  /**
    The timer delay from `now` to the trigger at time of day `at`: the trigger is rolled to the
    next day only when `now` is strictly after it.
  */
  function DelayUntil(now: int, at: int): (delay: int)
    requires IsTimeOfDay(now) && IsTimeOfDay(at)
    ensures 0 <= delay < DayLength
    ensures Later(now, delay) == at
    ensures forall w :: 0 <= w < delay ==> Later(now, w) != at
  {
    if now > at then at + DayLength - now else at - now
  }

  datatype Reminder = Daily | LastChance

  function TriggerOf(r: Reminder): int
  {
    match r
    case Daily => NoonAt
    case LastChance => EveningAt
  }

  /** The reminder whose timer expires first on this pass of the loop. */
  function FirstToFire(now: int): (r: Reminder)
    requires IsTimeOfDay(now)
    ensures r == Daily <==> now <= NoonAt || now > EveningAt
    ensures DelayUntil(now, TriggerOf(r)) < DelayUntil(now, TriggerOf(if r == Daily then LastChance else Daily))
  {
    if DelayUntil(now, NoonAt) < DelayUntil(now, EveningAt) then Daily else LastChance
  }
}
