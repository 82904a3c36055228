/**
 * Calendar dates as integer day numbers, day 0 being Thursday 1 January 1970.
 * Every browser script compares dates at midnight, so a date is its day number.
 */
module Dates {
  import opened Common

  /** JavaScript's `getDay()`: 0 for Sunday up to 6 for Saturday. */
  function Weekday(d: int): (w: int)
    ensures 0 <= w < 7
  {
    (d + 4) % 7
  }

  /** Day 0 is a Thursday, the days run through the week in turn, and the weekday repeats every seven days. */
  lemma WeekdayCycle(d: int)
    ensures Weekday(0) == 4
    ensures Weekday(d + 1) == (Weekday(d) + 1) % 7
    ensures Weekday(d + 7) == Weekday(d)
  {
  }

  /** The Sunday that starts the week containing `today`. */
  function WeekStart(today: int): (start: int)
    ensures start <= today < start + 7
    ensures Weekday(start) == 0
  {
    today - Weekday(today)
  }

  /**
   * The check-out date after the check-in date changed: when both are set
   * and check-out is not after check-in, check-out moves to the day after
   * check-in; otherwise nothing changes.
   */
  function AdjustCheckOut(checkIn: Option<int>, checkOut: Option<int>): (out: Option<int>)
    ensures out.Some? <==> checkOut.Some?
    ensures checkIn.Some? && out.Some? ==> out.value > checkIn.value
    ensures checkIn.None? ==> out == checkOut
    ensures checkIn.Some? && checkOut.Some? && checkOut.value > checkIn.value ==> out == checkOut
    ensures out != checkOut ==> out == Some(checkIn.value + 1)
  {
    if checkIn.Some? && checkOut.Some? && checkOut.value <= checkIn.value then
      Some(checkIn.value + 1)
    else
      checkOut
  }
}
