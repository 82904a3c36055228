/**
 * The room page's booking box: the dates it starts with, the check-out
 * date kept after the check-in date, the quick price estimate and the
 * checks made before the guest is sent on to the booking page.
 */
module RoomDetail {
  import opened Common
  import opened Dates
  import Entities

  /** The two date inputs; `None` is an empty input. */
  datatype DateInputs = DateInputs(checkIn: Option<int>, checkOut: Option<int>)

  /**
   * `setDefaultBookingDates`: the dates of the page's address when both are
   * given, otherwise tomorrow and the day after.
   */
  function DefaultBookingDates(urlCheckIn: Option<int>, urlCheckOut: Option<int>, today: int): (d: DateInputs)
    ensures urlCheckIn.Some? && urlCheckOut.Some? ==> d == DateInputs(urlCheckIn, urlCheckOut)
    ensures urlCheckIn.None? || urlCheckOut.None? ==> d == DateInputs(Some(today + 1), Some(today + 2))
    ensures d.checkIn.Some? && d.checkOut.Some?
  {
    if urlCheckIn.Some? && urlCheckOut.Some? then DateInputs(urlCheckIn, urlCheckOut)
    else DateInputs(Some(today + 1), Some(today + 2))
  }

  /**
   * `handleDateChange`: once a check-in date is set, a check-out date that is
   * not after it moves to the day after it; otherwise nothing changes.
   */
  function HandleDateChange(d: DateInputs): (e: DateInputs)
    ensures e.checkIn == d.checkIn
    ensures e.checkOut.Some? <==> d.checkOut.Some?
    ensures e.checkIn.Some? && e.checkOut.Some? ==> e.checkOut.value > e.checkIn.value
    ensures d.checkIn.Some? && d.checkOut.Some? && d.checkOut.value > d.checkIn.value ==> e == d
  {
    DateInputs(d.checkIn, AdjustCheckOut(d.checkIn, d.checkOut))
  }

  /** A second change of the dates leaves them as the first one did. */
  lemma DateChangeSettles(d: DateInputs)
    ensures HandleDateChange(HandleDateChange(d)) == HandleDateChange(d)
  {
  }

  /** The amounts of the estimate; `None` when the room's price is not a number and the page shows NaN. */
  datatype Amounts = Amounts(subtotal: real, serviceFee: real, total: real)

  /** The estimate: hidden, or shown for a number of nights. */
  datatype Estimate = Hidden | Shown(nights: int, amounts: Option<Amounts>)

  const ServiceFeeRate: real := 0.05

  /**
   * `calculatePrice`: hidden when a date or the room is missing or the stay
   * has no night; otherwise the price times the nights, a 5% service fee on
   * that, and their sum. There is no tax here. `price` is `parseFloat` of
   * the room's price.
   */
  function CalculatePrice(d: DateInputs, room: Option<Entities.Room>, price: Option<real>): (e: Estimate)
    ensures e.Shown? <==> d.checkIn.Some? && d.checkOut.Some? && room.Some? && d.checkOut.value > d.checkIn.value
    ensures e.Shown? ==> e.nights == d.checkOut.value - d.checkIn.value && e.nights >= 1
    ensures e.Shown? ==> (e.amounts.Some? <==> price.Some?)
    ensures e.Shown? && price.Some? ==>
      e.amounts.value.subtotal == price.value * e.nights as real
      && e.amounts.value.serviceFee * 20.0 == e.amounts.value.subtotal
      && e.amounts.value.total * 20.0 == e.amounts.value.subtotal * 21.0
  {
    if d.checkIn.None? || d.checkOut.None? || room.None? then Hidden
    else
      var nights := d.checkOut.value - d.checkIn.value;
      if nights <= 0 then Hidden
      else if price.None? then Shown(nights, None)
      else
        var subtotal := price.value * nights as real;
        var fee := subtotal * ServiceFeeRate;
        Shown(nights, Some(Amounts(subtotal, fee, subtotal + fee)))
  }

  /** Where the booking button sends the guest: the room and the stay, with the guest counts as typed. */
  datatype BookingRequest = BookingRequest(roomId: string, checkIn: int, checkOut: int, adults: string, children: string)

  /**
   * `handleBookingSubmit`: in this order, the guest must be logged in, both
   * dates must be set, check-in must not be before today and check-out must
   * be after check-in; the first check that fails gives its message.
   */
  function HandleBookingSubmit(loggedIn: bool, roomId: string, d: DateInputs, adults: string, children: string, today: int)
    : (r: Result<BookingRequest, string>)
    ensures r.Ok? <==>
      loggedIn && d.checkIn.Some? && d.checkOut.Some? && today <= d.checkIn.value < d.checkOut.value
    ensures r.Ok? ==> r.value == BookingRequest(roomId, d.checkIn.value, d.checkOut.value, adults, children)
    ensures !loggedIn ==> r == Err("Please login to book a room")
    ensures loggedIn && (d.checkIn.None? || d.checkOut.None?) ==> r == Err("Please select check-in and check-out dates")
    ensures loggedIn && d.checkIn.Some? && d.checkOut.Some? && d.checkIn.value < today ==>
      r == Err("Check-in date cannot be in the past")
    ensures loggedIn && d.checkIn.Some? && d.checkOut.Some? && today <= d.checkIn.value && d.checkOut.value <= d.checkIn.value ==>
      r == Err("Check-out date must be after check-in date")
  {
    if !loggedIn then Err("Please login to book a room")
    else if d.checkIn.None? || d.checkOut.None? then Err("Please select check-in and check-out dates")
    else if d.checkIn.value < today then Err("Check-in date cannot be in the past")
    else if d.checkOut.value <= d.checkIn.value then Err("Check-out date must be after check-in date")
    else Ok(BookingRequest(roomId, d.checkIn.value, d.checkOut.value, adults, children))
  }

  /**
   * A logged-in guest who keeps the default dates, or picks a check-in from
   * today on and lets the page adjust the check-out, is sent on; an estimate
   * is then shown for those dates.
   */
  lemma DefaultsAndAdjustedDatesAreAccepted(roomId: string, room: Entities.Room, price: Option<real>,
                                            checkIn: int, checkOut: Option<int>, today: int)
    requires today <= checkIn
    ensures HandleBookingSubmit(true, roomId, DefaultBookingDates(None, None, today), "2", "0", today).Ok?
    ensures CalculatePrice(DefaultBookingDates(None, None, today), Some(room), price).Shown?
    ensures checkOut.Some? ==>
      HandleBookingSubmit(true, roomId, HandleDateChange(DateInputs(Some(checkIn), checkOut)), "2", "0", today).Ok?
  {
  }
}
