/**
 * The booking page: the parameters it reads from its address, the full
 * price breakdown with service fee and taxes, and the booking it sends.
 * `parseInt` and `parseFloat` results are parameters, `None` standing for
 * NaN.
 */
module BookingPage {
  import opened Common
  import Entities
  import RoomDetail

  /** The booking parameters; `roomId` and the dates are `None` when the address leaves them out. */
  datatype Params = Params(roomId: Option<string>, checkIn: Option<int>, checkOut: Option<int>, adults: int, children: int)

  /** `parseInt(text) || fallback`: NaN and 0 both give the fallback. */
  function IntOr(parsed: Option<int>, fallback: int): (n: int)
    ensures parsed.Some? && parsed.value != 0 ==> n == parsed.value
    ensures parsed.None? || parsed.value == 0 ==> n == fallback
  {
    if parsed.Some? && parsed.value != 0 then parsed.value else fallback
  }

  /** `parseBookingParameters`: the address's values, with 2 adults and 0 children when missing, not numbers or 0. */
  function ParseBookingParameters(roomId: Option<string>, checkIn: Option<int>, checkOut: Option<int>,
                                  parsedAdults: Option<int>, parsedChildren: Option<int>): (p: Params)
    ensures p.roomId == roomId && p.checkIn == checkIn && p.checkOut == checkOut
    ensures p.adults == (if parsedAdults.Some? && parsedAdults.value != 0 then parsedAdults.value else 2)
    ensures p.children == (if parsedChildren.Some? then parsedChildren.value else 0)
    ensures p.adults != 0
  {
    Params(roomId, checkIn, checkOut, IntOr(parsedAdults, 2), IntOr(parsedChildren, 0))
  }

  /**
   * The start of `initializeBooking`: a guest who is not logged in is sent
   * to the login page, and without a room id only an error is shown.
   */
  function InitializeBooking(loggedIn: bool, p: Params): (r: Result<Params, string>)
    ensures r.Ok? <==> loggedIn && p.roomId.Some? && p.roomId.value != ""
    ensures r.Ok? ==> r.value == p
    ensures !loggedIn ==> r == Err("Please login to book a room")
    ensures loggedIn && (p.roomId.None? || p.roomId.value == "") ==> r == Err("Invalid booking request. Room ID is required.")
  {
    if !loggedIn then Err("Please login to book a room")
    else if p.roomId.None? || p.roomId.value == "" then Err("Invalid booking request. Room ID is required.")
    else Ok(p)
  }

  datatype Breakdown = Breakdown(nights: int, subtotal: real, serviceFee: real, taxes: real, total: real)

  const ServiceFeeRate: real := 0.05
  const TaxRate: real := 0.10

  /**
   * `calculatePrice`: nothing without a room or a date, nor for a stay with
   * no night; otherwise the price times the nights, a 5% service fee, 10%
   * taxes, and their sum. The outer `None` is "nothing shown", the inner
   * one a price that is not a number.
   */
  function CalculatePrice(room: Option<Entities.Room>, price: Option<real>, p: Params): (b: Option<(int, Option<Breakdown>)>)
    ensures b.Some? <==> room.Some? && p.checkIn.Some? && p.checkOut.Some? && p.checkOut.value > p.checkIn.value
    ensures b.Some? ==> b.value.0 == p.checkOut.value - p.checkIn.value >= 1
    ensures b.Some? ==> (b.value.1.Some? <==> price.Some?)
    ensures b.Some? && price.Some? ==>
      var d := b.value.1.value;
      d.nights == b.value.0
      && d.subtotal == price.value * d.nights as real
      && d.serviceFee * 20.0 == d.subtotal
      && d.taxes * 10.0 == d.subtotal
      && d.total == d.subtotal * 1.15
  {
    if room.None? || p.checkIn.None? || p.checkOut.None? then None
    else
      var nights := p.checkOut.value - p.checkIn.value;
      if nights <= 0 then None
      else if price.None? then Some((nights, None))
      else
        var subtotal := price.value * nights as real;
        var fee := subtotal * ServiceFeeRate;
        var taxes := subtotal * TaxRate;
        Some((nights, Some(Breakdown(nights, subtotal, fee, taxes, subtotal + fee + taxes))))
  }

  /**
   * For the same room and stay, the booking page's total is the room page's
   * estimate plus a tenth of the subtotal, the taxes the estimate leaves out.
   */
  lemma TotalExceedsEstimateByTaxes(room: Entities.Room, price: real, checkIn: int, checkOut: int, adults: int, children: int)
    requires checkIn < checkOut
    ensures var e := RoomDetail.CalculatePrice(RoomDetail.DateInputs(Some(checkIn), Some(checkOut)), Some(room), Some(price));
      var b := CalculatePrice(Some(room), Some(price), Params(Some("1"), Some(checkIn), Some(checkOut), adults, children));
      e.Shown? && e.amounts.Some? && b.Some? && b.value.1.Some?
      && b.value.1.value.subtotal == e.amounts.value.subtotal
      && b.value.1.value.total == e.amounts.value.total + e.amounts.value.subtotal / 10.0
  {
  }

  /** The booking sent to the server. */
  datatype BookingData = BookingData(
    checkInDate: int,
    checkOutDate: int,
    numOfAdults: int,
    numOfChildren: int,
    guestName: string,
    guestEmail: string,
    guestPhoneNumber: string,
    specialRequests: string)

  /** The day number of 1 January 1970, the date `new Date(null)` stands for. */
  const EpochDay: int := 0

  /**
   * `createBookingData`: the dates and the guest counts of the parameters,
   * the guest's details as typed, and the special requests, "" when empty.
   * Nothing checks the dates first: a date missing from the address is
   * read as `new Date(null)`, the epoch, and sent as day 0, 1970-01-01.
   */
  function CreateBookingData(p: Params, guestName: string, guestEmail: string, guestPhone: string, specialRequests: string)
    : (d: BookingData)
    ensures p.checkIn.Some? ==> d.checkInDate == p.checkIn.value
    ensures p.checkOut.Some? ==> d.checkOutDate == p.checkOut.value
    ensures p.checkIn.None? ==> d.checkInDate == EpochDay
    ensures p.checkOut.None? ==> d.checkOutDate == EpochDay
    ensures d.numOfAdults == p.adults && d.numOfChildren == p.children
    ensures d.guestName == guestName && d.guestEmail == guestEmail && d.guestPhoneNumber == guestPhone
    ensures d.specialRequests == specialRequests
  {
    BookingData(p.checkIn.GetOr(EpochDay), p.checkOut.GetOr(EpochDay), p.adults, p.children, guestName, guestEmail, guestPhone,
                if specialRequests != "" then specialRequests else "")
  }

  /**
   * With the guest counts left out of the address, the booking asks for two
   * adults and no children, which the entity's constraints accept; an
   * explicit negative adult count is passed through and the entity refuses it.
   */
  lemma GuestDefaultsMeetEntityConstraints(checkIn: int, checkOut: int, today: int)
    requires checkOut > today
    ensures var p := ParseBookingParameters(Some("1"), Some(checkIn), Some(checkOut), None, None);
      var d := CreateBookingData(p, "", "", "", "");
      Entities.SatisfiesConstraints(
        Entities.Booking(0, Some(d.checkInDate), Some(d.checkOutDate), d.numOfAdults as Entities.Int32,
                         d.numOfChildren as Entities.Int32, 0, None, None, None), today)
    ensures var p := ParseBookingParameters(Some("1"), Some(checkIn), Some(checkOut), Some(-1), None);
      var d := CreateBookingData(p, "", "", "", "");
      !Entities.SatisfiesConstraints(
        Entities.Booking(0, Some(d.checkInDate), Some(d.checkOutDate), d.numOfAdults as Entities.Int32,
                         d.numOfChildren as Entities.Int32, 0, None, None, None), today)
  {
  }

  /**
   * A booking sent from an address without a check-out date carries
   * 1970-01-01 as its check-out, which is not in the future, so the
   * entity's constraints refuse it whatever else it holds.
   */
  lemma MissingCheckOutIsRefused(p: Params, today: int)
    requires p.checkOut.None? && today >= EpochDay
    requires Entities.FitsInt32(p.adults) && Entities.FitsInt32(p.children)
    ensures var d := CreateBookingData(p, "", "", "", "");
      d.checkOutDate == EpochDay
      && !Entities.SatisfiesConstraints(
        Entities.Booking(0, Some(d.checkInDate), Some(d.checkOutDate), d.numOfAdults as Entities.Int32,
                         d.numOfChildren as Entities.Int32, 0, None, None, None), today)
  {
  }
}
