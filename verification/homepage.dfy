/**
 * The home page: the featured rooms, the search form's checks and the
 * dates the form starts with and keeps in order.
 */
module Homepage {
  import opened Common
  import opened Dates
  import opened Entities
  import Rooms

  const FeaturedCount: nat := 6

  /**
   * `loadFeaturedRooms`: the first six rooms of a non-empty list, or `None`,
   * the "no rooms" message, when the answer has no list, an empty one, or
   * the request failed.
   */
  function FeaturedRooms(roomList: Option<seq<Room>>): (r: Option<seq<Room>>)
    ensures r.Some? <==> roomList.Some? && |roomList.value| > 0
    ensures r.Some? ==> 1 <= |r.value| == Min(FeaturedCount, |roomList.value|)
    ensures r.Some? ==> r.value == roomList.value[..|r.value|]
  {
    if roomList.Some? && |roomList.value| > 0 then
      Some(if |roomList.value| > FeaturedCount then roomList.value[..FeaturedCount] else roomList.value)
    else None
  }

  /** What the search form sends to the room list. */
  datatype SearchQuery = SearchQuery(checkInDate: int, checkOutDate: int, roomType: string)

  /**
   * The search form's submit handler: both dates must be filled in,
   * check-in must not be before today and check-out must be after check-in,
   * checked in this order; then the dates and the type are sent on.
   */
  function SubmitSearch(checkIn: Option<int>, checkOut: Option<int>, roomType: string, today: int)
    : (r: Result<SearchQuery, string>)
    ensures r.Ok? <==> checkIn.Some? && checkOut.Some? && today <= checkIn.value < checkOut.value
    ensures r.Ok? ==> r.value == SearchQuery(checkIn.value, checkOut.value, roomType)
    ensures checkIn.None? || checkOut.None? ==> r == Err("Please fill check-in and check-out dates")
    ensures checkIn.Some? && checkOut.Some? && checkIn.value < today ==> r == Err("Check-in date cannot be in the past")
    ensures checkIn.Some? && checkOut.Some? && today <= checkIn.value && checkOut.value <= checkIn.value ==>
      r == Err("Check-out date must be after check-in date")
  {
    if checkIn.None? || checkOut.None? then Err("Please fill check-in and check-out dates")
    else if checkIn.value < today then Err("Check-in date cannot be in the past")
    else if checkOut.value <= checkIn.value then Err("Check-out date must be after check-in date")
    else Ok(SearchQuery(checkIn.value, checkOut.value, roomType))
  }

  /** A search the home page sends on is never refused by the room list's own date check. */
  lemma SentSearchIsAcceptedByRoomList(checkIn: Option<int>, checkOut: Option<int>, roomType: string, today: int,
                                       current: Rooms.SearchParams)
    requires SubmitSearch(checkIn, checkOut, roomType, today).Ok?
    ensures var q := SubmitSearch(checkIn, checkOut, roomType, today).value;
      Rooms.HandleSearch(current, Some(q.checkInDate), Some(q.checkOutDate), q.roomType)
        == Some(Rooms.SearchParams(checkIn, checkOut, roomType))
  {
  }

  /** The two date inputs; `None` is an empty input. */
  datatype DateInputs = DateInputs(checkIn: Option<int>, checkOut: Option<int>)

  /** `setDefaultDates`: today and tomorrow. */
  function DefaultDates(today: int): (d: DateInputs)
    ensures d.checkIn == Some(today) && d.checkOut.Some? && d.checkOut.value == today + 1
  {
    DateInputs(Some(today), Some(today + 1))
  }

  /** The check-in input's change handler: a check-out not after the new check-in moves to the day after it. */
  function CheckInChanged(d: DateInputs, checkIn: Option<int>): (e: DateInputs)
    ensures e.checkIn == checkIn
    ensures e.checkOut.Some? <==> d.checkOut.Some?
    ensures checkIn.Some? && e.checkOut.Some? ==> e.checkOut.value > checkIn.value
    ensures checkIn.Some? && d.checkOut.Some? && d.checkOut.value > checkIn.value ==> e.checkOut == d.checkOut
  {
    DateInputs(checkIn, AdjustCheckOut(checkIn, d.checkOut))
  }

  /**
   * The default dates pass the search checks, and so do the dates after any
   * check-in from today on is picked: the form never offers a stay it
   * would refuse.
   */
  lemma FormDatesAreSearchable(today: int, checkIn: int, roomType: string)
    requires today <= checkIn
    ensures SubmitSearch(DefaultDates(today).checkIn, DefaultDates(today).checkOut, roomType, today).Ok?
    ensures var e := CheckInChanged(DefaultDates(today), Some(checkIn));
      SubmitSearch(e.checkIn, e.checkOut, roomType, today).Ok?
  {
  }
}
