/**
 * The booking service of the backend: saving a booking after checking the
 * date order, the room, the user and the room's availability; cancelling;
 * listing; and lookup by confirmation code. Every operation answers with a
 * status code: 200 on success, 404 for a missing room, user or booking and
 * 500 for any other failure.
 */
module BookingService {
  import opened Common
  import opened Text
  import opened Entities

  datatype Response = Response(
    statusCode: int,
    message: string,
    bookingConfirmationCode: Option<string>,
    booking: Option<Booking>,
    bookingList: Option<seq<Booking>>)

  function Reply(statusCode: int, message: string): Response {
    Response(statusCode, message, None, None, None)
  }

  const SaveError := "Error saving a booking "

  /**
   * Two stays overlap when each one starts before the other ends. Stays are
   * half-open ranges of nights [checkIn, checkOut).
   */
  predicate Overlaps(aIn: int, aOut: int, bIn: int, bOut: int) {
    aIn < bOut && aOut > bIn
  }

  /** A booking as `saveBooking` stores it. */
  predicate WellFormed(b: Booking) {
    b.checkInDate.Some? && b.checkOutDate.Some? && b.checkInDate.value <= b.checkOutDate.value
    && b.roomId.Some? && b.userId.Some? && b.bookingConfirmationCode.Some?
    && GuestTotalConsistent(b)
  }

  /** The database as the services keep it: valid tables, ids matching keys, every booking well formed. */
  predicate Valid(h: Hotel) {
    h.rooms.Valid() && h.users.Valid() && h.bookings.Valid()
    && forall k :: k in h.bookings.rows ==> h.bookings.rows[k].id == k && WellFormed(h.bookings.rows[k])
  }

  /** No two bookings of the same room overlap. */
  predicate NoOverlaps(h: Hotel)
    requires Valid(h)
  {
    forall j, k ::
      (j in h.bookings.rows && k in h.bookings.rows && j != k
       && h.bookings.rows[j].roomId == h.bookings.rows[k].roomId) ==>
      !Overlaps(h.bookings.rows[j].checkInDate.value, h.bookings.rows[j].checkOutDate.value,
                h.bookings.rows[k].checkInDate.value, h.bookings.rows[k].checkOutDate.value)
  }

  /** `room.getBookings()`: the bookings stored against `roomId`. */
  function RoomBookings(h: Hotel, roomId: int): (r: set<Booking>)
    requires Valid(h)
    ensures forall b :: b in r ==> WellFormed(b) && b.roomId == Some(roomId)
  {
    set k | k in h.bookings.rows && h.bookings.rows[k].roomId == Some(roomId) :: h.bookings.rows[k]
  }

  /**
   * `roomIsAvailable`: no existing stay overlaps the requested one, that is,
   * each existing stay ends by the requested check-in or starts no earlier
   * than the requested check-out.
   */
  function RoomIsAvailable(checkIn: int, checkOut: int, existing: set<Booking>): (ok: bool)
    requires forall e :: e in existing ==> e.checkInDate.Some? && e.checkOutDate.Some?
    ensures ok <==> forall e :: e in existing ==>
      e.checkOutDate.value <= checkIn || checkOut <= e.checkInDate.value
  {
    forall e | e in existing :: !(checkIn < e.checkOutDate.value && checkOut > e.checkInDate.value)
  }

  /** A stay may start on the day another one ends. */
  lemma BackToBackStaysAllowed(e: Booking, checkOut: int)
    requires e.checkInDate.Some? && e.checkOutDate.Some?
    ensures RoomIsAvailable(e.checkOutDate.value, checkOut, {e})
  {
  }

  /** Overlap does not depend on which stay is named first. */
  lemma OverlapsSymmetric(aIn: int, aOut: int, bIn: int, bOut: int)
    ensures Overlaps(aIn, aOut, bIn, bOut) <==> Overlaps(bIn, bOut, aIn, aOut)
  {
  }

  predicate Dated(b: Booking) {
    b.checkInDate.Some? && b.checkOutDate.Some?
  }

  /** The room's bookings leave the requested stay free. */
  predicate StayIsFree(h: Hotel, roomId: int, checkIn: int, checkOut: int)
    requires Valid(h)
  {
    forall k :: k in h.bookings.rows && h.bookings.rows[k].roomId == Some(roomId) ==>
      h.bookings.rows[k].checkOutDate.value <= checkIn || checkOut <= h.bookings.rows[k].checkInDate.value
  }

  /**
   * `saveBooking`. A missing date fails with a null dereference and a
   * check-out before check-in is refused, both as 500; a missing room or
   * user gives 404; an overlap with a booking of the room gives 500, and so
   * does a booking the entity constraints reject when it is persisted. On
   * success the booking is stored under a fresh id with the room, the user,
   * the confirmation code `code` and its guest total, and the answer is 200
   * with that code. A failure changes nothing.
   */
  function SaveBooking(h: Hotel, roomId: int, userId: int, request: Booking, code: string, today: int)
    : (out: (Hotel, Response))
    requires Valid(h)
    ensures Valid(out.0)
    ensures out.1.statusCode != 200 ==> out.0 == h
    ensures !Dated(request) ==> out.1.statusCode == 500
    ensures Dated(request) && request.checkOutDate.value < request.checkInDate.value ==>
      out.1 == Reply(500, SaveError + "Check in Date should be before Check Out Date")
    ensures (Dated(request) && request.checkInDate.value <= request.checkOutDate.value
             && roomId !in h.rooms.rows) ==> out.1 == Reply(404, "Room not found")
    ensures (Dated(request) && request.checkInDate.value <= request.checkOutDate.value
             && roomId in h.rooms.rows && userId !in h.users.rows) ==> out.1 == Reply(404, "User not found")
    ensures (Dated(request) && request.checkInDate.value <= request.checkOutDate.value
             && roomId in h.rooms.rows && userId in h.users.rows
             && !StayIsFree(h, roomId, request.checkInDate.value, request.checkOutDate.value)) ==>
      out.1 == Reply(500, SaveError + "Room is not available for selected date range")
    ensures (Dated(request) && request.checkInDate.value <= request.checkOutDate.value
             && roomId in h.rooms.rows && userId in h.users.rows
             && StayIsFree(h, roomId, request.checkInDate.value, request.checkOutDate.value)
             && !SatisfiesConstraints(request, today)) ==> out.1 == Reply(500, SaveError)
    ensures out.1.statusCode == 200 <==>
      Dated(request) && request.checkInDate.value <= request.checkOutDate.value
      && roomId in h.rooms.rows && userId in h.users.rows
      && StayIsFree(h, roomId, request.checkInDate.value, request.checkOutDate.value)
      && SatisfiesConstraints(request, today)
    ensures out.1.statusCode == 200 ==>
      var id := h.bookings.nextId;
      out.1.message == "Booking successful" && out.1.bookingConfirmationCode == Some(code)
      && out.0.rooms == h.rooms && out.0.users == h.users
      && id !in h.bookings.rows && id in out.0.bookings.rows
      && out.0.bookings.rows == h.bookings.rows[id := out.0.bookings.rows[id]]
      && var b := out.0.bookings.rows[id];
         b.roomId == Some(roomId) && b.userId == Some(userId) && b.bookingConfirmationCode == Some(code)
         && b.checkInDate == request.checkInDate && b.checkOutDate == request.checkOutDate
         && b.numOfAdults == request.numOfAdults && b.numOfChildren == request.numOfChildren
         && (FitsInt32(b.numOfAdults as int + b.numOfChildren as int) ==>
               b.totalNumOfGuest as int == b.numOfAdults as int + b.numOfChildren as int)
  {
    if !Dated(request) then
      (h, Reply(500, SaveError))
    else if request.checkOutDate.value < request.checkInDate.value then
      (h, Reply(500, SaveError + "Check in Date should be before Check Out Date"))
    else if roomId !in h.rooms.rows then
      (h, Reply(404, "Room not found"))
    else if userId !in h.users.rows then
      (h, Reply(404, "User not found"))
    else if !RoomIsAvailable(request.checkInDate.value, request.checkOutDate.value, RoomBookings(h, roomId)) then
      AvailabilityIsStayFree(h, roomId, request.checkInDate.value, request.checkOutDate.value);
      (h, Reply(500, SaveError + "Room is not available for selected date range"))
    else if !SatisfiesConstraints(request, today) then
      AvailabilityIsStayFree(h, roomId, request.checkInDate.value, request.checkOutDate.value);
      (h, Reply(500, SaveError))
    else
      AvailabilityIsStayFree(h, roomId, request.checkInDate.value, request.checkOutDate.value);
      var attached := request.(id := h.bookings.nextId, roomId := Some(roomId), userId := Some(userId),
                               bookingConfirmationCode := Some(code));
      var saved := CalculateTotalNumOfGuests(attached);
      (h.(bookings := h.bookings.Add(saved)), Response(200, "Booking successful", Some(code), None, None))
  }

  lemma AvailabilityIsStayFree(h: Hotel, roomId: int, checkIn: int, checkOut: int)
    requires Valid(h)
    ensures RoomIsAvailable(checkIn, checkOut, RoomBookings(h, roomId)) <==> StayIsFree(h, roomId, checkIn, checkOut)
  {
    if RoomIsAvailable(checkIn, checkOut, RoomBookings(h, roomId)) {
      forall k | k in h.bookings.rows && h.bookings.rows[k].roomId == Some(roomId)
        ensures h.bookings.rows[k].checkOutDate.value <= checkIn || checkOut <= h.bookings.rows[k].checkInDate.value
      {
        assert h.bookings.rows[k] in RoomBookings(h, roomId);
      }
    }
  }

  /** A successful save keeps every room free of overlapping bookings. */
  lemma SaveBookingPreservesNoOverlaps(h: Hotel, roomId: int, userId: int, request: Booking, code: string, today: int)
    requires Valid(h) && NoOverlaps(h)
    ensures var out := SaveBooking(h, roomId, userId, request, code, today);
      Valid(out.0) && NoOverlaps(out.0)
  {
    var out := SaveBooking(h, roomId, userId, request, code, today);
    if out.1.statusCode == 200 {
      var rows := out.0.bookings.rows;
      var id := h.bookings.nextId;
      forall j, k | j in rows && k in rows && j != k && rows[j].roomId == rows[k].roomId
        ensures !Overlaps(rows[j].checkInDate.value, rows[j].checkOutDate.value,
                          rows[k].checkInDate.value, rows[k].checkOutDate.value)
      {
        if j == id {
          assert k in h.bookings.rows && h.bookings.rows[k].roomId == Some(roomId);
        } else if k == id {
          assert j in h.bookings.rows && h.bookings.rows[j].roomId == Some(roomId);
        } else {
          assert rows[j] == h.bookings.rows[j] && rows[k] == h.bookings.rows[k];
        }
      }
    }
  }

  /**
   * `cancelBooking`: an unknown id answers 404 and changes nothing;
   * otherwise exactly that booking is deleted and the answer is 200.
   */
  function CancelBooking(h: Hotel, bookingId: int): (out: (Hotel, Response))
    requires Valid(h)
    ensures Valid(out.0)
    ensures out.0.rooms == h.rooms && out.0.users == h.users && out.0.bookings.nextId == h.bookings.nextId
    ensures bookingId !in h.bookings.rows ==> out.0 == h && out.1 == Reply(404, "Booking not found")
    ensures bookingId in h.bookings.rows ==>
      out.0.bookings.rows.Keys == h.bookings.rows.Keys - {bookingId}
      && (forall k :: k in out.0.bookings.rows ==> out.0.bookings.rows[k] == h.bookings.rows[k])
      && out.1 == Reply(200, "Successfully deleted booking with id " + IntToString(bookingId))
  {
    if bookingId !in h.bookings.rows then
      (h, Reply(404, "Booking not found"))
    else
      (h.(bookings := h.bookings.Remove(bookingId)),
       Reply(200, "Successfully deleted booking with id " + IntToString(bookingId)))
  }

  /** Cancelling a booking just made restores the bookings that were there before. */
  lemma CancelUndoesSave(h: Hotel, roomId: int, userId: int, request: Booking, code: string, today: int)
    requires Valid(h)
    requires SaveBooking(h, roomId, userId, request, code, today).1.statusCode == 200
    ensures var saved := SaveBooking(h, roomId, userId, request, code, today).0;
      CancelBooking(saved, h.bookings.nextId).0.bookings.rows == h.bookings.rows
  {
    var saved := SaveBooking(h, roomId, userId, request, code, today).0;
    assert saved.bookings.rows - {h.bookings.nextId} == h.bookings.rows;
  }

  /** Cancelling never creates an overlap. */
  lemma CancelPreservesNoOverlaps(h: Hotel, bookingId: int)
    requires Valid(h) && NoOverlaps(h)
    ensures NoOverlaps(CancelBooking(h, bookingId).0)
  {
  }

  /** `getAllBookings`: every stored booking, ordered by id from the newest down. */
  method GetAllBookings(h: Hotel) returns (response: Response)
    requires Valid(h)
    ensures response.statusCode == 200 && response.message == "Successfully found all bookings"
    ensures response.bookingList.Some?
    ensures var list := response.bookingList.value;
      (forall i, j :: 0 <= i < j < |list| ==> list[i].id > list[j].id)
      && (forall i :: 0 <= i < |list| ==> list[i].id in h.bookings.rows && h.bookings.rows[list[i].id] == list[i])
      && (forall k :: k in h.bookings.rows ==> h.bookings.rows[k] in list)
  {
    var ids := KeysDescending(h.bookings);
    forall i | 0 <= i < |ids|
      ensures ids[i] in h.bookings.rows
    {
      assert ids[i] in ids;
    }
    var list := seq(|ids|, i requires 0 <= i < |ids| => h.bookings.rows[ids[i]]);
    forall k | k in h.bookings.rows
      ensures h.bookings.rows[k] in list
    {
      assert k in ids;
      var i :| 0 <= i < |ids| && ids[i] == k;
      assert list[i] == h.bookings.rows[k];
    }
    response := Response(200, "Successfully found all bookings", None, None, Some(list));
  }

  /** The keys of the bookings that carry confirmation code `code`, from the newest down. */
  function WithCode(h: Hotel, code: string): (r: seq<int>)
    requires Valid(h)
    ensures forall k :: k in r <==> k in h.bookings.rows && h.bookings.rows[k].bookingConfirmationCode == Some(code)
    ensures forall i, j :: 0 <= i < j < |r| ==> r[i] > r[j]
    ensures (forall k :: k in h.bookings.rows ==> h.bookings.rows[k].bookingConfirmationCode != Some(code)) ==> r == []
  {
    KeysWhere(h.bookings, (b: Booking) => b.bookingConfirmationCode == Some(code), h.bookings.nextId)
  }

  /**
   * `findBookingByConfirmationCode`: 404 when no booking carries the code;
   * 200 with the booking when exactly one does; 500 when several do, since
   * the repository query expects a unique result.
   */
  function FindBookingByConfirmationCode(h: Hotel, code: string): (response: Response)
    requires Valid(h)
    ensures response.statusCode in {200, 404, 500}
    ensures response.statusCode == 404 <==>
      forall k :: k in h.bookings.rows ==> h.bookings.rows[k].bookingConfirmationCode != Some(code)
    ensures response.statusCode == 404 ==> response == Reply(404, "Booking not found")
    ensures response.statusCode == 200 ==>
      response.message == "Successfully found booking with confirmation code " + code
      && response.booking.Some? && response.booking.value in h.bookings.rows.Values
      && response.booking.value.bookingConfirmationCode == Some(code)
      && forall k :: k in h.bookings.rows && h.bookings.rows[k].bookingConfirmationCode == Some(code) ==>
           h.bookings.rows[k] == response.booking.value
    ensures response.statusCode == 500 ==>
      exists j, k :: j in h.bookings.rows && k in h.bookings.rows && j != k
        && h.bookings.rows[j].bookingConfirmationCode == Some(code)
        && h.bookings.rows[k].bookingConfirmationCode == Some(code)
  {
    var matches := WithCode(h, code);
    if |matches| == 0 then
      Reply(404, "Booking not found")
    else if |matches| == 1 then
      assert matches == [matches[0]];
      Response(200, "Successfully found booking with confirmation code " + code,
               None, Some(h.bookings.rows[matches[0]]), None)
    else
      assert matches[0] in matches && matches[1] in matches;
      Reply(500, "Error finding a booking ")
  }

  /**
   * A booking saved with a confirmation code no other booking carries is
   * then found by that code.
   */
  lemma SavedBookingIsFoundByCode(h: Hotel, roomId: int, userId: int, request: Booking, code: string, today: int)
    requires Valid(h)
    requires forall k :: k in h.bookings.rows ==> h.bookings.rows[k].bookingConfirmationCode != Some(code)
    requires SaveBooking(h, roomId, userId, request, code, today).1.statusCode == 200
    ensures var saved := SaveBooking(h, roomId, userId, request, code, today).0;
      var found := FindBookingByConfirmationCode(saved, code);
      found.statusCode == 200 && found.booking == Some(saved.bookings.rows[h.bookings.nextId])
  {
    var saved := SaveBooking(h, roomId, userId, request, code, today).0;
    KeysWhereSingle(saved.bookings, (b: Booking) => b.bookingConfirmationCode == Some(code),
                    saved.bookings.nextId, h.bookings.nextId);
  }
}
