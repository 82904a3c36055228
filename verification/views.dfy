/**
 * The JSON objects the browser scripts receive from the backend: a booking
 * with its guest and room, and a user with an optional booking history.
 * Dates are day numbers; a field the response may leave out is an `Option`.
 */
module Views {
  import opened Common
  import opened Text
  import Entities

  /** A user as the API returns it; `bookings` is present in the booking-history response. */
  datatype UserView = UserView(
    id: int,
    name: Option<string>,
    email: Option<string>,
    phoneNumber: Option<string>,
    role: Option<string>,
    bookings: Option<seq<BookingView>>)

  /** A booking as the API returns it, with the guest and the room attached when known. */
  datatype BookingView = BookingView(
    id: int,
    checkInDate: int,
    checkOutDate: int,
    numOfAdults: int,
    numOfChildren: int,
    bookingConfirmationCode: Option<string>,
    status: Option<string>,
    guestName: Option<string>,
    user: Option<UserView>,
    room: Option<Entities.Room>)

  /** `value?.toLowerCase() || ''`: the lower-cased text, or "" when it is missing. */
  function LowerOrEmpty(value: Option<string>): string {
    if value.Some? then Lower(value.value) else ""
  }

  /** The room type of a booking's room, when both are known. */
  function RoomTypeOf(b: BookingView): Option<string> {
    if b.room.Some? then b.room.value.roomType else None
  }

  /** The guest's name, when the booking carries a user with a name. */
  function GuestNameOf(b: BookingView): Option<string> {
    if b.user.Some? then b.user.value.name else None
  }
}
