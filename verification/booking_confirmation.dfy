/**
 * The confirmation page shown after a booking: the parameters it reads from
 * its address, the room texts with their fallbacks, and the guest's
 * details taken from the stored user.
 */
module BookingConfirmation {
  import opened Common
  import opened Text
  import Entities
  import SiteUtils
  import BookingPage

  /** The confirmation parameters; a text the address leaves out is `None`. */
  datatype Params = Params(bookingId: Option<string>, roomId: Option<string>, checkIn: Option<string>,
                           checkOut: Option<string>, adults: int, children: int)

  /**
   * `parseConfirmationParameters`: the address's values, with 2 adults and
   * 0 children when missing, not numbers or 0; the guest counts are read as
   * the booking page reads them.
   */
  function ParseConfirmationParameters(bookingId: Option<string>, roomId: Option<string>, checkIn: Option<string>,
                                       checkOut: Option<string>, parsedAdults: Option<int>, parsedChildren: Option<int>)
    : (p: Params)
    ensures p.bookingId == bookingId && p.roomId == roomId && p.checkIn == checkIn && p.checkOut == checkOut
    ensures p.adults == (if parsedAdults.Some? && parsedAdults.value != 0 then parsedAdults.value else 2)
    ensures p.children == (if parsedChildren.Some? then parsedChildren.value else 0)
  {
    Params(bookingId, roomId, checkIn, checkOut, BookingPage.IntOr(parsedAdults, 2), BookingPage.IntOr(parsedChildren, 0))
  }

  /** The booking page and the confirmation page agree on the guest counts read from the same address. */
  lemma GuestCountsAgreeWithBookingPage(parsedAdults: Option<int>, parsedChildren: Option<int>)
    ensures var c := ParseConfirmationParameters(None, None, None, None, parsedAdults, parsedChildren);
      var b := BookingPage.ParseBookingParameters(None, None, None, parsedAdults, parsedChildren);
      c.adults == b.adults && c.children == b.children
  {
  }

  /** `initializeConfirmation`: without a booking id only an error is shown. */
  function InitializeConfirmation(p: Params): (r: Result<Params, string>)
    ensures r.Ok? <==> p.bookingId.Some? && p.bookingId.value != ""
    ensures r.Ok? ==> r.value == p
    ensures r.Err? ==> r.error == "Invalid confirmation. Booking ID is required."
  {
    if p.bookingId.None? || p.bookingId.value == "" then Err("Invalid confirmation. Booking ID is required.")
    else Ok(p)
  }

  /**
   * The room texts on the page. `description` is `None` when the page could
   * not compute it and leaves the element as it was.
   */
  datatype RoomTexts = RoomTexts(title: string, roomType: string, description: Option<string>)

  const DescriptionLimit: nat := 100

  /** The description made up for a room without one. */
  function GeneratedDescription(roomType: string): string {
    "Comfortable " + Lower(roomType) + " room with modern amenities"
  }

  /**
   * `populateConfirmationDetails` and `populateRoomInformation`: without a
   * room, fixed texts. With one, the title is its type followed by " Room"
   * (a missing type reads "null"), the type line is the type ("" when
   * missing), and the description is the room's own or a generated one,
   * cut to 100 characters and "...". A room with neither description nor
   * type fails while generating it, after the title and type are set.
   */
  function RoomInformation(room: Option<Entities.Room>): (t: RoomTexts)
    ensures room.None? ==> t == RoomTexts("Hotel Room", "Standard", Some("Comfortable accommodation"))
    ensures room.Some? ==> t.title == JavaText(room.value.roomType) + " Room"
    ensures room.Some? ==> t.roomType == room.value.roomType.GetOr("")
    ensures room.Some? ==>
      (t.description.None? <==> (room.value.roomDescription.None? || room.value.roomDescription.value == "")
                                && room.value.roomType.None?)
    ensures room.Some? && room.value.roomDescription.Some? && room.value.roomDescription.value != "" ==>
      t.description == Some(Truncate(room.value.roomDescription.value, DescriptionLimit))
    ensures room.Some? && (room.value.roomDescription.None? || room.value.roomDescription.value == "")
            && room.value.roomType.Some? ==>
      t.description == Some(Truncate(GeneratedDescription(room.value.roomType.value), DescriptionLimit))
    ensures t.description.Some? ==> |t.description.value| <= DescriptionLimit + 3
  {
    if room.None? then RoomTexts("Hotel Room", "Standard", Some("Comfortable accommodation"))
    else
      var r := room.value;
      var description :=
        if r.roomDescription.Some? && r.roomDescription.value != "" then Some(r.roomDescription.value)
        else if r.roomType.Some? then Some(GeneratedDescription(r.roomType.value))
        else None;
      RoomTexts(JavaText(r.roomType) + " Room", r.roomType.GetOr(""),
                if description.Some? then Some(Truncate(description.value, DescriptionLimit)) else None)
  }

  /** A long description is cut to its first hundred characters and "...". */
  lemma LongDescriptionIsCut(room: Entities.Room)
    requires room.roomDescription.Some? && |room.roomDescription.value| > DescriptionLimit
    ensures RoomInformation(Some(room)).description == Some(room.roomDescription.value[..100] + "...")
  {
  }

  /** The guest's details on the page. */
  datatype GuestTexts = GuestTexts(name: string, email: string, phone: string)

  /** `populateGuestInformation`: the stored user's details with "Guest" and "N/A" for whatever is missing or empty. */
  function GuestInformation(user: Option<SiteUtils.StoredUser>): (g: GuestTexts)
    ensures user.None? ==> g == GuestTexts("Guest", "N/A", "N/A")
    ensures user.Some? ==>
      g.name == (if user.value.name.Some? && user.value.name.value != "" then user.value.name.value else "Guest")
      && g.email == (if user.value.email.Some? && user.value.email.value != "" then user.value.email.value else "N/A")
      && g.phone == (if user.value.phoneNumber.Some? && user.value.phoneNumber.value != "" then user.value.phoneNumber.value else "N/A")
  {
    if user.None? then GuestTexts("Guest", "N/A", "N/A")
    else GuestTexts(OrElse(user.value.name, "Guest"), OrElse(user.value.email, "N/A"), OrElse(user.value.phoneNumber, "N/A"))
  }
}
