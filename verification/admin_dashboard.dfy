/**
 * The administrator's dashboard: the totals of rooms, bookings and users,
 * the revenue, and the five most recent bookings with their status. The
 * four loads run side by side and each one only touches its own figures.
 */
module AdminDashboard {
  import opened Common
  import opened Text
  import opened Sorting
  import opened Views
  import Entities
  import AdminBookings

  /** What a request gave: the list it carried, if any, or a thrown error. */
  datatype Fetch<T> = Threw | Answered(list: Option<seq<T>>)

  datatype DashboardData = DashboardData(
    totalRooms: nat,
    totalBookings: nat,
    totalUsers: nat,
    totalRevenue: real,
    recentBookings: seq<BookingView>)

  /** The figures before anything is loaded. */
  const InitialData := DashboardData(0, 0, 0, 0.0, [])

  /**
   * The common shape of `loadRoomsData` and `loadUsersData`: the length of
   * the list when one came back, 0 when the request threw, and the previous
   * count when the answer carried no list.
   */
  function LoadCount<T>(current: nat, fetch: Fetch<T>): (n: nat)
    ensures fetch.Threw? ==> n == 0
    ensures fetch.Answered? && fetch.list.Some? ==> n == |fetch.list.value|
    ensures fetch.Answered? && fetch.list.None? ==> n == current
  {
    match fetch
    case Threw => 0
    case Answered(list) => if list.Some? then |list.value| else current
  }

  /**
   * What one booking adds to the revenue: when its room has a price other
   * than zero, the price times the nights; otherwise nothing.
   */
  function Contribution(b: BookingView): real {
    if b.room.Some? && b.room.value.roomPrice.Some? && b.room.value.roomPrice.value != 0.0 then
      b.room.value.roomPrice.value * (b.checkOutDate - b.checkInDate) as real
    else 0.0
  }

  /** The revenue of a list of bookings: the sum of their contributions. */
  function Revenue(bookings: seq<BookingView>): real {
    if bookings == [] then 0.0 else Revenue(bookings[..|bookings| - 1]) + Contribution(bookings[|bookings| - 1])
  }

  /** The revenue is the sum over the bookings, so it splits over two lists put together. */
  lemma {:induction false} RevenueAppend(a: seq<BookingView>, b: seq<BookingView>)
    ensures Revenue(a + b) == Revenue(a) + Revenue(b)
    decreases |b|
  {
    if b == [] {
      assert a + b == a;
    } else {
      assert (a + b)[..|a + b| - 1] == a + b[..|b| - 1];
      assert (a + b)[|a + b| - 1] == b[|b| - 1];
      RevenueAppend(a, b[..|b| - 1]);
    }
  }

  /** Bookings whose room has no price, or a price of zero, add nothing to the revenue. */
  lemma {:induction false} UnpricedBookingsAddNothing(bookings: seq<BookingView>)
    requires forall i :: 0 <= i < |bookings| ==>
      bookings[i].room.None? || bookings[i].room.value.roomPrice.None? || bookings[i].room.value.roomPrice == Some(0.0)
    ensures Revenue(bookings) == 0.0
  {
    if bookings != [] {
      UnpricedBookingsAddNothing(bookings[..|bookings| - 1]);
    }
  }

  /** With prices that are not negative and no stay ending before it begins, the revenue is not negative. */
  lemma {:induction false} RevenueNotNegative(bookings: seq<BookingView>)
    requires forall i :: 0 <= i < |bookings| ==>
      bookings[i].checkInDate <= bookings[i].checkOutDate
      && (bookings[i].room.Some? && bookings[i].room.value.roomPrice.Some? ==> bookings[i].room.value.roomPrice.value >= 0.0)
    ensures Revenue(bookings) >= 0.0
  {
    if bookings != [] {
      RevenueNotNegative(bookings[..|bookings| - 1]);
    }
  }

  /**
   * `loadBookingsData`: with a list, the number of bookings and the revenue
   * accumulated over it from the left, as `reduce` does; when the request
   * threw, both are 0; an answer without a list changes nothing.
   */
  method LoadBookingsData(data: DashboardData, fetch: Fetch<BookingView>) returns (out: DashboardData)
    ensures out.totalRooms == data.totalRooms && out.totalUsers == data.totalUsers
    ensures out.recentBookings == data.recentBookings
    ensures fetch.Threw? ==> out.totalBookings == 0 && out.totalRevenue == 0.0
    ensures fetch.Answered? && fetch.list.Some? ==>
      out.totalBookings == |fetch.list.value| && out.totalRevenue == Revenue(fetch.list.value)
    ensures fetch.Answered? && fetch.list.None? ==> out == data
  {
    match fetch {
      case Threw =>
        out := data.(totalBookings := 0, totalRevenue := 0.0);
      case Answered(list) =>
        if list.None? {
          out := data;
        } else {
          var bookings := list.value;
          var total := 0.0;
          var i := 0;
          while i < |bookings|
            invariant 0 <= i <= |bookings|
            invariant total == Revenue(bookings[..i])
          {
            assert bookings[..i + 1][..i] == bookings[..i];
            total := total + Contribution(bookings[i]);
            i := i + 1;
          }
          assert bookings[..i] == bookings;
          out := data.(totalBookings := |bookings|, totalRevenue := total);
        }
    }
  }

  /** At most this many recent bookings are shown. */
  const RecentCount: nat := 5

  /** "May stay before" for `(a, b) => b.id - a.id`. */
  function HigherIdFirst(): (le: (BookingView, BookingView) -> bool)
    ensures TotalPreorder(le)
  {
    (a: BookingView, b: BookingView) => a.id >= b.id
  }

  /**
   * `loadRecentBookings`: the bookings sorted by id, highest first, cut to
   * five; the empty list when the request threw; the previous list when the
   * answer carried none. Every booking left out has an id no higher than
   * any that is shown, and of bookings sharing an id the ones earliest in
   * the list are shown.
   */
  function LoadRecentBookings(current: seq<BookingView>, fetch: Fetch<BookingView>): (r: seq<BookingView>)
    ensures fetch.Threw? ==> r == []
    ensures fetch.Answered? && fetch.list.None? ==> r == current
    ensures fetch.Answered? && fetch.list.Some? ==>
      var all := fetch.list.value;
      |r| == Min(RecentCount, |all|)
      && multiset(r) <= multiset(all)
      && (forall i, j :: 0 <= i < j < |r| ==> r[i].id >= r[j].id)
      && (forall b :: b in multiset(all) - multiset(r) ==> forall i :: 0 <= i < |r| ==> r[i].id >= b.id)
      && KeepsEarliestTies(r, all, HigherIdFirst())
  {
    match fetch
    case Threw => []
    case Answered(list) =>
      if list.None? then current
      else
        FirstSorted(list.value, HigherIdFirst(), RecentCount)
  }

  /**
   * `loadDashboardData`: the four loads side by side. Each figure depends
   * only on its own request, so a failed request leaves the others' figures
   * as they load.
   */
  method LoadDashboardData(data: DashboardData, rooms: Fetch<Entities.Room>, bookings: Fetch<BookingView>,
                           users: Fetch<UserView>, recent: Fetch<BookingView>) returns (out: DashboardData)
    ensures out.totalRooms == LoadCount(data.totalRooms, rooms)
    ensures out.totalUsers == LoadCount(data.totalUsers, users)
    ensures out.recentBookings == LoadRecentBookings(data.recentBookings, recent)
    ensures bookings.Threw? ==> out.totalBookings == 0 && out.totalRevenue == 0.0
    ensures bookings.Answered? && bookings.list.Some? ==>
      out.totalBookings == |bookings.list.value| && out.totalRevenue == Revenue(bookings.list.value)
    ensures bookings.Answered? && bookings.list.None? ==>
      out.totalBookings == data.totalBookings && out.totalRevenue == data.totalRevenue
  {
    out := data.(totalRooms := LoadCount(data.totalRooms, rooms));
    out := LoadBookingsData(out, bookings);
    out := out.(totalUsers := LoadCount(out.totalUsers, users));
    out := out.(recentBookings := LoadRecentBookings(out.recentBookings, recent));
  }

  datatype Status = Upcoming | Active | Completed

  /**
   * The status of a recent booking: active from check-in to check-out,
   * completed after check-out, and upcoming otherwise.
   */
  function ItemStatus(b: BookingView, today: int): (s: Status)
    ensures s == Active <==> b.checkInDate <= today <= b.checkOutDate
    ensures s == Completed <==> b.checkOutDate < today
    ensures s == Upcoming <==> !(b.checkInDate <= today <= b.checkOutDate) && b.checkOutDate >= today
  {
    if b.checkInDate <= today && b.checkOutDate >= today then Active
    else if b.checkOutDate < today then Completed
    else Upcoming
  }

  /**
   * For a booking not marked cancelled whose stay does not end before it
   * begins, the dashboard shows the status the booking list gives it.
   */
  lemma ItemStatusAgreesWithBookingList(b: BookingView, today: int)
    requires b.status != Some("cancelled") && b.checkInDate <= b.checkOutDate
    ensures ItemStatus(b, today) == Active <==> AdminBookings.GetBookingStatus(b, today) == AdminBookings.Active
    ensures ItemStatus(b, today) == Upcoming <==> AdminBookings.GetBookingStatus(b, today) == AdminBookings.Upcoming
    ensures ItemStatus(b, today) == Completed <==> AdminBookings.GetBookingStatus(b, today) == AdminBookings.Completed
  {
  }

  /** A stay recorded with its check-out before its check-in shows as completed here but upcoming in the booking list. */
  lemma InvertedStayDisagrees()
    ensures var b := BookingView(1, 5, 1, 1, 0, None, None, None, None, None);
      ItemStatus(b, 3) == Completed && AdminBookings.GetBookingStatus(b, 3) == AdminBookings.Upcoming
  {
  }

  /** The texts of a recent booking: room name, guest name and confirmation code. */
  datatype ItemTexts = ItemTexts(roomName: string, guestName: string, confirmationCode: string)

  /**
   * The fallbacks of `createRecentBookingItem`: the room type or "Unknown
   * Room"; the user's name, else the guest name, else "N/A"; the code or
   * "N/A". An empty text falls back like a missing one.
   */
  function RecentItemTexts(b: BookingView): (t: ItemTexts)
    ensures t.roomName == (if RoomTypeOf(b).Some? && RoomTypeOf(b).value != "" then RoomTypeOf(b).value else "Unknown Room")
    ensures GuestNameOf(b).Some? && GuestNameOf(b).value != "" ==> t.guestName == GuestNameOf(b).value
    ensures (GuestNameOf(b).None? || GuestNameOf(b).value == "") && b.guestName.Some? && b.guestName.value != "" ==>
      t.guestName == b.guestName.value
    ensures (GuestNameOf(b).None? || GuestNameOf(b).value == "") && (b.guestName.None? || b.guestName.value == "") ==>
      t.guestName == "N/A"
    ensures t.confirmationCode ==
      (if b.bookingConfirmationCode.Some? && b.bookingConfirmationCode.value != "" then b.bookingConfirmationCode.value else "N/A")
  {
    var userName := GuestNameOf(b);
    ItemTexts(
      OrElse(RoomTypeOf(b), "Unknown Room"),
      if userName.Some? && userName.value != "" then userName.value else OrElse(b.guestName, "N/A"),
      OrElse(b.bookingConfirmationCode, "N/A"))
  }
}
