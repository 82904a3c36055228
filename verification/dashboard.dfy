/**
 * The guest's dashboard: loading the guest's bookings, the profile card,
 * the quick statistics, the three most recent bookings and their status.
 *
 * Unlike the other pages, this one compares booking dates with the current
 * instant rather than with today's midnight. `now` is that instant in days
 * since the epoch, fraction included; a booking date is its midnight, the
 * whole day number.
 */
module Dashboard {
  import opened Common
  import opened Text
  import opened Seqs
  import opened Sorting
  import opened Views
  import AdminBookings

  /** The answer of the booking-history request, or `None` when the request threw. */
  datatype HistoryResponse = HistoryResponse(statusCode: int, user: Option<UserView>)

  /**
   * `loadUserBookings`: without a user id (missing or 0) nothing is requested
   * and the list stays as it was; a successful answer with bookings gives
   * them; any other answer, and a failed request, give the empty list.
   */
  function LoadUserBookings(userId: Option<int>, response: Option<HistoryResponse>, current: seq<BookingView>)
    : (r: seq<BookingView>)
    ensures userId.None? || userId == Some(0) ==> r == current
    ensures userId.Some? && userId != Some(0) ==>
      (r != [] ==> response.Some? && response.value.statusCode == 200 && response.value.user.Some?
                   && response.value.user.value.bookings == Some(r))
    ensures (userId.Some? && userId != Some(0) && response.Some? && response.value.statusCode == 200
             && response.value.user.Some? && response.value.user.value.bookings.Some?) ==>
      r == response.value.user.value.bookings.value
  {
    if userId.None? || userId == Some(0) then current
    else if response.Some? && response.value.statusCode == 200 && response.value.user.Some?
         && response.value.user.value.bookings.Some? then
      response.value.user.value.bookings.value
    else []
  }

  /** The texts of the profile card: greeting name, profile name, email and phone. */
  datatype Profile = Profile(userName: string, profileName: string, email: string, phone: string)

  /** `populateUserProfile`: each field as given, or its fallback when missing or empty. */
  function PopulateUserProfile(user: UserView): (p: Profile)
    ensures user.name.Some? && user.name.value != "" ==> p.userName == user.name.value && p.profileName == user.name.value
    ensures user.name.None? || user.name.value == "" ==> p.userName == "User" && p.profileName == "N/A"
    ensures p.email == (if user.email.Some? && user.email.value != "" then user.email.value else "N/A")
    ensures p.phone == (if user.phoneNumber.Some? && user.phoneNumber.value != "" then user.phoneNumber.value else "N/A")
  {
    Profile(OrElse(user.name, "User"), OrElse(user.name, "N/A"), OrElse(user.email, "N/A"), OrElse(user.phoneNumber, "N/A"))
  }

  datatype Status = Upcoming | Active | Completed

  /**
   * `getBookingStatus`: upcoming before the check-in midnight, active from
   * it up to the check-out midnight, completed afterwards.
   */
  function GetBookingStatus(b: BookingView, now: real): (s: Status)
    ensures s == Upcoming <==> now < b.checkInDate as real
    ensures s == Active <==> b.checkInDate as real <= now <= b.checkOutDate as real
    ensures s == Completed <==> b.checkInDate as real <= now && b.checkOutDate as real < now
  {
    if now < b.checkInDate as real then Upcoming
    else if now >= b.checkInDate as real && now <= b.checkOutDate as real then Active
    else Completed
  }

  /** The tests of `populateQuickStats`. */
  function IsActiveAt(now: real): BookingView -> bool {
    (b: BookingView) => now >= b.checkInDate as real && now <= b.checkOutDate as real
  }

  function StartsAfter(now: real): BookingView -> bool {
    (b: BookingView) => b.checkInDate as real > now
  }

  function EndedBefore(now: real): BookingView -> bool {
    (b: BookingView) => (b.checkOutDate as real) < now
  }

  datatype QuickStats = QuickStats(total: nat, active: nat, upcoming: nat, completed: nat)

  /**
   * `populateQuickStats`: the number of bookings and how many of them are
   * under way, ahead and over. A cancelled booking is counted like any other.
   * "Over" means the check-out midnight has passed, whatever the check-in
   * date, so it agrees with the status only for stays in order.
   */
  function PopulateQuickStats(bookings: seq<BookingView>, now: real): (st: QuickStats)
    ensures st.total == |bookings|
    ensures st.active == Count(bookings, (b: BookingView) => GetBookingStatus(b, now) == Active)
    ensures st.upcoming == Count(bookings, (b: BookingView) => GetBookingStatus(b, now) == Upcoming)
    ensures st.completed == Count(bookings, (b: BookingView) => (b.checkOutDate as real) < now)
    ensures (forall i :: 0 <= i < |bookings| ==> bookings[i].checkInDate <= bookings[i].checkOutDate) ==>
      st.completed == Count(bookings, (b: BookingView) => GetBookingStatus(b, now) == Completed)
  {
    FilterLengthIsCount(bookings, IsActiveAt(now), (b: BookingView) => GetBookingStatus(b, now) == Active);
    FilterLengthIsCount(bookings, StartsAfter(now), (b: BookingView) => GetBookingStatus(b, now) == Upcoming);
    FilterLengthIsCount(bookings, EndedBefore(now), (b: BookingView) => (b.checkOutDate as real) < now);
    var st := QuickStats(|bookings|, |Filter(bookings, IsActiveAt(now))|, |Filter(bookings, StartsAfter(now))|,
                         |Filter(bookings, EndedBefore(now))|);
    if forall i :: 0 <= i < |bookings| ==> bookings[i].checkInDate <= bookings[i].checkOutDate then
      FilterLengthIsCount(bookings, EndedBefore(now), (b: BookingView) => GetBookingStatus(b, now) == Completed);
      st
    else
      st
  }

  /** When no stay ends before it begins, every booking is counted once, so the three counts make up the total. */
  lemma {:induction false} QuickStatsAddUp(bookings: seq<BookingView>, now: real)
    requires forall i :: 0 <= i < |bookings| ==> bookings[i].checkInDate <= bookings[i].checkOutDate
    ensures var st := PopulateQuickStats(bookings, now);
      st.active + st.upcoming + st.completed == st.total
  {
    if bookings != [] {
      QuickStatsAddUp(bookings[1..], now);
    }
  }

  /**
   * On its check-out day, after midnight, a stay already counts as completed
   * here, while the administrator's list, which compares dates only, still
   * shows it as active.
   */
  lemma CheckOutDayDiffersFromAdminList(b: BookingView, today: int, now: real)
    requires b.status == None && b.checkInDate <= today == b.checkOutDate
    requires today as real < now < (today + 1) as real
    ensures GetBookingStatus(b, now) == Completed
    ensures AdminBookings.GetBookingStatus(b, today) == AdminBookings.Active
  {
  }

  /** At most this many recent bookings are shown. */
  const RecentCount: nat := 3

  /** "May stay before" for `(a, b) => new Date(b.checkInDate) - new Date(a.checkInDate)`. */
  function LaterCheckInFirst(): (le: (BookingView, BookingView) -> bool)
    ensures TotalPreorder(le)
  {
    (a: BookingView, b: BookingView) => a.checkInDate >= b.checkInDate
  }

  /**
   * The recent bookings: the list sorted by check-in date, latest first, and
   * cut to the first three. They come from the list, and every booking left
   * out checks in no later than any that is shown. Of several bookings with
   * the same check-in date, the ones earliest in the list are shown.
   */
  function RecentBookings(bookings: seq<BookingView>): (r: seq<BookingView>)
    ensures |r| == Min(RecentCount, |bookings|)
    ensures multiset(r) <= multiset(bookings)
    ensures forall i, j :: 0 <= i < j < |r| ==> r[i].checkInDate >= r[j].checkInDate
    ensures forall b :: b in multiset(bookings) - multiset(r) ==>
      forall i :: 0 <= i < |r| ==> r[i].checkInDate >= b.checkInDate
    ensures KeepsEarliestTies(r, bookings, LaterCheckInFirst())
  {
    FirstSorted(bookings, LaterCheckInFirst(), RecentCount)
  }
}
