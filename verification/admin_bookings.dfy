/**
 * The administrator's booking list: search, status and date-range filters,
 * the quick filters for today and this week, the statistics over the
 * filtered list and its pagination, ten bookings a page.
 */
module AdminBookings {
  import opened Common
  import opened Text
  import opened Seqs
  import opened Dates
  import opened Views

  const BookingsPerPage: nat := 10

  datatype Status = Active | Upcoming | Completed | Cancelled

  /** The lower-case name a status is shown and filtered by. */
  function StatusName(s: Status): string {
    match s
    case Active => "active"
    case Upcoming => "upcoming"
    case Completed => "completed"
    case Cancelled => "cancelled"
  }

  /**
   * `getBookingStatus`: a booking marked cancelled is cancelled; otherwise it
   * is active on the days from check-in to check-out, upcoming before
   * check-in and completed once check-out has passed.
   */
  function GetBookingStatus(b: BookingView, today: int): (s: Status)
    ensures s == Cancelled <==> b.status == Some("cancelled")
    ensures s == Active <==> b.status != Some("cancelled") && b.checkInDate <= today <= b.checkOutDate
    ensures s == Upcoming <==> b.status != Some("cancelled") && today < b.checkInDate
    ensures s == Completed <==> b.status != Some("cancelled") && b.checkInDate <= today && b.checkOutDate < today
  {
    if b.status == Some("cancelled") then Cancelled
    else if b.checkInDate <= today && b.checkOutDate >= today then Active
    else if b.checkInDate > today then Upcoming
    else Completed
  }

  /**
   * The filter state. `search` is kept lower-cased and trimmed, `status` is
   * the dropdown's value ("" for any) and the date bounds are absent when
   * their inputs are empty.
   */
  datatype Filters = Filters(search: string, status: string, startDate: Option<int>, endDate: Option<int>, quickFilter: string)

  /** The filters the page starts with and returns to when they are cleared. */
  const InitialFilters := Filters("", "", None, None, "all")

  /** The filters together with the page being shown. */
  datatype View = View(filters: Filters, page: int)

  /** `handleSearch`: the typed text, lower-cased and trimmed, becomes the search term; back to page 1. */
  function HandleSearch(v: View, input: string): (w: View)
    ensures w.page == 1
    ensures w.filters == v.filters.(search := Trim(Lower(input)))
    ensures w.filters.search == "" <==> forall i :: 0 <= i < |input| ==> IsJsSpace(Lower(input)[i])
  {
    View(v.filters.(search := Trim(Lower(input))), 1)
  }

  /**
   * `setQuickFilter` followed by `handleDateFilter`: "today" bounds both
   * dates by today, "week" by the Sunday starting this week and the Saturday
   * ending it, and anything else clears both bounds; back to page 1.
   */
  function SetQuickFilter(v: View, filter: string, today: int): (w: View)
    ensures w.page == 1
    ensures w.filters.search == v.filters.search && w.filters.status == v.filters.status
    ensures w.filters.quickFilter == filter
    ensures filter == "today" ==> w.filters.startDate == Some(today) && w.filters.endDate == Some(today)
    ensures filter == "week" ==>
      w.filters.startDate.Some? && w.filters.endDate.Some?
      && w.filters.endDate.value == w.filters.startDate.value + 6
      && w.filters.startDate.value <= today <= w.filters.endDate.value
      && Weekday(w.filters.startDate.value) == 0
    ensures filter != "today" && filter != "week" ==> w.filters.startDate.None? && w.filters.endDate.None?
  {
    var bounds :=
      if filter == "today" then (Some(today), Some(today))
      else if filter == "week" then (Some(WeekStart(today)), Some(WeekStart(today) + 6))
      else (None, None);
    View(v.filters.(quickFilter := filter, startDate := bounds.0, endDate := bounds.1), 1)
  }

  /** `clearFilters`: every filter back to its initial value, on page 1. */
  function ClearFilters(v: View, today: int): (w: View)
    ensures w == View(InitialFilters, 1)
  {
    SetQuickFilter(View(InitialFilters, v.page), "all", today)
  }

  /** The search term is found in the guest's name, the confirmation code or the room type, all lower-cased. */
  predicate SearchMatches(b: BookingView, search: string) {
    search == ""
    || Contains(LowerOrEmpty(GuestNameOf(b)), search)
    || Contains(LowerOrEmpty(b.bookingConfirmationCode), search)
    || Contains(LowerOrEmpty(RoomTypeOf(b)), search)
  }

  /** The booking's status is the one chosen, or no status is chosen. */
  predicate StatusMatches(b: BookingView, status: string, today: int) {
    status == "" || StatusName(GetBookingStatus(b, today)) == status
  }

  /** Check-in is not before the start bound and check-out not after the end bound. */
  predicate DatesMatch(b: BookingView, startDate: Option<int>, endDate: Option<int>) {
    (startDate.None? || b.checkInDate >= startDate.value)
    && (endDate.None? || b.checkOutDate <= endDate.value)
  }

  predicate Keep(b: BookingView, f: Filters, today: int) {
    SearchMatches(b, f.search) && StatusMatches(b, f.status, today) && DatesMatch(b, f.startDate, f.endDate)
  }

  /**
   * `applyFilters`: the bookings that pass the search, the status and the
   * date filters, in their original order.
   */
  function ApplyFilters(all: seq<BookingView>, f: Filters, today: int): (r: seq<BookingView>)
    ensures IsSubsequence(r, all)
    ensures forall b :: b in r <==>
      b in all && SearchMatches(b, f.search) && StatusMatches(b, f.status, today) && DatesMatch(b, f.startDate, f.endDate)
  {
    Filter(all, (b: BookingView) => Keep(b, f, today))
  }

  /** With the filters cleared every booking is listed again, in its original order. */
  lemma ClearFiltersShowsAll(all: seq<BookingView>, v: View, today: int)
    ensures ApplyFilters(all, ClearFilters(v, today).filters, today) == all
  {
    FilterAll(all, (b: BookingView) => Keep(b, InitialFilters, today));
  }

  /**
   * With only the "week" quick filter set, exactly the stays that begin and
   * end within the current Sunday-to-Saturday week are listed.
   */
  lemma WeekFilterKeepsThisWeeksStays(all: seq<BookingView>, v: View, today: int)
    requires v.filters.search == "" && v.filters.status == ""
    ensures var start := WeekStart(today);
      forall b :: b in ApplyFilters(all, SetQuickFilter(v, "week", today).filters, today) <==>
        b in all && start <= b.checkInDate && b.checkOutDate <= start + 6
  {
  }

  /** A status the dropdown does not offer matches no booking, so nothing is listed. */
  lemma UnknownStatusListsNothing(all: seq<BookingView>, f: Filters, today: int)
    requires f.status !in {"", "active", "upcoming", "completed", "cancelled"}
    ensures ApplyFilters(all, f, today) == []
  {
    FilterNone(all, (b: BookingView) => Keep(b, f, today));
  }

  /** The counts shown above the list. */
  datatype Stats = Stats(total: nat, active: nat, upcoming: nat, completed: nat, cancelled: nat)

  function HasStatus(s: Status, today: int): BookingView -> bool {
    (b: BookingView) => GetBookingStatus(b, today) == s
  }

  /** `updateStatistics`: the number of filtered bookings and how many have each status. */
  method UpdateStatistics(filtered: seq<BookingView>, today: int) returns (st: Stats)
    ensures st.total == |filtered|
    ensures st.active == Count(filtered, HasStatus(Active, today))
    ensures st.upcoming == Count(filtered, HasStatus(Upcoming, today))
    ensures st.completed == Count(filtered, HasStatus(Completed, today))
    ensures st.cancelled == Count(filtered, HasStatus(Cancelled, today))
  {
    st := Stats(|filtered|, 0, 0, 0, 0);
    var i := 0;
    while i < |filtered|
      invariant 0 <= i <= |filtered|
      invariant st.total == |filtered|
      invariant st.active == Count(filtered[..i], HasStatus(Active, today))
      invariant st.upcoming == Count(filtered[..i], HasStatus(Upcoming, today))
      invariant st.completed == Count(filtered[..i], HasStatus(Completed, today))
      invariant st.cancelled == Count(filtered[..i], HasStatus(Cancelled, today))
    {
      var b := filtered[i];
      assert filtered[..i + 1] == filtered[..i] + [b];
      CountAppend(filtered[..i], b, HasStatus(Active, today));
      CountAppend(filtered[..i], b, HasStatus(Upcoming, today));
      CountAppend(filtered[..i], b, HasStatus(Completed, today));
      CountAppend(filtered[..i], b, HasStatus(Cancelled, today));
      match GetBookingStatus(b, today) {
        case Active => st := st.(active := st.active + 1);
        case Upcoming => st := st.(upcoming := st.upcoming + 1);
        case Completed => st := st.(completed := st.completed + 1);
        case Cancelled => st := st.(cancelled := st.cancelled + 1);
      }
      i := i + 1;
    }
    assert filtered[..i] == filtered;
  }

  /** Every booking has exactly one status, so the four counts add up to the total. */
  lemma {:induction false} StatisticsAddUp(filtered: seq<BookingView>, today: int)
    ensures Count(filtered, HasStatus(Active, today)) + Count(filtered, HasStatus(Upcoming, today))
      + Count(filtered, HasStatus(Completed, today)) + Count(filtered, HasStatus(Cancelled, today)) == |filtered|
  {
    if filtered != [] {
      StatisticsAddUp(filtered[1..], today);
    }
  }
}
