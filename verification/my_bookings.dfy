/**
 * A guest's own booking list: search, the status filter, the two sort
 * orders, the booking cards with their status and cancel button, the
 * statistics and the button that clears every filter.
 */
module MyBookings {
  import opened Common
  import opened Text
  import opened Seqs
  import opened Sorting
  import opened Views
  import AdminBookings

  /** The filter and the sort the page starts with. */
  const DefaultFilter := "all"
  const DefaultSort := "checkIn-desc"

  /**
   * The switch inside `applyCurrentFilters`: "active" keeps the stays that
   * include today, "upcoming" those that start later, "completed" those that
   * ended before today, "cancelled" those marked cancelled, and any other
   * value keeps everything. Only "cancelled" looks at the mark.
   */
  predicate StatusFilterKeeps(b: BookingView, filter: string, today: int) {
    if filter == "active" then b.checkInDate <= today <= b.checkOutDate
    else if filter == "upcoming" then b.checkInDate > today
    else if filter == "completed" then b.checkOutDate < today
    else if filter == "cancelled" then b.status == Some("cancelled")
    else true
  }

  /** `applyCurrentFilters`: no filtering for "all" or ""; otherwise the bookings the status filter keeps, in order. */
  function ApplyCurrentFilters(list: seq<BookingView>, filter: string, today: int): (r: seq<BookingView>)
    ensures filter == "all" || filter == "" ==> r == list
    ensures |r| <= |list|
    ensures IsSubsequence(r, list)
    ensures forall b :: b in r <==> b in list && StatusFilterKeeps(b, filter, today)
  {
    if filter == "all" || filter == "" then
      SubsequenceOfItself(list);
      list
    else Filter(list, (b: BookingView) => StatusFilterKeeps(b, filter, today))
  }

  /** The field of `currentSort.split('-')`: the text before the first dash. */
  function SortField(sort: string): string {
    var k := IndexOf(sort, '-');
    if k == -1 then sort else sort[..k]
  }

  /** The direction of `currentSort.split('-')`: the text between the first and the second dash, if there is a dash. */
  function SortDirection(sort: string): Option<string> {
    var k := IndexOf(sort, '-');
    if k == -1 then None
    else
      var rest := sort[k + 1..];
      var j := IndexOf(rest, '-');
      Some(if j == -1 then rest else rest[..j])
  }

  /** A sort key written `field-direction` is split back into its field and its direction. */
  lemma SortKeyParts(field: string, direction: string)
    requires '-' !in field && '-' !in direction
    ensures SortField(field + "-" + direction) == field
    ensures SortDirection(field + "-" + direction) == Some(direction)
  {
    var sort := field + "-" + direction;
    assert sort[|field|] == '-';
    assert sort[..|field|] == field;
    assert sort[|field| + 1..] == direction;
  }

  /** The default sort key names the check-in date, newest first. */
  lemma DefaultSortIsNewestCheckInFirst()
    ensures SortField(DefaultSort) == "checkIn" && SortDirection(DefaultSort) == Some("desc")
  {
    SortKeyParts("checkIn", "desc");
    assert DefaultSort == "checkIn" + "-" + "desc";
  }

  /**
   * The comparator of `sortBookings` as "may stay before": by check-in date
   * or by id (the stand-in for creation time), newest first for "desc" and
   * oldest first otherwise; any other field compares every pair as equal.
   */
  function Comparator(sort: string): (le: (BookingView, BookingView) -> bool)
    ensures TotalPreorder(le)
  {
    var desc := SortDirection(sort) == Some("desc");
    if SortField(sort) == "checkIn" then
      if desc then (a: BookingView, b: BookingView) => a.checkInDate >= b.checkInDate
      else (a: BookingView, b: BookingView) => a.checkInDate <= b.checkInDate
    else if SortField(sort) == "created" then
      if desc then (a: BookingView, b: BookingView) => a.id >= b.id
      else (a: BookingView, b: BookingView) => a.id <= b.id
    else
      (a: BookingView, b: BookingView) => true
  }

  /**
   * `sortBookings`: a permutation of the list, ordered by the chosen field
   * in the chosen direction, bookings tied on that field keeping their
   * order; an unknown field leaves the order as it was.
   */
  function SortBookings(list: seq<BookingView>, sort: string): (r: seq<BookingView>)
    ensures multiset(r) == multiset(list)
    ensures SortField(sort) == "checkIn" && SortDirection(sort) == Some("desc") ==>
      forall i, j :: 0 <= i < j < |r| ==> r[i].checkInDate >= r[j].checkInDate
    ensures SortField(sort) == "checkIn" && SortDirection(sort) != Some("desc") ==>
      forall i, j :: 0 <= i < j < |r| ==> r[i].checkInDate <= r[j].checkInDate
    ensures SortField(sort) == "created" && SortDirection(sort) == Some("desc") ==>
      forall i, j :: 0 <= i < j < |r| ==> r[i].id >= r[j].id
    ensures SortField(sort) == "created" && SortDirection(sort) != Some("desc") ==>
      forall i, j :: 0 <= i < j < |r| ==> r[i].id <= r[j].id
    ensures SortField(sort) != "checkIn" && SortField(sort) != "created" ==> r == list
    ensures SortedBy(r, Comparator(sort)) && KeepsTies(r, list, Comparator(sort))
  {
    var le := Comparator(sort);
    if SortField(sort) != "checkIn" && SortField(sort) != "created" then
      SortSortedIsIdentity(list, le);
      SortBy(list, le)
    else
      SortBy(list, le)
  }

  /** `applyFiltersAndSort`: starting again from every booking, the status filter and then the sort. */
  function ApplyFiltersAndSort(all: seq<BookingView>, filter: string, sort: string, today: int): (r: seq<BookingView>)
    ensures multiset(r) == multiset(ApplyCurrentFilters(all, filter, today))
    ensures forall b :: b in r <==> b in all && StatusFilterKeeps(b, filter, today)
    ensures SortedBy(r, Comparator(sort)) && KeepsTies(r, ApplyCurrentFilters(all, filter, today), Comparator(sort))
  {
    var r := SortBookings(ApplyCurrentFilters(all, filter, today), sort);
    assert forall b :: b in r <==> b in multiset(r);
    r
  }

  /** The search of `handleSearch`: the term is found in the lower-cased confirmation code or room type. */
  predicate SearchKeeps(b: BookingView, term: string) {
    Contains(LowerOrEmpty(b.bookingConfirmationCode), term) || Contains(LowerOrEmpty(RoomTypeOf(b)), term)
  }

  /**
   * `handleSearch`: an empty term (after lower-casing and trimming) restores
   * every booking; otherwise the matching ones are kept. The status filter
   * is then applied again, but the list is not sorted again.
   */
  function HandleSearch(all: seq<BookingView>, input: string, filter: string, today: int): (r: seq<BookingView>)
    ensures Trim(Lower(input)) == "" ==> r == ApplyCurrentFilters(all, filter, today)
    ensures forall b :: b in r <==>
      b in all && (Trim(Lower(input)) == "" || SearchKeeps(b, Trim(Lower(input))))
      && StatusFilterKeeps(b, filter, today)
    ensures IsSubsequence(r, all)
  {
    var term := Trim(Lower(input));
    var found := if term == "" then all else Filter(all, (b: BookingView) => SearchKeeps(b, term));
    FilterTwice(all, (b: BookingView) => SearchKeeps(b, term), (b: BookingView) => StatusFilterKeeps(b, filter, today));
    ApplyCurrentFilters(found, filter, today)
  }

  /** `handleStatusFilter`: the chosen status, or "all" when the choice is empty. */
  function HandleStatusFilter(selected: string): (filter: string)
    ensures filter != ""
    ensures selected != "" ==> filter == selected
  {
    if selected == "" then DefaultFilter else selected
  }

  /** Choosing the empty status lists every booking, in the order of the current sort. */
  lemma EmptyStatusListsAll(all: seq<BookingView>, sort: string, today: int)
    ensures multiset(ApplyFiltersAndSort(all, HandleStatusFilter(""), sort, today)) == multiset(all)
  {
  }

  /**
   * `handleQuickFilter`: the button's filter becomes the current one, and
   * the status dropdown shows it, or "" for "all".
   */
  function HandleQuickFilter(filter: string): (out: (string, string))
    ensures out.0 == filter
    ensures out.1 == "" <==> filter == "all" || filter == ""
    ensures out.1 != "" ==> out.1 == filter
  {
    (filter, if filter == "all" then "" else filter)
  }

  /**
   * The dropdown a quick filter leaves behind selects that same filter
   * again: the button and the dropdown never disagree.
   */
  lemma QuickFilterAgreesWithDropdown(filter: string)
    requires filter != ""
    ensures HandleStatusFilter(HandleQuickFilter(filter).1) == HandleQuickFilter(filter).0
  {
  }

  /** `handleClearFilters`: the default filter, the default sort and the list they give. */
  function HandleClearFilters(all: seq<BookingView>, today: int): (out: (string, string, seq<BookingView>))
    ensures out.0 == DefaultFilter && out.1 == DefaultSort
    ensures out.2 == ApplyFiltersAndSort(all, DefaultFilter, DefaultSort, today)
  {
    (DefaultFilter, DefaultSort, ApplyFiltersAndSort(all, DefaultFilter, DefaultSort, today))
  }

  /** After clearing, every booking is listed once, latest check-in first. */
  lemma ClearFiltersListsAllNewestFirst(all: seq<BookingView>, today: int)
    ensures var list := HandleClearFilters(all, today).2;
      multiset(list) == multiset(all)
      && forall i, j :: 0 <= i < j < |list| ==> list[i].checkInDate >= list[j].checkInDate
  {
    DefaultSortIsNewestCheckInFirst();
    assert ApplyCurrentFilters(all, DefaultFilter, today) == all;
  }

  /** `updateClearFiltersButton`: the button shows when a search, a status or a sort other than the default is set. */
  function ClearButtonVisible(search: string, status: string, sort: string): (visible: bool)
    ensures !visible <==> search == "" && status == "" && sort == DefaultSort
  {
    search != "" || status != "" || sort != DefaultSort
  }

  /** Clearing hides the button again. */
  lemma ClearingHidesButton()
    ensures !ClearButtonVisible("", "", HandleClearFilters([], 0).1)
  {
  }

  /** The status on a booking card, which ignores any cancellation mark. */
  datatype CardStatus = Active | Upcoming | Completed

  /** The card status of `createBookingCard`. */
  function GetCardStatus(b: BookingView, today: int): (s: CardStatus)
    ensures s == Active <==> b.checkInDate <= today <= b.checkOutDate
    ensures s == Upcoming <==> today < b.checkInDate
    ensures s == Completed <==> b.checkInDate <= today && b.checkOutDate < today
  {
    if b.checkInDate <= today && b.checkOutDate >= today then Active
    else if b.checkInDate > today then Upcoming
    else Completed
  }

  /** The booking details offer the cancel button only for a stay that has not begun. */
  function CanCancel(b: BookingView, today: int): (offered: bool)
    ensures offered <==> today < b.checkInDate
  {
    b.checkInDate > today
  }

  /** The cancel button is offered exactly for the bookings whose card says upcoming. */
  lemma CancelOfferedIffUpcoming(b: BookingView, today: int)
    ensures CanCancel(b, today) <==> GetCardStatus(b, today) == Upcoming
  {
  }

  /** For a booking not marked cancelled, the card shows the status the administrator's list gives it. */
  lemma CardAgreesWithAdminStatus(b: BookingView, today: int)
    requires b.status != Some("cancelled")
    ensures GetCardStatus(b, today) == Active <==> AdminBookings.GetBookingStatus(b, today) == AdminBookings.Active
    ensures GetCardStatus(b, today) == Upcoming <==> AdminBookings.GetBookingStatus(b, today) == AdminBookings.Upcoming
    ensures GetCardStatus(b, today) == Completed <==> AdminBookings.GetBookingStatus(b, today) == AdminBookings.Completed
  {
  }

  /** The "active" filter does not look at the cancellation mark: a cancelled stay that includes today is listed. */
  lemma ActiveFilterKeepsCancelled(b: BookingView, today: int)
    requires b.status == Some("cancelled") && b.checkInDate <= today <= b.checkOutDate
    ensures b in ApplyCurrentFilters([b], "active", today)
  {
  }

  /** The counts shown above the guest's list. */
  datatype Stats = Stats(all: nat, active: nat, upcoming: nat, completed: nat, cancelled: nat)

  /**
   * `updateStatistics` over every booking of the guest: cancelled bookings
   * first, then active, upcoming and completed ones. Each count is the one
   * the administrator's classification gives.
   */
  method UpdateStatistics(all: seq<BookingView>, today: int) returns (st: Stats)
    ensures st.all == |all|
    ensures st.cancelled == Count(all, AdminBookings.HasStatus(AdminBookings.Cancelled, today))
    ensures st.active == Count(all, AdminBookings.HasStatus(AdminBookings.Active, today))
    ensures st.upcoming == Count(all, AdminBookings.HasStatus(AdminBookings.Upcoming, today))
    ensures st.completed == Count(all, AdminBookings.HasStatus(AdminBookings.Completed, today))
  {
    st := Stats(|all|, 0, 0, 0, 0);
    var i := 0;
    while i < |all|
      invariant 0 <= i <= |all|
      invariant st.all == |all|
      invariant st.cancelled == Count(all[..i], AdminBookings.HasStatus(AdminBookings.Cancelled, today))
      invariant st.active == Count(all[..i], AdminBookings.HasStatus(AdminBookings.Active, today))
      invariant st.upcoming == Count(all[..i], AdminBookings.HasStatus(AdminBookings.Upcoming, today))
      invariant st.completed == Count(all[..i], AdminBookings.HasStatus(AdminBookings.Completed, today))
    {
      var b := all[i];
      assert all[..i + 1] == all[..i] + [b];
      CountAppend(all[..i], b, AdminBookings.HasStatus(AdminBookings.Cancelled, today));
      CountAppend(all[..i], b, AdminBookings.HasStatus(AdminBookings.Active, today));
      CountAppend(all[..i], b, AdminBookings.HasStatus(AdminBookings.Upcoming, today));
      CountAppend(all[..i], b, AdminBookings.HasStatus(AdminBookings.Completed, today));
      if b.status == Some("cancelled") {
        st := st.(cancelled := st.cancelled + 1);
      } else if b.checkInDate <= today && b.checkOutDate >= today {
        st := st.(active := st.active + 1);
      } else if b.checkInDate > today {
        st := st.(upcoming := st.upcoming + 1);
      } else if b.checkOutDate < today {
        st := st.(completed := st.completed + 1);
      }
      i := i + 1;
    }
    assert all[..i] == all;
  }
}
