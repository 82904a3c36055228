/**
 * The public room browser: the search form, the type-only search, the price
 * and type filters, the sort orders and the pages of six rooms. The results
 * of the availability queries, which the backend answers, are a parameter.
 */
module Rooms {
  import opened Common
  import opened Text
  import opened Seqs
  import opened Sorting
  import opened Paging
  import opened Entities

  const RoomsPerPage: nat := 6

  /** The last search submitted: the two dates, absent when empty, and the room type ("" for any). */
  datatype SearchParams = SearchParams(checkInDate: Option<int>, checkOutDate: Option<int>, roomType: string)

  /**
   * `handleSearch`: with both dates given and check-out not after check-in
   * the search is refused and nothing changes; otherwise the form's values
   * become the search.
   */
  function HandleSearch(current: SearchParams, checkIn: Option<int>, checkOut: Option<int>, roomType: string)
    : (next: Option<SearchParams>)
    ensures next.None? <==> checkIn.Some? && checkOut.Some? && checkOut.value <= checkIn.value
    ensures next.Some? ==> next.value == SearchParams(checkIn, checkOut, roomType)
  {
    if checkIn.Some? && checkOut.Some? && checkOut.value <= checkIn.value then None
    else Some(SearchParams(checkIn, checkOut, roomType))
  }

  /** The type-only search keeps a room whose lower-cased type contains the lower-cased query. */
  predicate TypeMatches(room: Room, query: string)
    requires room.roomType.Some?
  {
    Contains(Lower(room.roomType.value), Lower(query))
  }

  /**
   * `applySearchFilter`. With both dates, the rooms the availability queries
   * returned, `available`. With a type only, the rooms whose type contains
   * it, ignoring case; a room without a type makes the filter throw, and the
   * list shown stays as it was. With neither, every room.
   */
  function ApplySearchFilter(all: seq<Room>, shown: seq<Room>, params: SearchParams, available: seq<Room>)
    : (r: seq<Room>)
    ensures params.checkInDate.Some? && params.checkOutDate.Some? ==> r == available
    ensures (params.checkInDate.None? || params.checkOutDate.None?) && params.roomType == "" ==> r == all
    ensures (params.checkInDate.None? || params.checkOutDate.None?) && params.roomType != "" ==>
      if forall i :: 0 <= i < |all| ==> all[i].roomType.Some? then
        IsSubsequence(r, all)
        && forall room :: room in r <==> room in all && room.roomType.Some? && TypeMatches(room, params.roomType)
      else
        r == shown
  {
    if params.checkInDate.Some? && params.checkOutDate.Some? then available
    else if params.roomType != "" then
      if forall i :: 0 <= i < |all| ==> all[i].roomType.Some? then
        Filter(all, (room: Room) => room.roomType.Some? && TypeMatches(room, params.roomType))
      else shown
    else all
  }

  /**
   * The tests of `applyFilters`. A bound that does not parse (`None`) sets no
   * limit; a room whose price does not parse fails every bound; with some
   * types ticked the room's type must be one of them.
   */
  predicate PassesFilters(room: Room, minPrice: Option<real>, maxPrice: Option<real>, selectedTypes: seq<string>) {
    (minPrice.None? || (room.roomPrice.Some? && room.roomPrice.value >= minPrice.value))
    && (maxPrice.None? || (room.roomPrice.Some? && room.roomPrice.value <= maxPrice.value))
    && (|selectedTypes| == 0 || (room.roomType.Some? && room.roomType.value in selectedTypes))
  }

  /** The list and the page shown. */
  datatype Listing = Listing(filtered: seq<Room>, page: int)

  /**
   * `applyFilters`: starting again from every room, the ones that pass the
   * price bounds and the type choice, in their original order, on page 1.
   */
  function ApplyFilters(all: seq<Room>, minPrice: Option<real>, maxPrice: Option<real>, selectedTypes: seq<string>)
    : (l: Listing)
    ensures l.page == 1
    ensures IsSubsequence(l.filtered, all)
    ensures forall room :: room in l.filtered <==>
      room in all
      && (minPrice.None? || (room.roomPrice.Some? && room.roomPrice.value >= minPrice.value))
      && (maxPrice.None? || (room.roomPrice.Some? && room.roomPrice.value <= maxPrice.value))
      && (|selectedTypes| == 0 || (room.roomType.Some? && room.roomType.value in selectedTypes))
  {
    Listing(Filter(all, (room: Room) => PassesFilters(room, minPrice, maxPrice, selectedTypes)), 1)
  }

  /** `clearAllFilters`: every room, on page 1. */
  function ClearAllFilters(all: seq<Room>): (l: Listing)
    ensures l == Listing(all, 1)
  {
    Listing(all, 1)
  }

  /** Clearing the filters shows what filtering with every bound and type choice empty shows. */
  lemma ClearAllFiltersMatchesEmptyFilters(all: seq<Room>)
    ensures ClearAllFilters(all) == ApplyFilters(all, None, None, [])
  {
    FilterAll(all, (room: Room) => PassesFilters(room, None, None, []));
  }

  /** Filtering with a lower bound above the upper bound shows no room. */
  lemma CrossedBoundsShowNothing(all: seq<Room>, minPrice: real, maxPrice: real, selectedTypes: seq<string>)
    requires minPrice > maxPrice
    ensures ApplyFilters(all, Some(minPrice), Some(maxPrice), selectedTypes).filtered == []
  {
    FilterNone(all, (room: Room) => PassesFilters(room, Some(minPrice), Some(maxPrice), selectedTypes));
  }

  /** "May stay before" for the comparators of `handleSort`. */
  function PriceLow(): (le: (Room, Room) -> bool)
    ensures TotalPreorder(le)
  {
    (a: Room, b: Room) => a.roomPrice.GetOr(0.0) <= b.roomPrice.GetOr(0.0)
  }

  function PriceHigh(): (le: (Room, Room) -> bool)
    ensures TotalPreorder(le)
  {
    (a: Room, b: Room) => a.roomPrice.GetOr(0.0) >= b.roomPrice.GetOr(0.0)
  }

  function ByType(): (le: (Room, Room) -> bool)
    ensures TotalPreorder(le)
  {
    forall a: Room, b: Room
      ensures LexLe(a.roomType.GetOr(""), b.roomType.GetOr("")) || LexLe(b.roomType.GetOr(""), a.roomType.GetOr(""))
    {
      LexLeTotal(a.roomType.GetOr(""), b.roomType.GetOr(""));
    }
    forall a: Room, b: Room, c: Room |
      LexLe(a.roomType.GetOr(""), b.roomType.GetOr("")) && LexLe(b.roomType.GetOr(""), c.roomType.GetOr(""))
      ensures LexLe(a.roomType.GetOr(""), c.roomType.GetOr(""))
    {
      LexLeTransitive(a.roomType.GetOr(""), b.roomType.GetOr(""), c.roomType.GetOr(""));
    }
    (a: Room, b: Room) => LexLe(a.roomType.GetOr(""), b.roomType.GetOr(""))
  }

  function ById(): (le: (Room, Room) -> bool)
    ensures TotalPreorder(le)
  {
    (a: Room, b: Room) => a.id <= b.id
  }

  /**
   * The rooms, every one priced, sorted by price: cheapest first when `low`,
   * dearest first otherwise; rooms of equal price keep their order.
   */
  function SortByPrice(rooms: seq<Room>, low: bool): (r: seq<Room>)
    requires forall i :: 0 <= i < |rooms| ==> rooms[i].roomPrice.Some?
    ensures multiset(r) == multiset(rooms) && |r| == |rooms|
    ensures forall i :: 0 <= i < |r| ==> r[i].roomPrice.Some?
    ensures low ==> forall i, j :: 0 <= i < j < |r| ==> r[i].roomPrice.value <= r[j].roomPrice.value
    ensures !low ==> forall i, j :: 0 <= i < j < |r| ==> r[i].roomPrice.value >= r[j].roomPrice.value
    ensures KeepsTies(r, rooms, if low then PriceLow() else PriceHigh())
  {
    var r := SortBy(rooms, if low then PriceLow() else PriceHigh());
    PricesKept(rooms, r);
    r
  }

  /** The rooms, every one typed, sorted by type in code-unit order; rooms of the same type keep their order. */
  function SortByType(rooms: seq<Room>): (r: seq<Room>)
    requires forall i :: 0 <= i < |rooms| ==> rooms[i].roomType.Some?
    ensures multiset(r) == multiset(rooms) && |r| == |rooms|
    ensures forall i :: 0 <= i < |r| ==> r[i].roomType.Some?
    ensures forall i, j :: 0 <= i < j < |r| ==> LexLe(r[i].roomType.value, r[j].roomType.value)
    ensures KeepsTies(r, rooms, ByType())
  {
    var r := SortBy(rooms, ByType());
    TypesKept(rooms, r);
    r
  }

  predicate AllPriced(rooms: seq<Room>) {
    forall i :: 0 <= i < |rooms| ==> rooms[i].roomPrice.Some?
  }

  predicate AllTyped(rooms: seq<Room>) {
    forall i :: 0 <= i < |rooms| ==> rooms[i].roomType.Some?
  }

  /** The rooms that have a price all have the same one: then the price comparator answers 0 for every pair. */
  predicate OnePrice(rooms: seq<Room>) {
    forall i, j :: 0 <= i < |rooms| && 0 <= j < |rooms| && rooms[i].roomPrice.Some? && rooms[j].roomPrice.Some? ==>
      rooms[i].roomPrice.value == rooms[j].roomPrice.value
  }

  /**
   * `handleSort`: the shown rooms reordered, on page 1.
   *
   * A price difference with a missing price is NaN, which the sort reads as
   * 0. With every room priced the comparator is consistent and the rooms
   * are sorted by price. When the priced rooms share one price every pair
   * compares equal, and the stable sort keeps the list as it is; a list of
   * at most one room is one such case. Otherwise the comparator is not
   * consistent and the order is not determined, which is `None` here.
   *
   * Sorting by type calls `localeCompare` on a missing type and throws.
   * A list of at most one room never reaches the comparator and stays as
   * it is. With every room typed the rooms are sorted by type; otherwise
   * whether the comparator reaches the missing type depends on the order
   * the engine compares in, which is `None` here.
   */
  function HandleSort(filtered: seq<Room>, sortBy: string): (r: Option<Listing>)
    ensures (sortBy == "price-low" || sortBy == "price-high") ==>
      (r.Some? <==> AllPriced(filtered) || OnePrice(filtered))
    ensures (sortBy == "price-low" || sortBy == "price-high") && !AllPriced(filtered) && OnePrice(filtered) ==>
      r == Some(Listing(filtered, 1))
    ensures sortBy == "type" ==> (r.Some? <==> |filtered| <= 1 || AllTyped(filtered))
    ensures sortBy == "type" && !AllTyped(filtered) && |filtered| <= 1 ==> r == Some(Listing(filtered, 1))
    ensures sortBy != "price-low" && sortBy != "price-high" && sortBy != "type" ==> r.Some?
    ensures r.Some? ==> r.value.page == 1 && multiset(r.value.filtered) == multiset(filtered)
    ensures r.Some? ==> |r.value.filtered| == |filtered|
    ensures r.Some? && (sortBy == "price-low" || sortBy == "price-high") && AllPriced(filtered) ==>
      AllPriced(r.value.filtered)
    ensures r.Some? && sortBy == "type" && AllTyped(filtered) ==> AllTyped(r.value.filtered)
    ensures sortBy == "price-low" && AllPriced(filtered) ==>
      r.Some? && forall i, j :: 0 <= i < j < |filtered| ==>
        r.value.filtered[i].roomPrice.value <= r.value.filtered[j].roomPrice.value
    ensures sortBy == "price-high" && AllPriced(filtered) ==>
      r.Some? && forall i, j :: 0 <= i < j < |filtered| ==>
        r.value.filtered[i].roomPrice.value >= r.value.filtered[j].roomPrice.value
    ensures sortBy == "type" && AllTyped(filtered) ==>
      r.Some? && forall i, j :: 0 <= i < j < |filtered| ==>
        LexLe(r.value.filtered[i].roomType.value, r.value.filtered[j].roomType.value)
    ensures r.Some? && sortBy != "price-low" && sortBy != "price-high" && sortBy != "type" ==>
      forall i, j :: 0 <= i < j < |filtered| ==> r.value.filtered[i].id <= r.value.filtered[j].id
    ensures r.Some? && sortBy == "price-low" ==> KeepsTies(r.value.filtered, filtered, PriceLow())
    ensures r.Some? && sortBy == "price-high" ==> KeepsTies(r.value.filtered, filtered, PriceHigh())
    ensures r.Some? && sortBy == "type" ==> KeepsTies(r.value.filtered, filtered, ByType())
    ensures r.Some? && sortBy != "price-low" && sortBy != "price-high" && sortBy != "type" ==>
      KeepsTies(r.value.filtered, filtered, ById())
  {
    if sortBy == "price-low" || sortBy == "price-high" then
      if AllPriced(filtered) then
        Some(Listing(SortByPrice(filtered, sortBy == "price-low"), 1))
      else if OnePrice(filtered) then
        Some(Listing(filtered, 1))
      else None
    else if sortBy == "type" then
      if AllTyped(filtered) then
        Some(Listing(SortByType(filtered), 1))
      else if |filtered| <= 1 then
        Some(Listing(filtered, 1))
      else None
    else
      Some(Listing(SortBy(filtered, ById()), 1))
  }

  /** A single room that lacks the sort key is shown as it is, on page 1: the comparator is never called. */
  lemma SingleRoomWithoutKeyIsShown(room: Room, sortBy: string)
    requires ((sortBy == "price-low" || sortBy == "price-high") && room.roomPrice.None?)
             || (sortBy == "type" && room.roomType.None?)
    ensures HandleSort([room], sortBy) == Some(Listing([room], 1))
  {
  }

  /** Two priced rooms of different prices beside an unpriced one leave the price order undetermined. */
  lemma MixedPricesAreUndetermined(a: Room, b: Room, c: Room)
    requires a.roomPrice.Some? && b.roomPrice.Some? && a.roomPrice.value != b.roomPrice.value
    requires c.roomPrice.None?
    ensures HandleSort([a, b, c], "price-low") == None
  {
    assert [a, b, c][2].roomPrice.None?;
    assert [a, b, c][0] == a && [a, b, c][1] == b;
  }

  lemma PricesKept(s: seq<Room>, t: seq<Room>)
    requires multiset(s) == multiset(t)
    requires forall i :: 0 <= i < |s| ==> s[i].roomPrice.Some?
    ensures forall i :: 0 <= i < |t| ==> t[i].roomPrice.Some?
  {
    forall i | 0 <= i < |t|
      ensures t[i].roomPrice.Some?
    {
      assert t[i] in multiset(s);
    }
  }

  lemma TypesKept(s: seq<Room>, t: seq<Room>)
    requires multiset(s) == multiset(t)
    requires forall i :: 0 <= i < |s| ==> s[i].roomType.Some?
    ensures forall i :: 0 <= i < |t| ==> t[i].roomType.Some?
  {
    forall i | 0 <= i < |t|
      ensures t[i].roomType.Some?
    {
      assert t[i] in multiset(s);
    }
  }

  /** `displayRooms`: the rooms of the current page. */
  function RoomsToShow(l: Listing): (r: seq<Room>)
    requires l.page >= 1
    ensures |r| <= RoomsPerPage
    ensures |r| == Max(0, Min(RoomsPerPage, |l.filtered| - (l.page - 1) * RoomsPerPage))
    ensures forall k :: 0 <= k < |r| ==> r[k] == l.filtered[(l.page - 1) * RoomsPerPage + k]
  {
    PageSlice(l.filtered, l.page, RoomsPerPage)
  }

  /** `changePage`: only a page that holds at least one room is taken. */
  function ChangeRoomsPage(l: Listing, requested: int): (m: Listing)
    ensures m.filtered == l.filtered
    ensures m.page == requested <==> requested == l.page || (1 <= requested && (requested - 1) * RoomsPerPage < |l.filtered|)
    ensures m.page != requested ==> m.page == l.page
  {
    l.(page := ChangePage(l.page, requested, |l.filtered|, RoomsPerPage))
  }

  const DefaultDescription := "Comfortable room with modern amenities and excellent service."

  /** The description on a room card: cut to 120 characters and "...", or a fixed text when missing or empty. */
  function ShortDescription(description: Option<string>): (text: string)
    ensures description.Some? && |description.value| > 120 ==>
      text == description.value[..120] + "..."
    ensures description.Some? && 0 < |description.value| <= 120 ==> text == description.value
    ensures description.None? || description.value == "" ==> text == DefaultDescription
    ensures |text| <= 123
  {
    ShortText(description, 120, DefaultDescription)
  }
}
