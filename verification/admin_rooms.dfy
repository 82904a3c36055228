/**
 * The administrator's room list: search, type and price filters, the
 * statistics over the filtered rooms, the room cards, and the checks the
 * room form makes before a new room is sent. Results of `parseFloat` are
 * given as parameters: `None` stands for NaN.
 */
module AdminRooms {
  import opened Common
  import opened Text
  import opened Seqs
  import opened Views
  import opened Entities

  /** `parseFloat(text) || 0`: NaN and 0 both give 0. */
  function NumberOrZero(parsed: Option<real>): real {
    if parsed.Some? && parsed.value != 0.0 then parsed.value else 0.0
  }

  /**
   * The bounds of `applyFilters`: the lower bound is the parsed minimum or 0;
   * the upper bound is the parsed maximum, or none (Infinity) when it does
   * not parse or is 0.
   */
  function MinBound(parsedMin: Option<real>): real {
    NumberOrZero(parsedMin)
  }

  function MaxBound(parsedMax: Option<real>): (bound: Option<real>)
    ensures bound.None? <==> parsedMax.None? || parsedMax.value == 0.0
    ensures bound.Some? ==> bound == parsedMax
  {
    if parsedMax.Some? && parsedMax.value != 0.0 then parsedMax else None
  }

  /** The search term is found in the lower-cased type or description. */
  predicate SearchMatches(room: Room, term: string) {
    term == "" || Contains(LowerOrEmpty(room.roomType), term) || Contains(LowerOrEmpty(room.roomDescription), term)
  }

  /** The room's type is the one chosen, or no type is chosen. */
  predicate TypeMatches(room: Room, typeFilter: string) {
    typeFilter == "" || room.roomType == Some(typeFilter)
  }

  /** The room's price, 0 when it does not parse, lies within the bounds. */
  predicate PriceMatches(room: Room, parsedMin: Option<real>, parsedMax: Option<real>) {
    var price := NumberOrZero(room.roomPrice);
    MinBound(parsedMin) <= price && (MaxBound(parsedMax).None? || price <= MaxBound(parsedMax).value)
  }

  predicate Keep(room: Room, term: string, typeFilter: string, parsedMin: Option<real>, parsedMax: Option<real>) {
    SearchMatches(room, term) && TypeMatches(room, typeFilter) && PriceMatches(room, parsedMin, parsedMax)
  }

  /**
   * `applyFilters`: the search term is the input lower-cased and trimmed;
   * the rooms that pass the search, the type and the price range, in their
   * original order.
   */
  function ApplyFilters(all: seq<Room>, searchInput: string, typeFilter: string, parsedMin: Option<real>, parsedMax: Option<real>)
    : (r: seq<Room>)
    ensures IsSubsequence(r, all)
    ensures forall room :: room in r <==>
      room in all
      && (Trim(Lower(searchInput)) == ""
          || Contains(LowerOrEmpty(room.roomType), Trim(Lower(searchInput)))
          || Contains(LowerOrEmpty(room.roomDescription), Trim(Lower(searchInput))))
      && (typeFilter == "" || room.roomType == Some(typeFilter))
      && MinBound(parsedMin) <= NumberOrZero(room.roomPrice)
      && (MaxBound(parsedMax).None? || NumberOrZero(room.roomPrice) <= MaxBound(parsedMax).value)
  {
    var term := Trim(Lower(searchInput));
    Filter(all, (room: Room) => Keep(room, term, typeFilter, parsedMin, parsedMax))
  }

  /** A maximum of 0 is read as no maximum at all: every room passes the price filter then, however expensive. */
  lemma ZeroMaximumMeansNoLimit(all: seq<Room>)
    requires forall i :: 0 <= i < |all| ==> all[i].roomPrice.Some? && all[i].roomPrice.value >= 0.0
    ensures ApplyFilters(all, "", "", None, Some(0.0)) == all
  {
    FilterAll(all, (room: Room) => Keep(room, "", "", None, Some(0.0)));
  }

  /** A room whose price is missing is filtered as if it cost 0, so a positive minimum drops it. */
  lemma UnpricedRoomCountsAsFree(room: Room, parsedMin: real)
    requires room.roomPrice.None? && parsedMin > 0.0
    ensures ApplyFilters([room], "", "", Some(parsedMin), None) == []
  {
    FilterNone([room], (r: Room) => Keep(r, "", "", Some(parsedMin), None));
  }

  datatype Stats = Stats(total: nat, available: nat, occupied: nat)

  /** `updateStatistics`: every filtered room counts as available and none as occupied. */
  function UpdateStatistics(filtered: seq<Room>): (st: Stats)
    ensures st.total == st.available == |filtered| && st.occupied == 0
    ensures st.available + st.occupied == st.total
  {
    Stats(|filtered|, |filtered|, 0)
  }

  const NoDescription := "No description available."

  /** The description on a room card: cut to 100 characters and "...", or a fixed text when missing or empty. */
  function ShortDescription(description: Option<string>): (text: string)
    ensures description.Some? && |description.value| > 100 ==> text == description.value[..100] + "..."
    ensures description.Some? && 0 < |description.value| <= 100 ==> text == description.value
    ensures description.None? || description.value == "" ==> text == NoDescription
    ensures |text| <= 103
  {
    ShortText(description, 100, NoDescription)
  }

  /** The outcome of the room form's checks. */
  datatype FormCheck = Proceed | Refused(message: string)

  /**
   * `handleRoomSubmit` before anything is sent. For a new room, in this
   * order: a type, a price that is given and does not parse as a number
   * of at most 0, a description and a photo; the first that fails stops the
   * submission with its message. Edits are sent without these checks. The
   * texts are trimmed first; `parsedPrice` is `parseFloat` of the trimmed
   * price.
   */
  function ValidateRoomForm(editing: bool, roomType: string, roomPrice: string, parsedPrice: Option<real>,
                            description: string, hasPhoto: bool): (c: FormCheck)
    ensures editing ==> c == Proceed
    ensures c == Proceed <==>
      editing
      || (Trim(roomType) != "" && Trim(roomPrice) != "" && !(parsedPrice.Some? && parsedPrice.value <= 0.0)
          && Trim(description) != "" && hasPhoto)
    ensures !editing && Trim(roomType) == "" ==> c == Refused("Room type is required")
    ensures !editing && Trim(roomType) != "" && (Trim(roomPrice) == "" || (parsedPrice.Some? && parsedPrice.value <= 0.0)) ==>
      c == Refused("Valid room price is required")
    ensures (!editing && Trim(roomType) != "" && Trim(roomPrice) != "" && !(parsedPrice.Some? && parsedPrice.value <= 0.0)
             && Trim(description) == "") ==>
      c == Refused("Room description is required")
    ensures (!editing && Trim(roomType) != "" && Trim(roomPrice) != "" && !(parsedPrice.Some? && parsedPrice.value <= 0.0)
             && Trim(description) != "" && !hasPhoto) ==>
      c == Refused("Room photo is required")
    ensures c.Refused? ==>
      c.message in {"Room type is required", "Valid room price is required", "Room description is required", "Room photo is required"}
  {
    if editing then Proceed
    else if Trim(roomType) == "" then Refused("Room type is required")
    else if Trim(roomPrice) == "" || (parsedPrice.Some? && parsedPrice.value <= 0.0) then Refused("Valid room price is required")
    else if Trim(description) == "" then Refused("Room description is required")
    else if !hasPhoto then Refused("Room photo is required")
    else Proceed
  }

  /**
   * A price that is not a number is not refused, NaN comparing false with 0:
   * a new room with a type, any non-blank price text, a description and a
   * photo is sent on.
   */
  lemma NonNumericPriceIsSent(roomType: string, roomPrice: string, description: string, i: nat, j: nat, k: nat)
    requires i < |roomType| && !IsJsSpace(roomType[i])
    requires j < |roomPrice| && !IsJsSpace(roomPrice[j])
    requires k < |description| && !IsJsSpace(description[k])
    ensures ValidateRoomForm(false, roomType, roomPrice, None, description, true) == Proceed
  {
    assert Trim(roomType) != "" && Trim(roomPrice) != "" && Trim(description) != "";
  }
}
