/**
 * The room service of the backend over the room table: adding a room with
 * its photo, listing, deleting, partially updating and fetching one room.
 * The stored photo's generated name and the file-system outcome are
 * parameters, passed on to the image store.
 */
module RoomService {
  import opened Common
  import opened Entities
  import opened ImageStorage
  import opened Text

  datatype Response = Response(statusCode: int, message: string, room: Option<Room>, roomList: Option<seq<Room>>)

  function Reply(statusCode: int, message: string): Response {
    Response(statusCode, message, None, None)
  }

  /** Rooms are stored under their own id. */
  predicate Valid(rooms: Table<Room>) {
    rooms.Valid() && forall k :: k in rooms.rows ==> rooms.rows[k].id == k
  }

  /**
   * `addNewRoom`: the photo is stored first; if that fails the answer is 500
   * with the storage error's message and no room is added. Otherwise a room
   * with exactly the given type, price and description and the photo's URL
   * is stored under a fresh id and the answer is 200 with that room.
   */
  function AddNewRoom(rooms: Table<Room>, photo: Option<Upload>, roomType: Option<string>, roomPrice: Option<real>,
                      description: Option<string>, generatedName: string, io: IoOutcome): (out: (Table<Room>, Response))
    requires Valid(rooms)
    ensures Valid(out.0)
    ensures out.1.statusCode in {200, 500}
    ensures out.1.statusCode == 200 <==> SaveImage(photo, generatedName, io).Ok?
    ensures SaveImage(photo, generatedName, io).Err? ==>
      out.0 == rooms && out.1 == Reply(500, "Error saving a room " + ErrorMessage(SaveImage(photo, generatedName, io).error))
    ensures SaveImage(photo, generatedName, io).Ok? ==>
      var room := Room(rooms.nextId, roomType, roomPrice, description, Some(SaveImage(photo, generatedName, io).value));
      rooms.nextId !in rooms.rows
      && out.0.rows == rooms.rows[rooms.nextId := room]
      && out.1 == Response(200, "Successfully added new room", Some(room), None)
  {
    match SaveImage(photo, generatedName, io)
    case Err(e) =>
      (rooms, Reply(500, "Error saving a room " + ErrorMessage(e)))
    case Ok(url) =>
      var room := Room(rooms.nextId, roomType, roomPrice, description, Some(url));
      (rooms.Add(room), Response(200, "Successfully added new room", Some(room), None))
  }

  /** `getAllRooms`: every room, ordered by id from the newest down. */
  method GetAllRooms(rooms: Table<Room>) returns (response: Response)
    requires Valid(rooms)
    ensures response.statusCode == 200 && response.message == "Successfully added new room"
    ensures response.roomList.Some?
    ensures var list := response.roomList.value;
      (forall i, j :: 0 <= i < j < |list| ==> list[i].id > list[j].id)
      && (forall i :: 0 <= i < |list| ==> list[i].id in rooms.rows && rooms.rows[list[i].id] == list[i])
      && (forall k :: k in rooms.rows ==> rooms.rows[k] in list)
  {
    var ids := KeysDescending(rooms);
    forall i | 0 <= i < |ids|
      ensures ids[i] in rooms.rows
    {
      assert ids[i] in ids;
    }
    var list := seq(|ids|, i requires 0 <= i < |ids| => rooms.rows[ids[i]]);
    forall k | k in rooms.rows
      ensures rooms.rows[k] in list
    {
      assert k in ids;
      var i :| 0 <= i < |ids| && ids[i] == k;
      assert list[i] == rooms.rows[k];
    }
    response := Response(200, "Successfully added new room", None, Some(list));
  }

  /** `deleteRoom`: 404 and no change for an unknown id; otherwise exactly that room is removed. */
  function DeleteRoom(rooms: Table<Room>, roomId: int): (out: (Table<Room>, Response))
    requires Valid(rooms)
    ensures Valid(out.0) && out.0.nextId == rooms.nextId
    ensures roomId !in rooms.rows ==> out.0 == rooms && out.1 == Reply(404, "Room not found")
    ensures roomId in rooms.rows ==>
      out.0.rows.Keys == rooms.rows.Keys - {roomId}
      && (forall k :: k in out.0.rows ==> out.0.rows[k] == rooms.rows[k])
      && out.1 == Reply(200, "Successfully deleted room")
  {
    if roomId !in rooms.rows then (rooms, Reply(404, "Room not found"))
    else (rooms.Remove(roomId), Reply(200, "Successfully deleted room"))
  }

  /** A photo the update will try to store: present and not empty. */
  predicate HasNewPhoto(photo: Option<Upload>) {
    photo.Some? && photo.value.size > 0
  }

  /**
   * `updateRoom`. A new photo is stored before the room is looked up: a
   * rejected photo is reported as 404 "Room not found" and one without a
   * file name as 500. An unknown id is 404. Otherwise each field whose
   * argument is present is overwritten, the photo URL only when a photo was
   * stored, and the answer is 200 with the updated room. Nothing else
   * changes.
   */
  function UpdateRoom(rooms: Table<Room>, roomId: int, description: Option<string>, roomType: Option<string>,
                      roomPrice: Option<real>, photo: Option<Upload>, generatedName: string, io: IoOutcome)
    : (out: (Table<Room>, Response))
    requires Valid(rooms)
    ensures Valid(out.0) && out.0.nextId == rooms.nextId
    ensures out.1.statusCode != 200 ==> out.0 == rooms
    ensures roomId !in rooms.rows ==> out.1.statusCode == 404 || out.1.statusCode == 500
    ensures out.1.statusCode == 500 ==>
      HasNewPhoto(photo) && SaveImage(photo, generatedName, io) == Err(NullFileName)
      && out.1 == Reply(500, "Error deleting room " + NullFileNameMessage)
    ensures out.1.statusCode == 404 ==> out.1 == Reply(404, "Room not found")
    ensures HasNewPhoto(photo) && SaveImage(photo, generatedName, io).Err? && SaveImage(photo, generatedName, io).error.Rejected? ==>
      out == (rooms, Reply(404, "Room not found"))
    ensures HasNewPhoto(photo) && SaveImage(photo, generatedName, io) == Err(NullFileName) ==>
      out == (rooms, Reply(500, "Error deleting room " + NullFileNameMessage))
    ensures (!HasNewPhoto(photo) || SaveImage(photo, generatedName, io).Ok?) && roomId !in rooms.rows ==>
      out == (rooms, Reply(404, "Room not found"))
    ensures out.1.statusCode == 200 <==>
      roomId in rooms.rows && (HasNewPhoto(photo) ==> SaveImage(photo, generatedName, io).Ok?)
    ensures out.1.statusCode == 200 ==>
      roomId in rooms.rows && roomId in out.0.rows &&
      var before := rooms.rows[roomId];
      var after := out.0.rows[roomId];
      out.0.rows == rooms.rows[roomId := after]
      && out.1 == Response(200, "Successfully deleted room", Some(after), None)
      && after.id == before.id
      && after.roomType == (if roomType.Some? then roomType else before.roomType)
      && after.roomPrice == (if roomPrice.Some? then roomPrice else before.roomPrice)
      && after.roomDescription == (if description.Some? then description else before.roomDescription)
      && after.roomPhotoUrl ==
           (if HasNewPhoto(photo) then Some(SaveImage(photo, generatedName, io).value) else before.roomPhotoUrl)
  {
    var imageUrl: Result<Option<string>, StorageError> :=
      if HasNewPhoto(photo) then
        match SaveImage(photo, generatedName, io)
        case Ok(url) => Ok(Some(url))
        case Err(e) => Err(e)
      else Ok(None);
    if imageUrl.Err? then
      if imageUrl.error.Rejected? then (rooms, Reply(404, "Room not found"))
      else (rooms, Reply(500, "Error deleting room " + NullFileNameMessage))
    else if roomId !in rooms.rows then
      (rooms, Reply(404, "Room not found"))
    else
      var room := rooms.rows[roomId];
      var room := if roomType.Some? then room.(roomType := roomType) else room;
      var room := if roomPrice.Some? then room.(roomPrice := roomPrice) else room;
      var room := if description.Some? then room.(roomDescription := description) else room;
      var room := if imageUrl.value.Some? then room.(roomPhotoUrl := imageUrl.value) else room;
      (rooms.(rows := rooms.rows[roomId := room]), Response(200, "Successfully deleted room", Some(room), None))
  }

  /** `getRoomById`: 404 for an unknown id, otherwise 200 with the stored room. */
  function GetRoomById(rooms: Table<Room>, roomId: int): (r: Response)
    ensures roomId !in rooms.rows ==> r == Reply(404, "Room not found")
    ensures roomId in rooms.rows ==>
      r.statusCode == 200 && r.message == "Successfully retrieved room" && r.room == Some(rooms.rows[roomId])
  {
    if roomId !in rooms.rows then Reply(404, "Room not found")
    else Response(200, "Successfully retrieved room", Some(rooms.rows[roomId]), None)
  }

  /** A room just added is found under the new id with exactly the given details. */
  lemma AddedRoomIsRetrievable(rooms: Table<Room>, photo: Option<Upload>, roomType: Option<string>, roomPrice: Option<real>,
                               description: Option<string>, generatedName: string, io: IoOutcome)
    requires Valid(rooms)
    requires AddNewRoom(rooms, photo, roomType, roomPrice, description, generatedName, io).1.statusCode == 200
    ensures var r := GetRoomById(AddNewRoom(rooms, photo, roomType, roomPrice, description, generatedName, io).0, rooms.nextId);
      r.statusCode == 200 && r.room.Some?
      && r.room.value.roomType == roomType && r.room.value.roomPrice == roomPrice
      && r.room.value.roomDescription == description
      && r.room.value.roomPhotoUrl == Some(SaveImage(photo, generatedName, io).value)
  {
  }

  /** Deleting a room just added restores the rooms that were there before. */
  lemma DeleteUndoesAdd(rooms: Table<Room>, photo: Option<Upload>, roomType: Option<string>, roomPrice: Option<real>,
                        description: Option<string>, generatedName: string, io: IoOutcome)
    requires Valid(rooms)
    requires AddNewRoom(rooms, photo, roomType, roomPrice, description, generatedName, io).1.statusCode == 200
    ensures DeleteRoom(AddNewRoom(rooms, photo, roomType, roomPrice, description, generatedName, io).0, rooms.nextId).0.rows
      == rooms.rows
  {
    var added := AddNewRoom(rooms, photo, roomType, roomPrice, description, generatedName, io).0;
    assert added.rows - {rooms.nextId} == rooms.rows;
  }

  /** An update without any argument and without a photo leaves an existing room as it was. */
  lemma EmptyUpdateChangesNothing(rooms: Table<Room>, roomId: int, generatedName: string, io: IoOutcome)
    requires Valid(rooms) && roomId in rooms.rows
    ensures var out := UpdateRoom(rooms, roomId, None, None, None, None, generatedName, io);
      out.0 == rooms && out.1.statusCode == 200
  {
    var out := UpdateRoom(rooms, roomId, None, None, None, None, generatedName, io);
    assert out.0.rows == rooms.rows;
  }

  /** Repeating an update without a photo changes nothing more. */
  lemma UpdateIsIdempotent(rooms: Table<Room>, roomId: int, description: Option<string>, roomType: Option<string>,
                           roomPrice: Option<real>, generatedName: string, io: IoOutcome)
    requires Valid(rooms)
    ensures var once := UpdateRoom(rooms, roomId, description, roomType, roomPrice, None, generatedName, io).0;
      UpdateRoom(once, roomId, description, roomType, roomPrice, None, generatedName, io).0 == once
  {
    var once := UpdateRoom(rooms, roomId, description, roomType, roomPrice, None, generatedName, io).0;
    var twice := UpdateRoom(once, roomId, description, roomType, roomPrice, None, generatedName, io).0;
    if roomId in rooms.rows {
      assert twice.rows == once.rows;
    }
  }

  /**
   * Because the photo is stored before the lookup and the service's own
   * exception is mapped to 404, a rejected photo reports "Room not found"
   * for a room that exists, and leaves it unchanged.
   */
  lemma RejectedPhotoReportsMissingRoom(rooms: Table<Room>, roomId: int, base: string, e: string, size: nat,
                                        generatedName: string, io: IoOutcome)
    requires Valid(rooms) && roomId in rooms.rows
    requires '.' !in e && size > 0 && Lower(e) !in AllowedExtensions
    ensures var out := UpdateRoom(rooms, roomId, None, None, None, Some(Upload(Some(base + "." + e), size)), generatedName, io);
      out.0 == rooms && out.1 == Reply(404, "Room not found")
  {
    ExtensionOfNamedFile(base, e);
    LowerIdempotent(e);
  }

  /**
   * The same holds for an image the file system fails to write: "Fail to
   * save image" is the service's own exception too, so an existing room is
   * reported missing and left unchanged.
   */
  lemma FailedPhotoWriteReportsMissingRoom(rooms: Table<Room>, roomId: int, base: string, e: string, size: nat,
                                           generatedName: string, message: string)
    requires Valid(rooms) && roomId in rooms.rows
    requires '.' !in e && size > 0 && Lower(e) in AllowedExtensions
    ensures var out := UpdateRoom(rooms, roomId, None, None, None, Some(Upload(Some(base + "." + e), size)), generatedName, IoFailed(message));
      out.0 == rooms && out.1 == Reply(404, "Room not found")
  {
    ExtensionOfNamedFile(base, e);
    LowerIdempotent(e);
  }
}
