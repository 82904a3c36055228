/**
 * The persistent entities of the hotel backend and the id-keyed tables that
 * hold them. Nullable columns are `Option`s; ids are generated by an
 * identity counter, as the `IDENTITY` strategy of the `Booking` entity does.
 */
module Entities {
  import opened Common

  /** A Java `int`: 32-bit two's complement. */
  newtype Int32 = x: int | -0x8000_0000 <= x < 0x8000_0000

  predicate FitsInt32(x: int) {
    -0x8000_0000 <= x < 0x8000_0000
  }

  /**
   * Java `int` addition: the exact sum when it fits in 32 bits, and in every
   * case a value congruent to it modulo 2^32.
   */
  function Add32(a: Int32, b: Int32): (r: Int32)
    ensures FitsInt32(a as int + b as int) ==> r as int == a as int + b as int
    ensures (r as int - (a as int + b as int)) % 0x1_0000_0000 == 0
  {
    var s := (a as int + b as int) % 0x1_0000_0000;
    (if s >= 0x8000_0000 then s - 0x1_0000_0000 else s) as Int32
  }

  /** A room; every column but the id may be null. */
  datatype Room = Room(
    id: int,
    roomType: Option<string>,
    roomPrice: Option<real>,
    roomDescription: Option<string>,
    roomPhotoUrl: Option<string>)

  /** A registered account. `password` holds the encoded password. */
  datatype User = User(
    id: int,
    name: Option<string>,
    email: Option<string>,
    phoneNumber: Option<string>,
    password: Option<string>,
    role: Option<string>)

  /**
   * A booking. Dates are day numbers; the room and the user are referenced
   * by id and are absent until `saveBooking` attaches them.
   */
  datatype Booking = Booking(
    id: int,
    checkInDate: Option<int>,
    checkOutDate: Option<int>,
    numOfAdults: Int32,
    numOfChildren: Int32,
    totalNumOfGuest: Int32,
    bookingConfirmationCode: Option<string>,
    userId: Option<int>,
    roomId: Option<int>)

  /**
   * `calculateTotalNumOfGuests`, the callback run before every insert and
   * every update: only the total changes, and it becomes adults plus
   * children with Java's 32-bit wrap-around.
   */
  function CalculateTotalNumOfGuests(b: Booking): (r: Booking)
    ensures r.(totalNumOfGuest := b.totalNumOfGuest) == b
    ensures FitsInt32(b.numOfAdults as int + b.numOfChildren as int) ==>
      r.totalNumOfGuest as int == b.numOfAdults as int + b.numOfChildren as int
    ensures GuestTotalConsistent(r)
  {
    b.(totalNumOfGuest := Add32(b.numOfAdults, b.numOfChildren))
  }

  /** The total as the lifecycle callback leaves it. */
  predicate GuestTotalConsistent(b: Booking) {
    b.totalNumOfGuest == Add32(b.numOfAdults, b.numOfChildren)
  }

  /**
   * The Bean Validation constraints of the entity: a check-in date, a
   * check-out date that is absent or after `today`, at least one adult and
   * no negative number of children.
   */
  predicate SatisfiesConstraints(b: Booking, today: int) {
    b.checkInDate.Some?
    && (b.checkOutDate.None? || b.checkOutDate.value > today)
    && b.numOfAdults >= 1
    && b.numOfChildren >= 0
  }

  /** A booking that passes validation and went through the callback has at least one guest, unless the sum overflows. */
  lemma ValidBookingHasGuests(b: Booking, today: int)
    requires SatisfiesConstraints(b, today) && GuestTotalConsistent(b)
    ensures b.totalNumOfGuest >= 1 || b.numOfAdults as int + b.numOfChildren as int >= 0x8000_0000
  {
  }

  /** The callback does not guard against overflow: the largest valid adult count plus one child wraps to a negative total. */
  lemma GuestTotalWrapsAround()
    ensures CalculateTotalNumOfGuests(Booking(0, Some(0), None, 0x7FFF_FFFF, 1, 0, None, None, None)).totalNumOfGuest
      == -0x8000_0000
  {
  }

  /**
   * A table keyed by id. Keys are issued by the identity counter `nextId`,
   * which starts at 1 and only grows.
   */
  datatype Table<T> = Table(rows: map<int, T>, nextId: int) {
    predicate Valid() {
      nextId >= 1 && forall k :: k in rows ==> 1 <= k < nextId
    }

    /** Stores `v` under a fresh key, the one the counter issues next. */
    function Add(v: T): (t: Table<T>)
      requires Valid()
      ensures t.Valid()
      ensures nextId !in rows
      ensures t.rows == rows[nextId := v]
      ensures t.nextId > nextId
    {
      Table(rows[nextId := v], nextId + 1)
    }

    /** Deletes the row stored under `key`, if any. */
    function Remove(key: int): (t: Table<T>)
      requires Valid()
      ensures t.Valid()
      ensures t.rows == rows - {key}
      ensures t.nextId == nextId
    {
      Table(rows - {key}, nextId)
    }
  }

  /** The three tables of the hotel database. */
  datatype Hotel = Hotel(rooms: Table<Room>, users: Table<User>, bookings: Table<Booking>)

  /**
   * The keys of a table in descending order, as
   * `findAll(Sort.by(Sort.Direction.DESC, "id"))` returns the rows.
   */
  method KeysDescending<T>(t: Table<T>) returns (r: seq<int>)
    requires t.Valid()
    ensures forall i, j :: 0 <= i < j < |r| ==> r[i] > r[j]
    ensures forall k :: k in r <==> k in t.rows
  {
    r := [];
    var i := t.nextId - 1;
    while i >= 1
      invariant 0 <= i < t.nextId
      invariant forall k :: k in r <==> k in t.rows && k > i
      invariant forall j, l :: 0 <= j < l < |r| ==> r[j] > r[l]
      invariant forall j :: 0 <= j < |r| ==> r[j] > i
      decreases i
    {
      if i in t.rows {
        r := r + [i];
      }
      i := i - 1;
    }
  }

  /**
   * The keys below `below` whose rows satisfy `p`, from the largest down: the
   * rows a derived repository query such as `findByEmail` matches.
   */
  function KeysWhere<T>(t: Table<T>, p: T -> bool, below: int): (r: seq<int>)
    requires t.Valid()
    ensures forall i, j :: 0 <= i < j < |r| ==> r[i] > r[j]
    ensures forall k :: k in r <==> k < below && k in t.rows && p(t.rows[k])
    ensures (forall k :: k < below && k in t.rows ==> !p(t.rows[k])) ==> r == []
    decreases below
  {
    if below <= 1 then []
    else
      var rest := KeysWhere(t, p, below - 1);
      assert forall j :: 0 <= j < |rest| ==> rest[j] < below - 1 by {
        forall j | 0 <= j < |rest|
          ensures rest[j] < below - 1
        {
          assert rest[j] in rest;
        }
      }
      if below - 1 in t.rows && p(t.rows[below - 1]) then [below - 1] + rest else rest
  }

  /** The rows stored under the keys `ks`, in the order of the keys. */
  function RowsAt<T>(t: Table<T>, ks: seq<int>): (r: seq<T>)
    requires forall i :: 0 <= i < |ks| ==> ks[i] in t.rows
    ensures |r| == |ks|
    ensures forall i :: 0 <= i < |r| ==> r[i] == t.rows[ks[i]]
  {
    if ks == [] then [] else [t.rows[ks[0]]] + RowsAt(t, ks[1..])
  }

  /** The rows that satisfy `p`, newest first: each one is stored and satisfies `p`, and none is missed. */
  function RowsWhere<T(==)>(t: Table<T>, p: T -> bool): (r: seq<T>)
    requires t.Valid()
    ensures forall v :: v in r ==> v in t.rows.Values && p(v)
    ensures forall k :: k in t.rows && p(t.rows[k]) ==> t.rows[k] in r
  {
    var ks := KeysWhere(t, p, t.nextId);
    assert forall i :: 0 <= i < |ks| ==> ks[i] in t.rows && p(t.rows[ks[i]]) by {
      forall i | 0 <= i < |ks|
        ensures ks[i] in t.rows && p(t.rows[ks[i]])
      {
        assert ks[i] in ks;
      }
    }
    var r := RowsAt(t, ks);
    forall k | k in t.rows && p(t.rows[k])
      ensures t.rows[k] in r
    {
      assert k in ks;
      var i :| 0 <= i < |ks| && ks[i] == k;
      assert r[i] == t.rows[k];
    }
    r
  }

  /** When exactly one row below `below` satisfies `p`, the query finds that key alone. */
  lemma {:induction false} KeysWhereSingle<T>(t: Table<T>, p: T -> bool, below: int, x: int)
    requires t.Valid()
    requires x < below && x in t.rows && p(t.rows[x])
    requires forall k :: k < below && k in t.rows && p(t.rows[k]) ==> k == x
    ensures KeysWhere(t, p, below) == [x]
    decreases below
  {
    if below - 1 != x {
      KeysWhereSingle(t, p, below - 1, x);
    }
  }
}
