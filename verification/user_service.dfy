/**
 * The user service of the backend over the user table: registration,
 * login, deletion and the lookups by id (given as text, as in the request
 * path) and by e-mail. Password encoding, authentication and token
 * generation are outside the model; their outcomes are parameters.
 */
module UserService {
  import opened Common
  import opened Text
  import opened Entities

  datatype Response = Response(
    statusCode: int,
    message: Option<string>,
    user: Option<User>,
    token: Option<string>,
    role: Option<string>,
    expirationTime: Option<string>,
    bookingList: Option<seq<Booking>>)

  function Reply(statusCode: int, message: string): Response {
    Response(statusCode, Some(message), None, None, None, None, None)
  }

  /** Users are stored under their own id. */
  predicate Valid(users: Table<User>) {
    users.Valid() && forall k :: k in users.rows ==> users.rows[k].id == k
  }

  const NotFound := "User Not Found"
  const LookupError := "Error getting all users "

  // ------------------------------------------------------------ by e-mail

  /**
   * `existsByEmail`. Derived queries compare a missing e-mail with `is
   * null`, so `None` matches users without an e-mail.
   */
  predicate EmailTaken(users: Table<User>, email: Option<string>) {
    exists k :: k in users.rows && users.rows[k].email == email
  }

  /** `findByEmail`: the keys of the users with that e-mail, from the newest down. */
  function WithEmail(users: Table<User>, email: Option<string>): (r: seq<int>)
    requires Valid(users)
    ensures forall k :: k in r <==> k in users.rows && users.rows[k].email == email
    ensures forall i, j :: 0 <= i < j < |r| ==> r[i] > r[j]
    ensures !EmailTaken(users, email) ==> r == []
  {
    KeysWhere(users, (u: User) => u.email == email, users.nextId)
  }

  /** The existence check and the lookup agree. */
  lemma EmailTakenIffFound(users: Table<User>, email: Option<string>)
    requires Valid(users)
    ensures EmailTaken(users, email) <==> WithEmail(users, email) != []
  {
    if EmailTaken(users, email) {
      var k :| k in users.rows && users.rows[k].email == email;
      assert k in WithEmail(users, email);
    }
  }

  /** `k` is the only user carrying the e-mail. */
  predicate OnlyHolder(users: Table<User>, email: Option<string>, k: int) {
    k in users.rows && users.rows[k].email == email
    && forall j :: j in users.rows && users.rows[j].email == email ==> j == k
  }

  /** Exactly one user carries the e-mail. */
  ghost predicate StoredOnce(users: Table<User>, email: Option<string>) {
    exists k :: OnlyHolder(users, email, k)
  }

  /** `findByEmail` finds a single key exactly when one user carries the e-mail. */
  lemma OneMatchIffStoredOnce(users: Table<User>, email: Option<string>)
    requires Valid(users)
    ensures |WithEmail(users, email)| == 1 <==> StoredOnce(users, email)
  {
    var m := WithEmail(users, email);
    if |m| == 1 {
      assert m == [m[0]];
      assert m[0] in m;
      assert OnlyHolder(users, email, m[0]);
    }
    if StoredOnce(users, email) {
      var k :| OnlyHolder(users, email, k);
      assert k in m;
      assert |m| < 2 || m[0] > m[1];
      forall i | 0 <= i < |m| ensures m[i] == k {
        assert m[i] in m;
      }
    }
  }

  // ---------------------------------------------------------- registration

  /** The role a registration stores: "USER" unless a non-blank role is given. */
  function EffectiveRole(role: Option<string>): (r: Option<string>)
    ensures r.Some? && !IsBlank(r.value)
    ensures role.Some? && !IsBlank(role.value) ==> r == role
    ensures role.None? || IsBlank(role.value) ==> r == Some("USER")
  {
    if role.None? || IsBlank(role.value) then
      assert !IsJavaSpace("USER"[0]);
      Some("USER")
    else role
  }

  /**
   * `register`. An e-mail that is already registered answers 400 with
   * "<email> is already registered". Otherwise the password is encoded
   * (`encoded` is the encoder's outcome; a failure answers 500) and the user
   * is stored under a fresh id with its effective role and the encoded
   * password; the answer is 200 with that user and no message.
   */
  function Register(users: Table<User>, user: User, encoded: Result<string, string>): (out: (Table<User>, Response))
    requires Valid(users)
    ensures Valid(out.0)
    ensures out.1.statusCode != 200 ==> out.0 == users
    ensures EmailTaken(users, user.email) ==>
      out.1 == Reply(400, JavaText(user.email) + " is already registered")
    ensures !EmailTaken(users, user.email) && encoded.Err? ==>
      out.1 == Reply(500, "Error Occurred During User Registration " + encoded.error)
    ensures out.1.statusCode == 200 <==> !EmailTaken(users, user.email) && encoded.Ok?
    ensures out.1.statusCode == 200 ==>
      var saved := user.(id := users.nextId, role := EffectiveRole(user.role), password := Some(encoded.value));
      users.nextId !in users.rows
      && out.0.rows == users.rows[users.nextId := saved]
      && out.1 == Response(200, None, Some(saved), None, None, None, None)
  {
    var role := EffectiveRole(user.role);
    if EmailTaken(users, user.email) then
      (users, Reply(400, JavaText(user.email) + " is already registered"))
    else if encoded.Err? then
      (users, Reply(500, "Error Occurred During User Registration " + encoded.error))
    else
      var saved := user.(id := users.nextId, role := role, password := Some(encoded.value));
      (users.Add(saved), Response(200, None, Some(saved), None, None, None, None))
  }

  /** A second registration with the same e-mail is refused and stores nothing. */
  lemma SecondRegistrationRefused(users: Table<User>, first: User, second: User,
                                  encoded1: Result<string, string>, encoded2: Result<string, string>)
    requires Valid(users)
    requires Register(users, first, encoded1).1.statusCode == 200
    requires second.email == first.email
    ensures var users1 := Register(users, first, encoded1).0;
      Register(users1, second, encoded2) == (users1, Reply(400, JavaText(first.email) + " is already registered"))
  {
    var users1 := Register(users, first, encoded1).0;
    assert users1.rows[users.nextId].email == first.email;
  }

  // ---------------------------------------------------------------- login

  /** Outcome of the authentication manager: success, or the failure's message. */
  datatype AuthOutcome = Authenticated | AuthFailed(message: string)

  /**
   * `login`: a failed authentication answers 500; then the user is looked up
   * by e-mail: none is 404 "User Not Found", several is 500, and exactly one
   * is 200 with `token`, the user's role, the expiry "7 Days" and a message.
   */
  function Login(users: Table<User>, email: Option<string>, auth: AuthOutcome, token: string): (r: Response)
    requires Valid(users)
    ensures r.statusCode in {200, 404, 500}
    ensures auth.AuthFailed? ==> r == Reply(500, "Error Occurred During User Login " + auth.message)
    ensures auth.Authenticated? && !EmailTaken(users, email) ==> r == Reply(404, NotFound)
    ensures auth.Authenticated? ==> (r.statusCode == 404 <==> !EmailTaken(users, email))
    ensures auth.Authenticated? ==> (r.statusCode == 200 <==> StoredOnce(users, email))
    ensures r.statusCode == 200 ==>
      auth.Authenticated?
      && (exists k :: k in users.rows && users.rows[k].email == email
            && (forall j :: j in users.rows && users.rows[j].email == email ==> j == k)
            && r == Response(200, Some("Successfully logged in"), None, Some(token), users.rows[k].role, Some("7 Days"), None))
    ensures auth.Authenticated? && r.statusCode == 500 ==>
      exists j, k :: j in users.rows && k in users.rows && j != k && users.rows[j].email == email && users.rows[k].email == email
  {
    if auth.AuthFailed? then
      Reply(500, "Error Occurred During User Login " + auth.message)
    else
      OneMatchIffStoredOnce(users, email);
      var matches := WithEmail(users, email);
      if |matches| == 0 then
        Reply(404, NotFound)
      else if |matches| == 1 then
        assert matches == [matches[0]];
        Response(200, Some("Successfully logged in"), None, Some(token), users.rows[matches[0]].role, Some("7 Days"), None)
      else
        assert matches[0] in matches && matches[1] in matches;
        Reply(500, "Error Occurred During User Login ")
  }

  /**
   * A user who has just registered can log in: the answer is 200 with the
   * token and the role the registration stored.
   */
  lemma RegisteredUserLogsIn(users: Table<User>, user: User, encoded: Result<string, string>, token: string)
    requires Valid(users)
    requires Register(users, user, encoded).1.statusCode == 200
    ensures Login(Register(users, user, encoded).0, user.email, Authenticated, token)
      == Response(200, Some("Successfully logged in"), None, Some(token), EffectiveRole(user.role), Some("7 Days"), None)
  {
    var users1 := Register(users, user, encoded).0;
    var k := users.nextId;
    assert users1.rows[k].email == user.email;
    assert !EmailTaken(users, user.email);
    assert OnlyHolder(users1, user.email, k);
    OneMatchIffStoredOnce(users1, user.email);
  }

  // --------------------------------------------------------- lookup by id

  /** The result of `findById(Long.valueOf(userId))`: the key, or the error answer. */
  datatype Lookup = Found(key: int) | Failed(response: Response)

  /**
   * A user id that is not a decimal long fails with a number-format error
   * and answers 500, not 404; a well-formed id that is not stored answers
   * 404 "User Not Found".
   */
  function LookupUser(users: Table<User>, userId: string): (r: Lookup)
    ensures ParseLong(userId).None? ==> r == Failed(Reply(500, LookupError + NumberFormatMessage(userId)))
    ensures ParseLong(userId).Some? && ParseLong(userId).value !in users.rows ==> r == Failed(Reply(404, NotFound))
    ensures r.Found? <==> ParseLong(userId).Some? && ParseLong(userId).value in users.rows
    ensures r.Found? ==> r.key == ParseLong(userId).value
  {
    match ParseLong(userId)
    case None => Failed(Reply(500, LookupError + NumberFormatMessage(userId)))
    case Some(id) => if id in users.rows then Found(id) else Failed(Reply(404, NotFound))
  }

  /** `deleteUser`: the lookup's error answer and no change, or exactly that user removed and 200. */
  function DeleteUser(users: Table<User>, userId: string): (out: (Table<User>, Response))
    requires Valid(users)
    ensures Valid(out.0) && out.0.nextId == users.nextId
    ensures LookupUser(users, userId).Failed? ==> out == (users, LookupUser(users, userId).response)
    ensures LookupUser(users, userId).Found? ==>
      var key := LookupUser(users, userId).key;
      out.0.rows.Keys == users.rows.Keys - {key}
      && (forall k :: k in out.0.rows ==> out.0.rows[k] == users.rows[k])
      && out.1 == Reply(200, "Successfully deleted user")
  {
    match LookupUser(users, userId)
    case Failed(response) => (users, response)
    case Found(key) => (users.Remove(key), Reply(200, "Successfully deleted user"))
  }

  /** `getUserById`: the lookup's error answer, or 200 with the stored user. */
  function GetUserById(users: Table<User>, userId: string): (r: Response)
    ensures LookupUser(users, userId).Failed? ==> r == LookupUser(users, userId).response
    ensures LookupUser(users, userId).Found? ==>
      var key := LookupUser(users, userId).key;
      key in users.rows
      && r == Response(200, Some("Successfully retrieved user"), Some(users.rows[key]), None, None, None, None)
  {
    match LookupUser(users, userId)
    case Failed(response) => response
    case Found(key) => Response(200, Some("Successfully retrieved user"), Some(users.rows[key]), None, None, None, None)
  }

  /** The stored bookings made by the user stored under `key`, newest first. */
  function BookingsOf(bookings: Table<Booking>, key: int): (list: seq<Booking>)
    requires bookings.Valid()
    ensures forall b :: b in list ==> b in bookings.rows.Values && b.userId == Some(key)
    ensures forall k :: k in bookings.rows && bookings.rows[k].userId == Some(key) ==> bookings.rows[k] in list
  {
    RowsWhere(bookings, (b: Booking) => b.userId == Some(key))
  }

  /**
   * `getUserBookingHistory`: the lookup's error answer, or 200 with the user
   * and exactly the stored bookings made by that user.
   */
  function GetUserBookingHistory(h: Hotel, userId: string): (r: Response)
    requires Valid(h.users) && h.bookings.Valid()
    ensures LookupUser(h.users, userId).Failed? ==> r == LookupUser(h.users, userId).response
    ensures LookupUser(h.users, userId).Found? ==>
      var key := LookupUser(h.users, userId).key;
      key in h.users.rows
      && r.statusCode == 200 && r.message == Some("Successfully retrieved user bookings")
      && r.user == Some(h.users.rows[key]) && r.bookingList.Some?
      && (forall b :: b in r.bookingList.value ==> b in h.bookings.rows.Values && b.userId == Some(key))
      && (forall k :: k in h.bookings.rows && h.bookings.rows[k].userId == Some(key) ==>
            h.bookings.rows[k] in r.bookingList.value)
  {
    match LookupUser(h.users, userId)
    case Failed(response) => response
    case Found(key) =>
      var list := BookingsOf(h.bookings, key);
      Response(200, Some("Successfully retrieved user bookings"), Some(h.users.rows[key]), None, None, None, Some(list))
  }

  /**
   * `getMyInfo`: the user with the signed-in e-mail. None is 404 "User Not
   * Found", exactly one is 200 with that user, several is 500.
   */
  function GetMyInfo(users: Table<User>, email: string): (r: Response)
    requires Valid(users)
    ensures r.statusCode in {200, 404, 500}
    ensures r.statusCode == 404 <==> !EmailTaken(users, Some(email))
    ensures r.statusCode == 404 ==> r == Reply(404, NotFound)
    ensures r.statusCode == 200 ==>
      r.message == Some("Successfully retrieved user") && r.user.Some?
      && r.user.value.id in users.rows && users.rows[r.user.value.id] == r.user.value
      && r.user.value.email == Some(email)
      && forall k :: k in users.rows && users.rows[k].email == Some(email) ==> k == r.user.value.id
    ensures r.statusCode == 500 ==>
      exists j, k :: j in users.rows && k in users.rows && j != k
        && users.rows[j].email == Some(email) && users.rows[k].email == Some(email)
  {
    var matches := WithEmail(users, Some(email));
    EmailTakenIffFound(users, Some(email));
    if |matches| == 0 then
      Reply(404, NotFound)
    else if |matches| == 1 then
      assert matches == [matches[0]];
      Response(200, Some("Successfully retrieved user"), Some(users.rows[matches[0]]), None, None, None, None)
    else
      assert matches[0] in matches && matches[1] in matches;
      Reply(500, LookupError)
  }

  // -------------------------------------------------------------- lemmas

  /** A user just registered with an e-mail finds its own record through `getMyInfo`. */
  lemma RegisteredUserFindsOwnInfo(users: Table<User>, user: User, encoded: Result<string, string>, email: string)
    requires Valid(users)
    requires user.email == Some(email)
    requires Register(users, user, encoded).1.statusCode == 200
    ensures var out := Register(users, user, encoded);
      GetMyInfo(out.0, email).statusCode == 200 && GetMyInfo(out.0, email).user == out.1.user
  {
    var users1 := Register(users, user, encoded).0;
    KeysWhereSingle(users1, (u: User) => u.email == Some(email), users1.nextId, users.nextId);
  }

  /** A user just registered is found, and deleted, through the decimal text of its id. */
  lemma RegisterThenDeleteById(users: Table<User>, user: User, encoded: Result<string, string>)
    requires Valid(users) && users.nextId <= LongMax
    requires Register(users, user, encoded).1.statusCode == 200
    ensures var users1 := Register(users, user, encoded).0;
      GetUserById(users1, IntToString(users.nextId)).user == Register(users, user, encoded).1.user
      && DeleteUser(users1, IntToString(users.nextId)).0.rows == users.rows
      && DeleteUser(users1, IntToString(users.nextId)).1.statusCode == 200
  {
    ParseLongIntToString(users.nextId);
    var users1 := Register(users, user, encoded).0;
    assert users1.rows - {users.nextId} == users.rows;
  }

  /**
   * A user id that is not a number answers 500 from deletion, lookup and
   * booking history alike, whatever the store holds.
   */
  lemma NonNumericIdIsServerError(h: Hotel)
    requires Valid(h.users) && h.bookings.Valid()
    ensures DeleteUser(h.users, "abc").1.statusCode == 500
    ensures GetUserById(h.users, "abc").statusCode == 500
    ensures GetUserBookingHistory(h, "abc").statusCode == 500
  {
    assert !IsDigit("abc"[0]);
  }
}
