/**
 * The login and registration forms: the checks on each field, when a form
 * is sent, what is kept in the browser after a login, and the message
 * shown when a registration fails.
 */
module Auth {
  import opened Common
  import opened Text
  import SiteUtils
  import UserService
  import Entities

  /** The outcome of one field's check: valid, or the message shown under the field. */
  datatype FieldCheck = Valid | Invalid(message: string)

  // ------------------------------------------------------------------ login

  /** `validateEmailField` (and `validateRegEmailField`): the trimmed text must be given and be an email address. */
  function CheckEmail(raw: string): (c: FieldCheck)
    ensures c == Valid <==> SiteUtils.ValidateEmail(Trim(raw))
    ensures Trim(raw) == "" ==> c == Invalid("Email is required")
    ensures Trim(raw) != "" && !SiteUtils.ValidateEmail(Trim(raw)) ==> c == Invalid("Please enter a valid email address")
  {
    var email := Trim(raw);
    if email == "" then Invalid("Email is required")
    else if !SiteUtils.ValidateEmail(email) then Invalid("Please enter a valid email address")
    else Valid
  }

  /** `validatePasswordField`: the password must not be empty. */
  function CheckLoginPassword(password: string): (c: FieldCheck)
    ensures c == Valid <==> password != ""
    ensures c.Invalid? ==> c.message == "Password is required"
  {
    if password == "" then Invalid("Password is required") else Valid
  }

  /** What the login form sends: the trimmed email and the password as typed. */
  datatype LoginData = LoginData(email: string, password: string)

  /**
   * `handleLogin` before the request: both fields are checked, and the form
   * is sent only when both pass.
   */
  function SubmitLogin(rawEmail: string, password: string): (r: Result<LoginData, string>)
    ensures r.Ok? <==> SiteUtils.MatchesEmailPattern(Trim(rawEmail)) && password != ""
    ensures r.Ok? ==> r.value == LoginData(Trim(rawEmail), password)
    ensures r.Err? ==> r.error == "Please fill in all required fields correctly"
  {
    if CheckEmail(rawEmail) != Valid || CheckLoginPassword(password) != Valid then
      Err("Please fill in all required fields correctly")
    else Ok(LoginData(Trim(rawEmail), password))
  }

  /** The answer of the login request. */
  datatype LoginResponse = LoginResponse(
    statusCode: int,
    token: Option<string>,
    role: Option<string>,
    expirationTime: Option<string>,
    message: Option<string>)

  /** The answer of the profile request. */
  datatype ProfileResponse = ProfileResponse(statusCode: int, user: Option<SiteUtils.StoredUser>)

  /**
   * The user kept after a login: the profile with its role and expiry
   * replaced by those of the login answer; or, when the profile request
   * failed or gave no user, a record of only the role, the expiry, the
   * email and, after a registration, the name.
   */
  function StoredUserAfterLogin(response: LoginResponse, profile: Option<ProfileResponse>, email: string,
                                name: Option<string>): (u: SiteUtils.StoredUser)
    ensures u.role == response.role && u.expirationTime == response.expirationTime
    ensures profile.Some? && profile.value.statusCode == 200 && profile.value.user.Some? ==>
      u.(role := profile.value.user.value.role, expirationTime := profile.value.user.value.expirationTime)
        == profile.value.user.value
    ensures !(profile.Some? && profile.value.statusCode == 200 && profile.value.user.Some?) ==>
      u == SiteUtils.StoredUser(None, name, Some(email), None, response.role, response.expirationTime)
  {
    if profile.Some? && profile.value.statusCode == 200 && profile.value.user.Some? then
      profile.value.user.value.(role := response.role, expirationTime := response.expirationTime)
    else
      SiteUtils.StoredUser(None, name, Some(email), None, response.role, response.expirationTime)
  }

  /**
   * The rest of `handleLogin`: a 200 answer with a token keeps the token and
   * the user; any other answer fails with its message, or "Login failed".
   */
  function HandleLoginResponse(data: LoginData, response: LoginResponse, profile: Option<ProfileResponse>)
    : (r: Result<(string, SiteUtils.StoredUser), string>)
    ensures r.Ok? <==> response.statusCode == 200 && response.token.Some? && response.token.value != ""
    ensures r.Ok? ==> r.value.0 == response.token.value
    ensures r.Err? ==> r.error == OrElse(response.message, "Login failed") && r.error != ""
  {
    if response.statusCode == 200 && response.token.Some? && response.token.value != "" then
      Ok((response.token.value, StoredUserAfterLogin(response, profile, data.email, None)))
    else
      Err(OrElse(response.message, "Login failed"))
  }

  /**
   * After a successful login the site counts the visitor as logged in, and
   * as an administrator exactly when the login answer's role is "ADMIN",
   * whatever the profile said.
   */
  lemma LoginDecidesAdmin(data: LoginData, response: LoginResponse, profile: Option<ProfileResponse>)
    requires HandleLoginResponse(data, response, profile).Ok?
    ensures var (token, user) := HandleLoginResponse(data, response, profile).value;
      SiteUtils.IsLoggedIn(Some(token))
      && (SiteUtils.IsAdmin(Some(user)) <==> response.role == Some("ADMIN"))
  {
  }

  // ----------------------------------------------------------- registration

  /** `validateRegFullNameField`: the trimmed name must be given and have at least two characters. */
  function CheckFullName(raw: string): (c: FieldCheck)
    ensures c == Valid <==> |Trim(raw)| >= 2
    ensures Trim(raw) == "" ==> c == Invalid("Full name is required")
    ensures |Trim(raw)| == 1 ==> c == Invalid("Name must be at least 2 characters")
  {
    var name := Trim(raw);
    if name == "" then Invalid("Full name is required")
    else if |name| < 2 then Invalid("Name must be at least 2 characters")
    else Valid
  }

  /** `validateRegPhoneField`: the trimmed number must be given and have at least six characters, of any kind. */
  function CheckPhone(raw: string): (c: FieldCheck)
    ensures c == Valid <==> |Trim(raw)| >= 6
    ensures Trim(raw) == "" ==> c == Invalid("Phone number is required")
    ensures 0 < |Trim(raw)| < 6 ==> c == Invalid("Please enter a valid phone number")
  {
    var phone := Trim(raw);
    if phone == "" then Invalid("Phone number is required")
    else if |phone| < 6 then Invalid("Please enter a valid phone number")
    else Valid
  }

  const MinRegistrationPasswordLength: nat := 3

  /** `validateRegPasswordField`: the password must be given and have at least three characters. */
  function CheckPassword(password: string): (c: FieldCheck)
    ensures c == Valid <==> |password| >= MinRegistrationPasswordLength
    ensures password == "" ==> c == Invalid("Password is required")
    ensures 0 < |password| < 3 ==> c == Invalid("Password must be at least 3 characters")
  {
    if password == "" then Invalid("Password is required")
    else if |password| < 3 then Invalid("Password must be at least 3 characters")
    else Valid
  }

  /** `validateRegConfirmPasswordField`: the confirmation must be given and equal the password. */
  function CheckConfirmation(password: string, confirmation: string): (c: FieldCheck)
    ensures c == Valid <==> confirmation != "" && confirmation == password
    ensures confirmation == "" ==> c == Invalid("Please confirm your password")
    ensures confirmation != "" && confirmation != password ==> c == Invalid("Passwords do not match")
  {
    if confirmation == "" then Invalid("Please confirm your password")
    else if password != confirmation then Invalid("Passwords do not match")
    else Valid
  }

  /** `validateRegTermsField`: the terms must be accepted; the box is only marked, with no message. */
  function CheckTerms(agreed: bool): (c: FieldCheck)
    ensures c == Valid <==> agreed
  {
    if agreed then Valid else Invalid("")
  }

  datatype RegisterForm = RegisterForm(fullName: string, email: string, phone: string, password: string,
                                       confirmation: string, agreed: bool)

  /** What the registration form sends: name, email and phone trimmed, the password as typed. */
  datatype RegisterData = RegisterData(name: string, email: string, phoneNumber: string, password: string)

  /** Every field's check, in the order of the form. */
  datatype RegistrationChecks = RegistrationChecks(
    fullName: FieldCheck, email: FieldCheck, phone: FieldCheck,
    password: FieldCheck, confirmation: FieldCheck, terms: FieldCheck)
  {
    predicate AllValid() {
      fullName == Valid && email == Valid && phone == Valid
      && password == Valid && confirmation == Valid && terms == Valid
    }
  }

  /** All six checks are run, so every field shows its state, even after one has failed. */
  function CheckRegistration(f: RegisterForm): (cs: RegistrationChecks)
    ensures cs.AllValid() <==>
      |Trim(f.fullName)| >= 2 && SiteUtils.MatchesEmailPattern(Trim(f.email)) && |Trim(f.phone)| >= 6
      && |f.password| >= 3 && f.confirmation == f.password && f.agreed
  {
    RegistrationChecks(CheckFullName(f.fullName), CheckEmail(f.email), CheckPhone(f.phone),
                       CheckPassword(f.password), CheckConfirmation(f.password, f.confirmation), CheckTerms(f.agreed))
  }

  /**
   * `handleRegister` before the request: the form is sent only when all six
   * checks pass.
   */
  function SubmitRegistration(f: RegisterForm): (r: Result<RegisterData, string>)
    ensures r.Ok? <==> CheckRegistration(f).AllValid()
    ensures r.Ok? ==> r.value == RegisterData(Trim(f.fullName), Trim(f.email), Trim(f.phone), f.password)
    ensures r.Err? ==> r.error == "Please complete all required fields"
  {
    if CheckRegistration(f).AllValid() then
      Ok(RegisterData(Trim(f.fullName), Trim(f.email), Trim(f.phone), f.password))
    else
      Err("Please complete all required fields")
  }

  /**
   * Registration asks less of a password than the site's own validator: a
   * password of three to five characters is sent, though the validator
   * refuses it; every password the validator accepts is sent.
   */
  lemma RegistrationAcceptsShortPasswords(password: string)
    ensures SiteUtils.ValidatePassword(password) ==> CheckPassword(password) == Valid
    ensures 3 <= |password| < 6 ==> CheckPassword(password) == Valid && !SiteUtils.ValidatePassword(password)
  {
  }

  /**
   * Registration does not use the site's phone validator: six or more
   * characters that do not start with a digit or `+` pass its check though
   * the validator refuses them, and a number of up to five digits the
   * validator accepts is refused.
   */
  lemma PhoneCheckIgnoresPhonePattern(phone: string)
    requires phone != [] && !IsJsSpace(phone[0]) && !IsJsSpace(phone[|phone| - 1])
    ensures |phone| >= 6 && !IsDigit(phone[0]) && phone[0] != '+' ==>
      CheckPhone(phone) == Valid && !SiteUtils.ValidatePhoneNumber(phone)
    ensures SiteUtils.ValidatePhoneNumber(phone) && |phone| < 6 ==> CheckPhone(phone) != Valid
  {
    TrimKeepsTrimmed(phone);
  }

  const AlreadyRegisteredMessage := "This email is already registered. Please use a different email or login."

  /**
   * The message of a failed registration: the fixed text when the error
   * mentions "already registered", otherwise the error's own message, or a
   * fixed text when it is empty.
   */
  function RegistrationErrorMessage(errorMessage: string): (m: string)
    ensures Contains(errorMessage, "already registered") ==> m == AlreadyRegisteredMessage
    ensures !Contains(errorMessage, "already registered") && errorMessage != "" ==> m == errorMessage
    ensures errorMessage == "" ==> m == "Registration failed. Please try again."
  {
    if Contains(errorMessage, "already registered") then AlreadyRegisteredMessage
    else if errorMessage != "" then errorMessage
    else "Registration failed. Please try again."
  }

  /**
   * An answer that is not a success is raised with its message, or
   * "Registration failed", and that error's message is then shown through
   * the mapping above.
   */
  function FailedRegistrationMessage(responseMessage: Option<string>): (m: string)
    ensures m != ""
    ensures responseMessage.Some? && Contains(responseMessage.value, "already registered") ==> m == AlreadyRegisteredMessage
    ensures responseMessage.None? || responseMessage.value == "" ==> m == "Registration failed"
    ensures responseMessage.Some? && responseMessage.value != "" && !Contains(responseMessage.value, "already registered") ==>
      m == responseMessage.value
  {
    DefaultFailureIsNotDuplicate();
    RegistrationErrorMessage(OrElse(responseMessage, "Registration failed"))
  }

  /** The default failure text does not itself read as a duplicate email. */
  lemma DefaultFailureIsNotDuplicate()
    ensures !Contains("Registration failed", "already registered")
  {
    var s := "Registration failed";
    assert s[0] == 'R' && s[1] == 'e';
    NoStartNoOccurrence(s, "already registered");
  }

  /** How a request fails in the request helper: an answer with an error status, or no answer at all. */
  datatype RequestFailure = ErrorStatus(message: Option<string>) | NoAnswer

  /**
   * The error the request helper raises: the answer's message, or "An error
   * occurred" when it has none; "Network error occurred" when no answer came.
   */
  function RequestErrorMessage(f: RequestFailure): (m: string)
    ensures m != ""
    ensures f.NoAnswer? ==> m == "Network error occurred"
    ensures f.ErrorStatus? && f.message.Some? && f.message.value != "" ==> m == f.message.value
    ensures f.ErrorStatus? && (f.message.None? || f.message.value == "") ==> m == "An error occurred"
  {
    match f
    case NoAnswer => "Network error occurred"
    case ErrorStatus(message) => OrElse(message, "An error occurred")
  }

  /** A registration that gets no answer shows the helper's network error as it is. */
  lemma NetworkErrorIsShown()
    ensures RegistrationErrorMessage(RequestErrorMessage(NoAnswer)) == "Network error occurred"
  {
    var s := "Network error occurred";
    assert s[0] == 'N' && s[1] == 'e' && s[2] == 't' && s[3] == 'w' && s[4] == 'o';
    NoStartNoOccurrence(s, "already registered");
  }

  /** "already registered" stands at the end of the server's refusal of a duplicate email. */
  lemma ServerRefusalMentionsAlreadyRegistered(email: string)
    ensures Contains(email + " is already registered", "already registered")
  {
    var s := email + " is already registered";
    assert s[|email| + 4..|email| + 4 + |"already registered"|] == "already registered";
    assert OccursAt(s, "already registered", |email| + 4);
  }

  /**
   * When the server refuses a duplicate email, whatever the address, the
   * page shows the fixed "already registered" text rather than the
   * server's message.
   */
  lemma DuplicateEmailShowsFixedMessage(users: Entities.Table<Entities.User>, user: Entities.User,
                                        encoded: Result<string, string>)
    requires UserService.Valid(users) && UserService.Register(users, user, encoded).1.statusCode == 400
    ensures FailedRegistrationMessage(UserService.Register(users, user, encoded).1.message) == AlreadyRegisteredMessage
  {
    ServerRefusalMentionsAlreadyRegistered(JavaText(user.email));
  }
}
