/**
 * The helpers every page shares: whether someone is logged in and is an
 * administrator, the relative path back to the site's root, and the form
 * validators. The two regular expressions are given a declarative reading
 * (how the text splits into the pattern's parts) and a scanning check, and
 * the two are proved to agree.
 */
module SiteUtils {
  import opened Common
  import opened Text

  /** The user record kept in the browser after login. */
  datatype StoredUser = StoredUser(
    id: Option<int>,
    name: Option<string>,
    email: Option<string>,
    phoneNumber: Option<string>,
    role: Option<string>,
    expirationTime: Option<string>)

  /** `isLoggedIn`: a token is stored and it is not empty. */
  function IsLoggedIn(token: Option<string>): (b: bool)
    ensures b <==> token.Some? && |token.value| > 0
  {
    token.Some? && token.value != ""
  }

  /** `isAdmin`: a user is stored and their role is exactly "ADMIN". */
  function IsAdmin(user: Option<StoredUser>): (b: bool)
    ensures b <==> user.Some? && user.value.role == Some("ADMIN")
  {
    user.Some? && user.value.role == Some("ADMIN")
  }

  /** `getBasePath`: pages in the auth, user and admin folders are one level down. */
  function GetBasePath(path: string): (base: string)
    ensures base == "../" <==> Contains(path, "/auth/") || Contains(path, "/user/") || Contains(path, "/admin/")
    ensures base == "" || base == "../"
  {
    if Contains(path, "/auth/") then "../"
    else if Contains(path, "/user/") then "../"
    else if Contains(path, "/admin/") then "../"
    else ""
  }

  // ------------------------------------------------------------------ email

  /** A character the class `[^\s@]` admits. */
  predicate EmailChar(c: char) {
    c != '@' && !IsJsSpace(c)
  }

  /** `s[lo..hi]` is a non-empty run of `[^\s@]`. */
  predicate EmailPart(s: string, lo: int, hi: int)
    requires 0 <= lo <= hi <= |s|
  {
    lo < hi && forall j :: lo <= j < hi ==> EmailChar(s[j])
  }

  /** `s` reads as `[^\s@]+ @ [^\s@]+ \. [^\s@]+` with the `@` at `at` and the dot at `dot`. */
  predicate EmailSplit(s: string, at: int, dot: int) {
    0 <= at && at + 1 < dot && dot + 1 < |s|
    && s[at] == '@' && s[dot] == '.'
    && EmailPart(s, 0, at) && EmailPart(s, at + 1, dot) && EmailPart(s, dot + 1, |s|)
  }

  /** The text matches `^[^\s@]+@[^\s@]+\.[^\s@]+$`. */
  ghost predicate MatchesEmailPattern(s: string) {
    exists at, dot :: EmailSplit(s, at, dot)
  }

  /**
   * The scanning check: no white space, a first `@` that is not the first
   * character, no other `@`, and a dot after it that is neither the first
   * nor the last character of what follows it.
   */
  predicate EmailScan(s: string) {
    var at := IndexOf(s, '@');
    (forall j :: 0 <= j < |s| ==> !IsJsSpace(s[j]))
    && at >= 1
    && '@' !in s[at + 1..]
    && |s| - at - 1 >= 3
    && '.' in s[at + 2..|s| - 1]
  }

  lemma ScanFindsSplit(s: string)
    requires EmailScan(s)
    ensures MatchesEmailPattern(s)
  {
    var at := IndexOf(s, '@');
    var mid := s[at + 2..|s| - 1];
    var j := IndexOf(mid, '.');
    var dot := at + 2 + j;
    assert s[dot] == mid[j];
    forall k | 0 <= k < at ensures EmailChar(s[k]) {
      assert s[k] in s[..at];
    }
    forall k | at + 1 <= k < |s| ensures EmailChar(s[k]) {
      assert s[k] == s[at + 1..][k - at - 1];
    }
    assert EmailSplit(s, at, dot);
  }

  lemma SplitPassesScan(s: string, at: int, dot: int)
    requires EmailSplit(s, at, dot)
    ensures EmailScan(s)
  {
    forall j | 0 <= j < |s| ensures !IsJsSpace(s[j]) {
      if j != at && j != dot {
        assert EmailChar(s[j]);
      }
    }
    assert '@' !in s[..at] by {
      forall k | 0 <= k < at ensures s[..at][k] != '@' {
        assert EmailChar(s[k]);
      }
    }
    forall k | at + 1 <= k < |s| ensures s[k] != '@' {
      if k != dot {
        assert EmailChar(s[k]);
      }
    }
    var rest := s[at + 1..];
    assert forall k :: 0 <= k < |rest| ==> rest[k] == s[at + 1 + k];
    assert s[at + 2..|s| - 1][dot - at - 2] == '.';
  }

  /** The scan accepts exactly the texts the pattern matches. */
  lemma ScanIffPattern(s: string)
    ensures EmailScan(s) <==> MatchesEmailPattern(s)
  {
    if EmailScan(s) {
      ScanFindsSplit(s);
    }
    if MatchesEmailPattern(s) {
      var at, dot :| EmailSplit(s, at, dot);
      SplitPassesScan(s, at, dot);
    }
  }

  /** `validateEmail`: the text matches the email pattern, read as the scan above. */
  function ValidateEmail(email: string): (ok: bool)
    ensures ok <==> MatchesEmailPattern(email)
  {
    ScanIffPattern(email);
    EmailScan(email)
  }

  /** A typical address passes. */
  lemma PlainAddressPasses()
    ensures ValidateEmail("guest@hotel.com")
  {
    assert EmailSplit("guest@hotel.com", 5, 11);
  }

  /** An address with two `@` fails, wherever they stand. */
  lemma SecondAtFails(s: string, i: int, j: int)
    requires 0 <= i < j < |s| && s[i] == '@' && s[j] == '@'
    ensures !ValidateEmail(s)
  {
    var at := IndexOf(s, '@');
    assert s[at + 1..][j - at - 1] == '@';
  }

  /** An address without a dot fails. */
  lemma MissingDotFails(s: string)
    requires '.' !in s
    ensures !ValidateEmail(s)
  {
  }

  /** The first occurrence is where `c` stands with no `c` before it. */
  lemma FirstIndexIs(s: string, c: char, i: int)
    requires 0 <= i < |s| && s[i] == c && c !in s[..i]
    ensures IndexOf(s, c) == i
  {
  }

  // --------------------------------------------------------------- password

  const MinPasswordLength: nat := 6

  /** `validatePassword`: at least six characters. */
  function ValidatePassword(password: string): (ok: bool)
    ensures ok <==> |password| >= MinPasswordLength
  {
    |password| >= 6
  }

  /** `validateRequired`: a value is given and is not only white space. */
  function ValidateRequired(value: Option<string>): (ok: bool)
    ensures ok <==> value.Some? && exists j :: 0 <= j < |value.value| && !IsJsSpace(value.value[j])
  {
    value.Some? && |Trim(value.value)| > 0
  }

  // ------------------------------------------------------------------ phone

  /** `s[p..]` is a digit 1-9 followed by up to fifteen digits. */
  predicate PhoneDigitsFrom(s: string, p: nat) {
    p < |s| && |s| - p <= 16 && '1' <= s[p] <= '9' && forall j :: p < j < |s| ==> IsDigit(s[j])
  }

  /** The text matches `^[\+]?[1-9][\d]{0,15}$`: an optional `+`, then the digits. */
  predicate MatchesPhonePattern(s: string) {
    PhoneDigitsFrom(s, 0) || (|s| > 0 && s[0] == '+' && PhoneDigitsFrom(s, 1))
  }

  /** `validatePhoneNumber`, read as a scan that skips a leading `+`. */
  function ValidatePhoneNumber(phone: string): (ok: bool)
    ensures ok <==> MatchesPhonePattern(phone)
    ensures ok ==> 1 <= |phone| <= 17
  {
    var start := if |phone| > 0 && phone[0] == '+' then 1 else 0;
    var body := phone[start..];
    var ok := 1 <= |body| <= 16 && '1' <= body[0] <= '9' && AllDigits(body[1..]);
    assert ok ==> PhoneDigitsFrom(phone, start) by {
      if ok {
        forall j | start < j < |phone| ensures IsDigit(phone[j]) {
          assert phone[j] == body[1..][j - start - 1];
        }
      }
    }
    assert PhoneDigitsFrom(phone, start) ==> ok by {
      if PhoneDigitsFrom(phone, start) {
        forall j | 0 <= j < |body| - 1 ensures IsDigit(body[1..][j]) {
          assert body[1..][j] == phone[start + 1 + j];
        }
      }
    }
    ok
  }

  /** A leading `+` and up to sixteen digits pass; a leading 0, a seventeenth digit or a dash do not. */
  lemma PhoneExamples()
    ensures ValidatePhoneNumber("+84912345678")
    ensures !ValidatePhoneNumber("0912345678")
    ensures !ValidatePhoneNumber("12345678901234567")
    ensures !ValidatePhoneNumber("555-1234")
  {
    assert !IsDigit("555-1234"[3]);
  }
}
