/**
 * String operations the Java services and the browser scripts rely on:
 * case mapping, substring search, trimming, truncation and decimal
 * conversion. Strings are sequences of characters.
 */
module Text {
  import opened Common

  // ---------------------------------------------------------------- case

  /**
   * The one-to-one part of Unicode's lower-case mapping, as `toLowerCase`
   * in Java and JavaScript applies it, for the capitals of the Basic Latin,
   * Latin-1, Latin Extended-A, Greek and Coptic, Cyrillic, Cyrillic
   * Supplement and Armenian blocks; every other character is left as it
   * is. Final sigma, which depends on the letters around it, is read as
   * `σ` everywhere.
   */
  function LowerChar(c: char): char {
    var n := c as int;
    if 'A' <= c <= 'Z' then (n + 32) as char
    // À to Þ, except the multiplication sign
    else if 0xC0 <= n <= 0xDE && n != 0xD7 then (n + 32) as char
    // Latin Extended-A pairs with the capital first; İ (U+0130) lower-cases to two characters
    else if (0x100 <= n <= 0x12F || 0x132 <= n <= 0x137 || 0x14A <= n <= 0x177) && n % 2 == 0 then (n + 1) as char
    else if (0x139 <= n <= 0x148 || 0x179 <= n <= 0x17E) && n % 2 == 1 then (n + 1) as char
    else if n == 0x178 then 0xFF as char
    // Greek Α to Ϋ, the accented capitals, and the pairs of the Greek and Coptic block
    else if 0x391 <= n <= 0x3AB && n != 0x3A2 then (n + 32) as char
    else if n == 0x386 then 0x3AC as char
    else if 0x388 <= n <= 0x38A then (n + 37) as char
    else if n == 0x38C then 0x3CC as char
    else if n == 0x38E || n == 0x38F then (n + 63) as char
    else if (n == 0x370 || n == 0x372 || n == 0x376 || 0x3D8 <= n <= 0x3EE || n == 0x3FA) && n % 2 == 0 then (n + 1) as char
    else if n == 0x3F7 then 0x3F8 as char
    else if n == 0x37F then 0x3F3 as char
    else if n == 0x3CF then 0x3D7 as char
    else if n == 0x3F4 then 0x3B8 as char
    else if n == 0x3F9 then 0x3F2 as char
    else if 0x3FD <= n <= 0x3FF then (n - 130) as char
    // Cyrillic А to Я, Ѐ to Џ, and the pairs from Ѡ to the end of the Cyrillic Supplement
    else if 0x410 <= n <= 0x42F then (n + 32) as char
    else if 0x400 <= n <= 0x40F then (n + 80) as char
    else if (0x460 <= n <= 0x480 || 0x48A <= n <= 0x4BE || 0x4D0 <= n <= 0x52E) && n % 2 == 0 then (n + 1) as char
    else if 0x4C1 <= n <= 0x4CD && n % 2 == 1 then (n + 1) as char
    else if n == 0x4C0 then 0x4CF as char
    // Armenian Ա to Ֆ
    else if 0x531 <= n <= 0x556 then (n + 48) as char
    else c
  }

  /** Capitals are mapped to their small letters: `'É'` to `'é'`, `'Ж'` to `'ж'`. */
  lemma LowerCharExamples()
    ensures LowerChar('Q') == 'q' && LowerChar('É') == 'é' && LowerChar('Ł') == 'ł'
    ensures LowerChar('Σ') == 'σ' && LowerChar('Ж') == 'ж' && LowerChar('Ё') == 'ё'
    ensures LowerChar('Ґ') == 'ґ' && LowerChar('Ә') == 'ә' && LowerChar('Ϙ') == 'ϙ' && LowerChar('Ά') == 'ά' && LowerChar('Ա') == 'ա'
    ensures LowerChar('é') == 'é' && LowerChar('×') == '×' && LowerChar('.') == '.'
  {
  }

  function Lower(s: string): string {
    seq(|s|, i requires 0 <= i < |s| => LowerChar(s[i]))
  }

  lemma LowerIdempotent(s: string)
    ensures Lower(Lower(s)) == Lower(s)
  {
  }

  // ------------------------------------------------------------ searching

  /** `sub` occurs in `s` starting at index `i`. */
  predicate OccursAt(s: string, sub: string, i: int) {
    0 <= i && i + |sub| <= |s| && s[i..i + |sub|] == sub
  }

  lemma OccursInTail(s: string, sub: string)
    requires |s| > 0
    ensures (exists i :: OccursAt(s, sub, i)) <==> OccursAt(s, sub, 0) || exists j :: OccursAt(s[1..], sub, j)
  {
    forall j | OccursAt(s[1..], sub, j)
      ensures OccursAt(s, sub, j + 1)
    {
      assert s[1..][j..j + |sub|] == s[j + 1..j + 1 + |sub|];
    }
    forall i | OccursAt(s, sub, i) && i > 0
      ensures OccursAt(s[1..], sub, i - 1)
    {
      assert s[1..][i - 1..i - 1 + |sub|] == s[i..i + |sub|];
    }
  }

  /**
   * JavaScript `includes` and Java `contains`, computed by trying every
   * start position from the left.
   */
  function Contains(s: string, sub: string): (b: bool)
    ensures b <==> exists i :: OccursAt(s, sub, i)
    decreases |s|
  {
    if |sub| <= |s| && s[..|sub|] == sub then
      assert OccursAt(s, sub, 0);
      true
    else if s == [] then
      false
    else
      OccursInTail(s, sub);
      Contains(s[1..], sub)
  }

  /** A text cannot contain `sub` when no position early enough to start it holds its first character. */
  lemma NoStartNoOccurrence(s: string, sub: string)
    requires sub != [] && forall i :: 0 <= i <= |s| - |sub| ==> s[i] != sub[0]
    ensures !Contains(s, sub)
  {
    forall i | 0 <= i && i + |sub| <= |s| ensures !OccursAt(s, sub, i) {
      assert s[i..i + |sub|][0] == s[i];
    }
  }

  /** The index of the first `c` in `s`, or -1: JavaScript's `indexOf` for one character. */
  function IndexOf(s: string, c: char): (r: int)
    ensures -1 <= r < |s|
    ensures r == -1 <==> c !in s
    ensures r >= 0 ==> s[r] == c && c !in s[..r]
    ensures forall k :: 0 <= k < |s| && s[k] == c ==> 0 <= r <= k
  {
    if s == [] then -1
    else if s[0] == c then 0
    else
      var k := IndexOf(s[1..], c);
      assert s == [s[0]] + s[1..];
      assert forall m :: 0 < m < |s| ==> s[m] == s[1..][m - 1];
      if k == -1 then -1
      else
        assert s[..k + 1] == [s[0]] + s[1..][..k];
        k + 1
  }

  /** The index of the last `c` in `s`, or -1: Java's `lastIndexOf(char)`. */
  function LastIndexOf(s: string, c: char): (r: int)
    ensures -1 <= r < |s|
    ensures r == -1 <==> c !in s
    ensures r >= 0 ==> s[r] == c && c !in s[r + 1..]
  {
    if s == [] then -1
    else if s[|s| - 1] == c then |s| - 1
    else
      assert s == s[..|s| - 1] + [s[|s| - 1]];
      LastIndexOf(s[..|s| - 1], c)
  }

  // ------------------------------------------------------------- ordering

  /**
   * Lexicographic order by character code: the model's stand-in for
   * `localeCompare(...) <= 0`.
   */
  predicate LexLe(a: string, b: string) {
    a == [] || (b != [] && (a[0] < b[0] || (a[0] == b[0] && LexLe(a[1..], b[1..]))))
  }

  lemma {:induction false} LexLeTotal(a: string, b: string)
    ensures LexLe(a, b) || LexLe(b, a)
  {
    if a != [] && b != [] && a[0] == b[0] {
      LexLeTotal(a[1..], b[1..]);
    }
  }

  lemma {:induction false} LexLeTransitive(a: string, b: string, c: string)
    requires LexLe(a, b) && LexLe(b, c)
    ensures LexLe(a, c)
  {
    if a != [] && b != [] && c != [] && a[0] == b[0] && b[0] == c[0] {
      LexLeTransitive(a[1..], b[1..], c[1..]);
    }
  }

  // ---------------------------------------------------------- white space

  /** White space as JavaScript's `trim` and the regular-expression class `\s` see it. */
  predicate IsJsSpace(c: char) {
    c in {' ', '\t', '\n', '\r', '\U{000B}', '\U{000C}', '\U{00A0}', '\U{1680}',
          '\U{2028}', '\U{2029}', '\U{202F}', '\U{205F}', '\U{3000}', '\U{FEFF}'}
    || '\U{2000}' <= c <= '\U{200A}'
  }

  /** White space as Java's `Character.isWhitespace` (used by `String.isBlank`) sees it. */
  predicate IsJavaSpace(c: char) {
    c in {' ', '\t', '\n', '\r', '\U{000B}', '\U{000C}', '\U{001C}', '\U{001D}',
          '\U{001E}', '\U{001F}', '\U{1680}', '\U{2028}', '\U{2029}', '\U{205F}', '\U{3000}'}
    || ('\U{2000}' <= c <= '\U{200A}' && c != '\U{2007}')
  }

  /** Java's `String.isBlank`. */
  predicate IsBlank(s: string) {
    forall i :: 0 <= i < |s| ==> IsJavaSpace(s[i])
  }

  /** Length of the run of JavaScript white space at the start of `s`. */
  function LeadingSpaces(s: string): (k: nat)
    ensures k <= |s|
    ensures forall i :: 0 <= i < k ==> IsJsSpace(s[i])
    ensures k < |s| ==> !IsJsSpace(s[k])
  {
    if s == [] || !IsJsSpace(s[0]) then 0 else 1 + LeadingSpaces(s[1..])
  }

  /** Length of the run of JavaScript white space at the end of `s`. */
  function TrailingSpaces(s: string): (k: nat)
    ensures k <= |s|
    ensures forall i :: |s| - k <= i < |s| ==> IsJsSpace(s[i])
    ensures k < |s| ==> !IsJsSpace(s[|s| - k - 1])
  {
    if s == [] || !IsJsSpace(s[|s| - 1]) then 0 else 1 + TrailingSpaces(s[..|s| - 1])
  }

  /**
   * JavaScript `trim`: `s` with its leading and trailing white space removed.
   * The result is a slice of `s`, starts and ends with a non-space
   * character, and is empty exactly when `s` is all white space.
   */
  function Trim(s: string): (r: string)
    ensures Contains(s, r)
    ensures r != [] ==> !IsJsSpace(r[0]) && !IsJsSpace(r[|r| - 1])
    ensures r == [] <==> forall i :: 0 <= i < |s| ==> IsJsSpace(s[i])
  {
    var a := LeadingSpaces(s);
    var t := s[a..];
    var b := TrailingSpaces(t);
    var r := t[..|t| - b];
    assert s[a..a + |r|] == r;
    assert OccursAt(s, r, a);
    assert r == [] ==> a == |s|;
    assert a == |s| ==> r == [];
    r
  }

  lemma {:induction false} TrimKeepsTrimmed(s: string)
    requires s == [] || (!IsJsSpace(s[0]) && !IsJsSpace(s[|s| - 1]))
    ensures Trim(s) == s
  {
    if s != [] {
      assert LeadingSpaces(s) == 0;
      assert TrailingSpaces(s) == 0;
    }
  }

  // ------------------------------------------------------------ JavaScript

  /** JavaScript `value || fallback` for a string that may be missing: an empty string is falsy too. */
  function OrElse(value: Option<string>, fallback: string): (r: string)
    ensures value.Some? && value.value != "" ==> r == value.value
    ensures value.None? || value.value == "" ==> r == fallback
  {
    if value.Some? && value.value != "" then value.value else fallback
  }

  /** JavaScript `text.length > limit ? text.substring(0, limit) + '...' : text`. */
  function Truncate(s: string, limit: nat): (r: string)
    ensures |s| <= limit ==> r == s
    ensures |s| > limit ==> |r| == limit + 3 && r[..limit] == s[..limit] && r[limit..] == "..."
  {
    if |s| > limit then s[..limit] + "..." else s
  }

  /**
   * `value && value.length > limit ? value.substring(0, limit) + '...' : value || fallback`:
   * a long text cut short, a missing or empty one replaced.
   */
  function ShortText(value: Option<string>, limit: nat, fallback: string): (r: string)
    ensures value.Some? && |value.value| > limit ==> r == value.value[..limit] + "..."
    ensures value.Some? && 0 < |value.value| <= limit ==> r == value.value
    ensures value.None? || value.value == "" ==> r == fallback
  {
    if value.Some? && |value.value| > limit then Truncate(value.value, limit) else OrElse(value, fallback)
  }

  /** Java's string conversion of a reference that may be `null`. */
  function JavaText(value: Option<string>): string {
    if value.Some? then value.value else "null"
  }

  // ------------------------------------------------------- decimal numbers

  predicate IsDigit(c: char) {
    '0' <= c <= '9'
  }

  predicate AllDigits(s: string) {
    forall i :: 0 <= i < |s| ==> IsDigit(s[i])
  }

  function DigitChar(d: nat): char
    requires d < 10
  {
    ('0' as int + d) as char
  }

  /** The value of a string of decimal digits, most significant digit first. */
  function DecimalValue(ds: string): nat
    requires AllDigits(ds)
  {
    if ds == [] then 0 else DecimalValue(ds[..|ds| - 1]) * 10 + (ds[|ds| - 1] as int - '0' as int)
  }

  /** Shortest decimal text of `n`. */
  function NatToString(n: nat): (r: string)
    ensures |r| >= 1 && AllDigits(r)
    ensures DecimalValue(r) == n
    ensures |r| > 1 ==> r[0] != '0'
  {
    if n < 10 then [DigitChar(n)]
    else
      var r := NatToString(n / 10) + [DigitChar(n % 10)];
      assert r[..|r| - 1] == NatToString(n / 10);
      r
  }

  /** Java's `Long.toString`. */
  function IntToString(n: int): string {
    if n < 0 then "-" + NatToString(-n) else NatToString(n)
  }

  const LongMin: int := -0x8000_0000_0000_0000
  const LongMax: int := 0x7FFF_FFFF_FFFF_FFFF

  /**
   * Java's `Long.valueOf(String)`: an optional sign followed by at least one
   * decimal digit, within the 64-bit range; anything else is a
   * `NumberFormatException`, modelled as `None`.
   */
  function ParseLong(s: string): (r: Option<int>)
    ensures r.Some? ==> LongMin <= r.value <= LongMax
    ensures r.Some? ==> exists k :: 0 <= k <= 1 && k < |s| && AllDigits(s[k..])
  {
    if s == [] then None
    else
      var k := if s[0] == '-' || s[0] == '+' then 1 else 0;
      var digits := s[k..];
      if digits == [] || !AllDigits(digits) then None
      else
        var v: int := if s[0] == '-' then -(DecimalValue(digits) as int) else DecimalValue(digits);
        if LongMin <= v <= LongMax then Some(v) else None
  }

  /** The message of the `NumberFormatException` that `Long.valueOf(s)` throws. */
  function NumberFormatMessage(s: string): string {
    "For input string: \"" + s + "\""
  }

  /** Printing a long and reading it back gives the same number. */
  lemma ParseLongIntToString(n: int)
    requires LongMin <= n <= LongMax
    ensures ParseLong(IntToString(n)) == Some(n)
  {
    var t := IntToString(n);
    if n < 0 {
      assert t[1..] == NatToString(-n);
    } else {
      assert t[0..] == t;
    }
  }
}
