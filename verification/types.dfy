/** The constrained scalar types every record of the trip planner uses
    (money, coordinates, ratings, currency codes, URLs and clock times). */
module Types {
  import opened Wrappers
  import opened Text

  /** `NonNegMoney`: a non-negative amount. */
  predicate IsNonNegMoney(x: real) {
    x >= 0.0
  }

  /** `Lat`: a latitude in degrees. */
  predicate IsLat(x: real) {
    -90.0 <= x <= 90.0
  }

  /** `Lon`: a longitude in degrees. */
  predicate IsLon(x: real) {
    -180.0 <= x <= 180.0
  }

  /** `Rating`: a review score. */
  predicate IsRating(x: real) {
    0.0 <= x <= 5.0
  }

  /** `ISO4217`: the pattern `^[A-Z]{3}$`, checked without stripping. */
  predicate IsIso4217(s: string) {
    |s| == 3 && All(s, IsUpper)
  }

  /** The characters `\w` (ASCII letters, digits, underscore) plus `- . / % ? # = &`. */
  predicate IsUrlChar(c: char) {
    || ('a' <= c <= 'z') || ('A' <= c <= 'Z') || IsDigit(c) || c == '_'
    || c == '-' || c == '.' || c == '/' || c == '%' || c == '?' || c == '#' || c == '=' || c == '&'
  }

  /** The pattern `^https?://[\w\-./%?#=&]+$` on an already stripped string. */
  predicate UrlPattern(t: string) {
    || (StartsWith(t, "http://") && |t| > 7 && All(t[7..], IsUrlChar))
    || (StartsWith(t, "https://") && |t| > 8 && All(t[8..], IsUrlChar))
  }

  /** `HttpURLStr`: trims surrounding whitespace, then checks the URL pattern;
      the stored value is the trimmed string. */
  function ValidateUrl(s: string): (r: Option<string>)
    ensures r.Some? <==> UrlPattern(Trim(s))
    ensures r.Some? ==> r.value == Trim(s) && !IsSpace(r.value[0])
  {
    var t := Trim(s);
    if UrlPattern(t) then UrlHead(t); Some(t) else None
  }

  /** A matching URL starts with the `h` of its scheme, so not with whitespace. */
  lemma UrlHead(t: string)
    requires UrlPattern(t)
    ensures t != [] && !IsSpace(t[0])
  {
    assert t[0] == "http"[0];
  }

  /** The pattern `^(?:[01]\d|2[0-3]):[0-5]\d$` on an already stripped string. */
  predicate TimePattern(t: string) {
    && |t| == 5
    && ((t[0] in "01" && IsDigit(t[1])) || (t[0] == '2' && '0' <= t[1] <= '3'))
    && t[2] == ':'
    && '0' <= t[3] <= '5'
    && IsDigit(t[4])
  }

  /** `TimeHHMM`: trims surrounding whitespace, then checks the clock pattern. */
  function ValidateTime(s: string): (r: Option<string>)
    ensures r.Some? <==> TimePattern(Trim(s))
    ensures r.Some? ==> r.value == Trim(s)
  {
    var t := Trim(s);
    if TimePattern(t) then Some(t) else None
  }

  /** The trim keeps a leading information separator (U+001C to U+001F), which Python's
      `str.strip` would remove, so a value that starts with one is refused by both validators. */
  lemma SeparatorRefused(s: string)
    requires s != [] && '\U{001C}' <= s[0] <= '\U{001F}'
    ensures ValidateUrl(s) == None && ValidateTime(s) == None
    ensures Strip(s) != s
  {
    TrimKeepsHead(s);
    var t := Trim(s);
    assert t[0] != 'h' && t[0] !in "012";
    assert !UrlPattern(t) && !TimePattern(t);
    assert IsSpace(s[0]);
  }

  /** A string that does not start with trimmed whitespace keeps its first character. */
  lemma TrimKeepsHead(s: string)
    requires s != [] && !IsTrimSpace(s[0])
    ensures Trim(s) != [] && Trim(s)[0] == s[0]
  {
    var l := LStripBy(s, IsTrimSpace);
    assert l == s;
    assert !IsTrimSpace(s[0]);
  }

  /** Two decimal digits with a leading zero, as a clock face shows `n`. */
  function TwoDigits(n: nat): (r: string)
    requires n < 100
  {
    [('0' as int + n / 10) as char, ('0' as int + n % 10) as char]
  }

  /** The clock reading `h:m` written as `HH:MM`. */
  function ClockText(h: nat, m: nat): string
    requires h < 100 && m < 100
  {
    TwoDigits(h) + ":" + TwoDigits(m)
  }

  /** The time pattern accepts exactly the readings of a 24-hour clock: every accepted string
      is `HH:MM` for an hour below 24 and a minute below 60, and every such reading is accepted. */
  lemma TimePatternIsClock(t: string)
    ensures TimePattern(t) <==> exists h: nat, m: nat :: h < 24 && m < 60 && t == ClockText(h, m)
  {
    if TimePattern(t) {
      var h := DigitPair(t[0], t[1]);
      var m := DigitPair(t[3], t[4]);
      assert h == 10 * (h / 10) + h % 10 && m == 10 * (m / 10) + m % 10;
      assert h < 24 && m < 60;
      assert t == ClockText(h, m);
    }
    if exists h: nat, m: nat :: h < 24 && m < 60 && t == ClockText(h, m) {
      var h: nat, m: nat :| h < 24 && m < 60 && t == ClockText(h, m);
      ClockTextMatches(h, m);
    }
  }

  /** Two decimal digits read as a number below 100 that `TwoDigits` writes back. */
  lemma DigitPair(a: char, b: char) returns (n: nat)
    requires IsDigit(a) && IsDigit(b)
    ensures n < 100 && TwoDigits(n) == [a, b]
    ensures n / 10 == a as int - '0' as int && n % 10 == b as int - '0' as int
  {
    n := (a as int - '0' as int) * 10 + (b as int - '0' as int);
  }

  /** Every reading of a 24-hour clock matches the time pattern. */
  lemma ClockTextMatches(h: nat, m: nat)
    requires h < 24 && m < 60
    ensures TimePattern(ClockText(h, m))
  {
    var t := ClockText(h, m);
    assert t[0] == ('0' as int + h / 10) as char && t[1] == ('0' as int + h % 10) as char;
    assert t[3] == ('0' as int + m / 10) as char && t[4] == ('0' as int + m % 10) as char;
    assert h / 10 == 2 ==> h % 10 <= 3;
  }
}
