/**
  `parseInt(text)` (radix 10) and the `parseInt(text) || fallback` idiom the
  server uses to read numbers that arrive as text: CSV cells and the
  `count(*)` / `sum(...)` columns of grouped queries.
*/
module Parsing {
  import opened Wrappers
  import opened Ascii

  /**
    The characters `parseInt` skips before the number: white space (tab,
    vertical tab, form feed, space, no-break space, the byte order mark and
    the other space separators) and line terminators.
  */
  predicate IsSpace(c: char) {
    c in {'\t', '\n', '\U{000B}', '\U{000C}', '\r', ' ', '\U{00A0}', '\U{1680}', '\U{2028}', '\U{2029}', '\U{202F}', '\U{205F}', '\U{3000}', '\U{FEFF}'}
    || '\U{2000}' <= c <= '\U{200A}'
  }

  function DigitValue(c: char): (d: nat)
    requires IsDigit(c)
    ensures d < 10
  {
    c as int - '0' as int
  }

  function DigitChar(d: nat): (c: char)
    requires d < 10
    ensures IsDigit(c) && DigitValue(c) == d
  {
    ('0' as int + d) as char
  }

  predicate AllDigits(s: string) {
    forall i :: 0 <= i < |s| ==> IsDigit(s[i])
  }

  /** The value of a string of decimal digits, most significant first. */
  function DigitsValue(s: string): nat
    requires AllDigits(s)
  {
    if s == [] then 0 else DigitsValue(s[..|s| - 1]) * 10 + DigitValue(s[|s| - 1])
  }

  function SkipSpaces(s: string): (r: string)
    ensures |r| <= |s|
    ensures r == [] || !IsSpace(r[0])
  {
    if s != [] && IsSpace(s[0]) then SkipSpaces(s[1..]) else s
  }

  /** The longest prefix of `s` made of decimal digits. */
  function LeadingDigits(s: string): (r: string)
    ensures AllDigits(r) && r <= s
    ensures |r| < |s| ==> !IsDigit(s[|r|])
  {
    if s != [] && IsDigit(s[0]) then [s[0]] + LeadingDigits(s[1..]) else []
  }

  /**
    `parseInt(text)`: leading white space is skipped, one optional sign is
    read, then the longest run of decimal digits; without a digit the result
    is NaN (`None`). An absent cell (`undefined`) is NaN too.
  */
  function ParseInt(text: Option<string>): (r: Option<int>)
  {
    match text
    case None => None
    case Some(s) =>
      var t := SkipSpaces(s);
      var negative := t != [] && t[0] == '-';
      var body := if t != [] && (t[0] == '-' || t[0] == '+') then t[1..] else t;
      var digits := LeadingDigits(body);
      if digits == [] then None
      else
        var magnitude: int := DigitsValue(digits);
        Some(if negative then -magnitude else magnitude)
  }

  /** `parseInt(text) || fallback`: NaN and 0 are both falsy, so both give the fallback. */
  function IntOr(parsed: Option<int>, fallback: int): (r: int)
    ensures parsed.Some? && parsed.value != 0 ==> r == parsed.value
    ensures parsed.None? || parsed.value == 0 ==> r == fallback
  {
    if parsed.Some? && parsed.value != 0 then parsed.value else fallback
  }

  /** The decimal rendering of a natural number, as a database driver sends a count. */
  function DecimalString(n: nat): (s: string)
    ensures AllDigits(s) && |s| > 0
    decreases n
  {
    if n < 10 then [DigitChar(n)] else DecimalString(n / 10) + [DigitChar(n % 10)]
  }

  lemma {:induction false} DecimalStringValue(n: nat)
    ensures DigitsValue(DecimalString(n)) == n
    decreases n
  {
    var s := DecimalString(n);
    if n >= 10 {
      DecimalStringValue(n / 10);
      assert s[..|s| - 1] == DecimalString(n / 10);
    }
  }

  lemma {:induction false} LeadingDigitsOfDigits(s: string)
    requires AllDigits(s)
    ensures LeadingDigits(s) == s
  {
    if s != [] {
      LeadingDigitsOfDigits(s[1..]);
    }
  }

  /** Round trip: `parseInt(String(n)) == n` for every natural number. */
  lemma ParseDecimalString(n: nat)
    ensures ParseInt(Some(DecimalString(n))) == Some(n)
  {
    var s := DecimalString(n);
    assert SkipSpaces(s) == s;
    LeadingDigitsOfDigits(s);
    DecimalStringValue(n);
  }

  /** A cell holding no digit at all reads as NaN, so `|| fallback` applies. */
  lemma NoDigitIsNaN(s: string)
    requires forall i :: 0 <= i < |s| ==> !IsDigit(s[i])
    ensures ParseInt(Some(s)) == None
  {
    var t := SkipSpaces(s);
    assert forall i :: 0 <= i < |t| ==> t[i] in s by {
      SkipSpacesSuffix(s);
    }
  }

  lemma {:induction false} SkipSpacesSuffix(s: string)
    ensures exists k :: 0 <= k <= |s| && SkipSpaces(s) == s[k..]
  {
    if s != [] && IsSpace(s[0]) {
      SkipSpacesSuffix(s[1..]);
      var k :| 0 <= k <= |s[1..]| && SkipSpaces(s[1..]) == s[1..][k..];
      assert s[1..][k..] == s[k + 1..];
    } else {
      assert s == s[0..];
    }
  }
}
