/**
 * The events endpoints' reading of the query string: the search's is_online
 * text becomes true, false or absent, and the related-events limit defaults
 * to 4 and is otherwise read with JavaScript's parseInt.
 */
module EventsController {
  import opened Common
  import EventsService

  const DEFAULT_RELATED_LIMIT := 4

  /** The search endpoint's query string, every value as text. */
  datatype SearchQuery = SearchQuery(q: Option<string>, location: Option<string>, isOnline: Option<string>,
                                     startDate: Option<string>, endDate: Option<string>)

  /** "true" and "false" are booleans; anything else, absence included, is no value. */
  function ParseIsOnline(text: Option<string>): (r: Option<bool>)
    ensures r == Some(true) <==> text == Some("true")
    ensures r == Some(false) <==> text == Some("false")
    ensures r.None? <==> text != Some("true") && text != Some("false")
  {
    if text == Some("true") then Some(true)
    else if text == Some("false") then Some(false)
    else None
  }

  /** The parameters handed to the search: is_online parsed, the rest passed through. */
  function ToSearchParams(query: SearchQuery): (p: EventsService.SearchParams)
    ensures p.q == query.q && p.location == query.location
    ensures p.startDate == query.startDate && p.endDate == query.endDate
    ensures p.isOnline == ParseIsOnline(query.isOnline)
  {
    EventsService.SearchParams(query.q, query.location, ParseIsOnline(query.isOnline), query.startDate, query.endDate)
  }

  /** An is_online text other than "true" and "false" puts no online condition on the search. */
  lemma UnknownOnlineTextIsNoFilter(e: EventsService.Event, query: SearchQuery, cast: string -> int)
    requires query.isOnline != Some("true") && query.isOnline != Some("false")
    ensures EventsService.SearchMatches(e, ToSearchParams(query), cast) ==
            EventsService.SearchMatches(e, ToSearchParams(query.(isOnline := None)), cast)
  {
    var p := ToSearchParams(query);
    var p' := ToSearchParams(query.(isOnline := None));
    assert p == p';
  }

  /** The white space parseInt skips before a number: ECMAScript's WhiteSpace and LineTerminator. */
  predicate IsJsWhiteSpace(c: char)
  {
    var n := c as int;
    || 0x09 <= n <= 0x0D       // tab, line feed, vertical tab, form feed, carriage return
    || n == 0x20 || n == 0xA0 || n == 0x1680
    || 0x2000 <= n <= 0x200A   // the spaces of category Zs in that block
    || n == 0x2028 || n == 0x2029 || n == 0x202F || n == 0x205F || n == 0x3000
    || n == 0xFEFF
  }

  function SkipWhiteSpace(s: string): (r: string)
    ensures |r| <= |s| && r == s[|s| - |r|..]
    ensures r == [] || !IsJsWhiteSpace(r[0])
  {
    if s != [] && IsJsWhiteSpace(s[0]) then SkipWhiteSpace(s[1..]) else s
  }

  predicate IsHexDigit(c: char)
  {
    IsDigit(c) || 'a' <= c <= 'f' || 'A' <= c <= 'F'
  }

  function HexDigitValue(c: char): (d: nat)
    requires IsHexDigit(c)
    ensures d < 16
  {
    if IsDigit(c) then DigitValue(c)
    else if 'a' <= c <= 'f' then c as int - 'a' as int + 10
    else c as int - 'A' as int + 10
  }

  /** The longest run of decimal digits at the start of s. */
  function DecimalRun(s: string): (r: string)
    ensures |r| <= |s| && r == s[..|r|] && AllDigits(r)
    ensures |r| < |s| ==> !IsDigit(s[|r|])
  {
    if s != [] && IsDigit(s[0]) then [s[0]] + DecimalRun(s[1..]) else []
  }

  /** The longest run of hexadecimal digits at the start of s. */
  function HexRun(s: string): (r: string)
    ensures |r| <= |s| && r == s[..|r|] && forall i :: 0 <= i < |r| ==> IsHexDigit(r[i])
    ensures |r| < |s| ==> !IsHexDigit(s[|r|])
  {
    if s != [] && IsHexDigit(s[0]) then [s[0]] + HexRun(s[1..]) else []
  }

  function HexValue(s: string): nat
    requires forall i :: 0 <= i < |s| ==> IsHexDigit(s[i])
  {
    if s == [] then 0 else HexValue(s[..|s| - 1]) * 16 + HexDigitValue(s[|s| - 1])
  }

  predicate HasHexPrefix(s: string)
  {
    |s| >= 2 && s[0] == '0' && (s[1] == 'x' || s[1] == 'X')
  }

  /** The digits of an unsigned number: hexadecimal after "0x", decimal otherwise; None when there are none. */
  function ParseMagnitude(body: string): (m: Option<nat>)
  {
    if HasHexPrefix(body) then
      var digits := HexRun(body[2..]);
      if digits == [] then None else Some(HexValue(digits))
    else
      var digits := DecimalRun(body);
      if digits == [] then None else Some(DigitsValue(digits))
  }

  /**
   * JavaScript's parseInt with no radix: leading white space is skipped, one
   * sign is read, a "0x" prefix selects base 16, and the longest run of
   * digits is read; no digits at all gives NaN, written None.
   */
  function ParseInt(s: string): (r: Option<int>)
  {
    ParseSigned(SkipWhiteSpace(s))
  }

  /** parseInt after the white space: an optional sign, then the magnitude. */
  function ParseSigned(t: string): (r: Option<int>)
  {
    var sign := if t != [] && t[0] == '-' then -1 else 1;
    var body := if t != [] && (t[0] == '-' || t[0] == '+') then t[1..] else t;
    match ParseMagnitude(body)
    case None => None
    case Some(m) => Some(sign * m)
  }

  /** Reading a decimal text, possibly signed and followed by text that cannot continue it, gives its value. */
  lemma ParseIntDecimal(n: nat, negative: bool, rest: string)
    requires rest == [] || (!IsDigit(rest[0]) && (n == 0 ==> rest[0] != 'x' && rest[0] != 'X'))
    ensures ParseInt((if negative then "-" else "") + Decimal(n) + rest) == Some((if negative then -1 else 1) * n)
  {
    if negative {
      ParseNegativeDecimal(n, rest);
    } else {
      ParseUnsignedDecimal(n, rest);
    }
  }

  lemma ParseUnsignedDecimal(n: nat, rest: string)
    requires rest == [] || (!IsDigit(rest[0]) && (n == 0 ==> rest[0] != 'x' && rest[0] != 'X'))
    ensures ParseInt("" + Decimal(n) + rest) == Some(n)
  {
    var body := Decimal(n) + rest;
    MagnitudeOfDecimal(n, rest);
    assert "" + Decimal(n) + rest == body;
    ParseUnsigned(body, n);
  }

  lemma ParseUnsigned(body: string, m: nat)
    requires body != [] && IsDigit(body[0]) && ParseMagnitude(body) == Some(m)
    ensures ParseInt(body) == Some(m)
  {
    NoWhiteSpaceToSkip(body);
    assert ParseSigned(body) == Some(m);
  }

  lemma ParseNegativeDecimal(n: nat, rest: string)
    requires rest == [] || (!IsDigit(rest[0]) && (n == 0 ==> rest[0] != 'x' && rest[0] != 'X'))
    ensures ParseInt("-" + Decimal(n) + rest) == Some(-1 * n)
  {
    var body := Decimal(n) + rest;
    MagnitudeOfDecimal(n, rest);
    var s := "-" + body;
    assert "-" + Decimal(n) + rest == s;
    assert s[1..] == body;
    NoWhiteSpaceToSkip(s);
    assert ParseSigned(s) == Some(-1 * n);
  }

  lemma NoWhiteSpaceToSkip(t: string)
    requires t != [] && (IsDigit(t[0]) || t[0] == '-')
    ensures SkipWhiteSpace(t) == t
  {
    assert !IsJsWhiteSpace(t[0]);
  }

  lemma MagnitudeOfDecimal(n: nat, rest: string)
    requires rest == [] || (!IsDigit(rest[0]) && (n == 0 ==> rest[0] != 'x' && rest[0] != 'X'))
    ensures Decimal(n) + rest != [] && IsDigit((Decimal(n) + rest)[0])
    ensures ParseMagnitude(Decimal(n) + rest) == Some(n)
  {
    var d := Decimal(n);
    var body := d + rest;
    DecimalRoundTrip(n);
    assert body[0] == d[0];
    DecimalRunOfDigits(d, rest);
  }

  lemma {:induction false} DecimalRunOfDigits(d: string, rest: string)
    requires AllDigits(d)
    requires rest == [] || !IsDigit(rest[0])
    ensures DecimalRun(d + rest) == d
    decreases |d|
  {
    if d == [] {
      assert d + rest == rest;
    } else {
      assert (d + rest)[1..] == d[1..] + rest;
      DecimalRunOfDigits(d[1..], rest);
    }
  }

  /** Leading white space does not change what parseInt reads. */
  lemma {:induction false} ParseIntSkipsWhiteSpace(c: char, s: string)
    requires IsJsWhiteSpace(c)
    ensures ParseInt([c] + s) == ParseInt(s)
  {
    assert ([c] + s)[1..] == s;
    assert SkipWhiteSpace([c] + s) == SkipWhiteSpace(s);
  }

  /** `limit ? parseInt(limit) : 4`: absent or empty gives 4; None stands for NaN. */
  function RelatedLimit(limit: Option<string>): (r: Option<int>)
    ensures !Truthy(limit) ==> r == Some(DEFAULT_RELATED_LIMIT)
    ensures Truthy(limit) ==> r == ParseInt(limit.value)
  {
    if Truthy(limit) then ParseInt(limit.value) else Some(DEFAULT_RELATED_LIMIT)
  }

  /** A limit written in decimal is read as that number. */
  lemma RelatedLimitOfDecimal(n: nat)
    ensures RelatedLimit(Some(Decimal(n))) == Some(n)
  {
    ParseIntDecimal(n, false, "");
    assert "" + Decimal(n) + "" == Decimal(n);
  }
}
