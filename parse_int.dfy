/**
 * `parseInt(s, 10)` as the ECMAScript 2015 language specification defines it
 * in section 18.2.5: skip leading white space, read an optional sign, then the
 * longest prefix of decimal digits; no digits at all gives NaN (here `None`).
 * The result is an unbounded integer; see README for what that leaves out.
 */
module JsParseInt {
  import opened Wrappers

  /** StrWhiteSpaceChar: WhiteSpace (TAB, VT, FF, SP, NBSP, ZWNBSP, category Zs)
      and LineTerminator (LF, CR, LS, PS). */
  predicate IsWhiteSpace(c: char) {
    c == '\t' || c == '\n' || c == '\r' || c == ' ' ||
    c == '\U{000B}' || c == '\U{000C}' || c == '\U{00A0}' || c == '\U{FEFF}' ||
    c == '\U{1680}' || ('\U{2000}' <= c <= '\U{200A}') ||
    c == '\U{2028}' || c == '\U{2029}' || c == '\U{202F}' || c == '\U{205F}' ||
    c == '\U{3000}'
  }

  predicate IsDigit(c: char) {
    '0' <= c <= '9'
  }

  function DigitValue(c: char): (d: nat)
    requires IsDigit(c)
    ensures d < 10
  {
    c as int - '0' as int
  }

  function DigitChar(d: nat): (c: char)
    requires d < 10
    ensures IsDigit(c) && DigitValue(c) == d
  {
    ('0' as int + d) as char
  }

  /** The number of white-space characters at the front of `s`. */
  function WhiteSpacePrefixLength(s: string): (k: nat)
    ensures k <= |s|
    ensures k < |s| ==> !IsWhiteSpace(s[k])
  {
    if |s| > 0 && IsWhiteSpace(s[0]) then 1 + WhiteSpacePrefixLength(s[1..]) else 0
  }

  /** The number of decimal digits at the front of `s`. */
  function DigitPrefixLength(s: string): (k: nat)
    ensures k <= |s|
    ensures forall i :: 0 <= i < k ==> IsDigit(s[i])
    ensures k < |s| ==> !IsDigit(s[k])
  {
    if |s| > 0 && IsDigit(s[0]) then 1 + DigitPrefixLength(s[1..]) else 0
  }

  /** The value of a string of decimal digits, most significant digit first. */
  function DigitsValue(ds: string): nat
    requires forall i :: 0 <= i < |ds| ==> IsDigit(ds[i])
  {
    if ds == [] then 0 else 10 * DigitsValue(ds[..|ds| - 1]) + DigitValue(ds[|ds| - 1])
  }

  /** What follows an optional leading sign. */
  function Unsigned(t: string): string {
    if |t| > 0 && (t[0] == '-' || t[0] == '+') then t[1..] else t
  }

  /** `parseInt(s, 10)`; `None` stands for NaN. */
  function ParseInt(s: string): Option<int> {
    var t := s[WhiteSpacePrefixLength(s)..];
    var body := Unsigned(t);
    var k := DigitPrefixLength(body);
    if k == 0 then None
    else
      var magnitude: int := DigitsValue(body[..k]);
      Some(if |t| > 0 && t[0] == '-' then -magnitude else magnitude)
  }

  /** The canonical decimal spelling of a natural number. */
  function NatToDecimal(n: nat): (s: string)
    ensures |s| > 0 && forall i :: 0 <= i < |s| ==> IsDigit(s[i])
  {
    if n < 10 then [DigitChar(n)] else NatToDecimal(n / 10) + [DigitChar(n % 10)]
  }

  /** The decimal spelling of an integer, with a leading '-' when negative. */
  function ToDecimal(n: int): (s: string)
    ensures |s| > 0
  {
    if n < 0 then "-" + NatToDecimal(-n) else NatToDecimal(n)
  }

  lemma {:induction false} NatToDecimalValue(n: nat)
    ensures DigitsValue(NatToDecimal(n)) == n
  {
    var s := NatToDecimal(n);
    if n >= 10 {
      NatToDecimalValue(n / 10);
      assert s[..|s| - 1] == NatToDecimal(n / 10);
    }
  }

  lemma {:induction false} DigitPrefixOfDigits(ds: string, rest: string)
    requires forall i :: 0 <= i < |ds| ==> IsDigit(ds[i])
    requires rest == [] || !IsDigit(rest[0])
    ensures DigitPrefixLength(ds + rest) == |ds|
  {
    if ds != [] {
      assert (ds + rest)[1..] == ds[1..] + rest;
      DigitPrefixOfDigits(ds[1..], rest);
    }
  }

  /** Digits followed by a non-digit (or nothing) read as their value. */
  lemma DigitsThenStop(n: nat, rest: string)
    requires rest == [] || !IsDigit(rest[0])
    ensures var body := NatToDecimal(n) + rest;
      DigitPrefixLength(body) == |NatToDecimal(n)| &&
      DigitsValue(body[..|NatToDecimal(n)|]) == n
  {
    var d := NatToDecimal(n);
    DigitPrefixOfDigits(d, rest);
    NatToDecimalValue(n);
    assert (d + rest)[..|d|] == d;
  }

  /** `ParseInt` on a string that starts neither with white space nor with a
      sign reads its leading digits. */
  lemma ParseIntUnsigned(n: nat, rest: string)
    requires rest == [] || !IsDigit(rest[0])
    ensures ParseInt(NatToDecimal(n) + rest) == Some(n)
  {
    var d := NatToDecimal(n);
    var s := d + rest;
    DigitsThenStop(n, rest);
    assert s[0] == d[0];
    assert WhiteSpacePrefixLength(s) == 0;
    assert s[0..] == s;
    assert Unsigned(s) == s;
  }

  /** As `ParseIntUnsigned`, after a minus sign. */
  lemma ParseIntNegative(n: nat, rest: string)
    requires rest == [] || !IsDigit(rest[0])
    ensures ParseInt("-" + NatToDecimal(n) + rest) == Some(-(n as int))
  {
    var d := NatToDecimal(n);
    var s := "-" + d + rest;
    DigitsThenStop(n, rest);
    assert s[0] == '-';
    assert WhiteSpacePrefixLength(s) == 0;
    assert s[0..] == s;
    assert Unsigned(s) == d + rest;
  }

  /** Reading stops at the first character that is not a digit: the decimal
      spelling of `n` followed by anything that does not start with a digit
      (`"12px"`, `"3 "`, or nothing at all) parses back to `n`. */
  lemma ParseIntOfDecimalPrefix(n: int, rest: string)
    requires rest == [] || !IsDigit(rest[0])
    ensures ParseInt(ToDecimal(n) + rest) == Some(n)
  {
    if n < 0 {
      ParseIntNegative(-n, rest);
    } else {
      ParseIntUnsigned(n, rest);
    }
  }

  /** The round trip: every integer's decimal spelling parses back to it. */
  lemma ParseIntRoundTrip(n: int)
    ensures ParseInt(ToDecimal(n)) == Some(n)
  {
    ParseIntOfDecimalPrefix(n, []);
    assert ToDecimal(n) + [] == ToDecimal(n);
  }

  /** Leading white space does not change the result. */
  lemma ParseIntSkipsWhiteSpace(ws: string, s: string)
    requires forall i :: 0 <= i < |ws| ==> IsWhiteSpace(ws[i])
    ensures ParseInt(ws + s) == ParseInt(s)
  {
    WhiteSpacePrefixSkips(ws, s);
    assert (ws + s)[|ws| + WhiteSpacePrefixLength(s)..] == s[WhiteSpacePrefixLength(s)..];
  }

  lemma {:induction false} WhiteSpacePrefixSkips(ws: string, s: string)
    requires forall i :: 0 <= i < |ws| ==> IsWhiteSpace(ws[i])
    ensures WhiteSpacePrefixLength(ws + s) == |ws| + WhiteSpacePrefixLength(s)
  {
    if ws != [] {
      assert (ws + s)[0] == ws[0];
      assert (ws + s)[1..] == ws[1..] + s;
      WhiteSpacePrefixSkips(ws[1..], s);
    } else {
      assert ws + s == s;
    }
  }
}
