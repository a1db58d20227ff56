/** JavaScript's `parseInt(string)` with no radix, as the email list route
    applies it to its `limit` and `offset` query parameters: leading white
    space is skipped, one sign is read, a `0x`/`0X` prefix selects base 16,
    and the longest run of digits that follows is the value; with no digit
    the result is NaN, written `None` here. */
module JsInt {
  import opened Wrappers
  import opened Text

  /** The characters `String.prototype.trim` and `parseInt` skip: the
      ECMAScript WhiteSpace and LineTerminator characters. */
  predicate JsSpace(c: char) {
    || c == '\t' || c == '\n' || c == '\U{000B}' || c == '\U{000C}' || c == '\r' || c == ' '
    || c == '\U{00A0}' || c == '\U{1680}' || ('\U{2000}' <= c <= '\U{200A}')
    || c == '\U{2028}' || c == '\U{2029}' || c == '\U{202F}' || c == '\U{205F}'
    || c == '\U{3000}' || c == '\U{FEFF}'
  }

  /** `s` without its leading white space. */
  function TrimStart(s: string): (r: string)
    ensures |r| <= |s| && r == s[|s| - |r|..]
    ensures |r| == 0 || !JsSpace(r[0])
    ensures forall i :: 0 <= i < |s| - |r| ==> JsSpace(s[i])
    decreases |s|
  {
    if |s| > 0 && JsSpace(s[0]) then TrimStart(s[1..]) else s
  }

  /** The longest prefix of `s` made of characters `ok` accepts. */
  function Leading(s: string, ok: char -> bool): (r: string)
    ensures |r| <= |s| && r == s[..|r|]
    ensures forall i :: 0 <= i < |r| ==> ok(r[i])
    ensures |r| == |s| || !ok(s[|r|])
    decreases |s|
  {
    if |s| == 0 || !ok(s[0]) then "" else [s[0]] + Leading(s[1..], ok)
  }

  predicate AllHexDigits(s: string) {
    forall i :: 0 <= i < |s| ==> IsHexDigit(s[i])
  }

  function HexDigitsValue(s: string): nat
    requires AllHexDigits(s)
    decreases |s|
  {
    if |s| == 0 then 0 else HexDigitsValue(s[..|s| - 1]) * 16 + HexDigitValue(s[|s| - 1])
  }

  /** The value of the hexadecimal digits at the start of `v`; `None` when
      there are none. */
  function HexRun(v: string): Option<nat> {
    var h := Leading(v, IsHexDigit);
    if |h| == 0 then None else Some(HexDigitsValue(h))
  }

  /** The value of the decimal digits at the start of `v`; `None` when
      there are none. */
  function DecimalRun(v: string): Option<nat> {
    var d := Leading(v, IsDigit);
    if |d| == 0 then None else Some(DigitsValue(d))
  }

  /** The magnitude after the sign: hexadecimal behind `0x`/`0X`, decimal
      otherwise. */
  function Magnitude(u: string): Option<nat> {
    if |u| >= 2 && u[0] == '0' && (u[1] == 'x' || u[1] == 'X') then HexRun(u[2..]) else DecimalRun(u)
  }

  /** `parseInt` on text whose leading white space is already gone. */
  function ParseTrimmed(t: string): Option<int> {
    var signed := |t| > 0 && (t[0] == '-' || t[0] == '+');
    var m := Magnitude(if signed then t[1..] else t);
    if m.None? then None
    else if signed && t[0] == '-' then Some(-(m.value as int))
    else Some(m.value)
  }

  function ParseInt(s: string): Option<int> {
    ParseTrimmed(TrimStart(s))
  }

  /** A run of accepted characters followed by one that is not accepted
      stops there. */
  lemma {:induction false} LeadingOf(d: string, rest: string, ok: char -> bool)
    requires forall i :: 0 <= i < |d| ==> ok(d[i])
    requires |rest| == 0 || !ok(rest[0])
    ensures Leading(d + rest, ok) == d
    decreases |d|
  {
    if |d| > 0 {
      assert (d + rest)[1..] == d[1..] + rest;
      LeadingOf(d[1..], rest, ok);
    }
  }

  /** The magnitude read from a decimal rendering followed by anything that
      does not continue it is the number. */
  lemma MagnitudeReadsNumber(n: nat, rest: string)
    requires |rest| == 0 || (!IsDigit(rest[0]) && rest[0] != 'x' && rest[0] != 'X')
    ensures Magnitude(NatToString(n) + rest) == Some(n)
  {
    var d := NatToString(n);
    var s := d + rest;
    LeadingOf(d, rest, IsDigit);
    NatToStringRoundTrip(n);
    if |s| >= 2 && s[0] == '0' {
      assert |d| == 1;
      assert s[1] == rest[0];
    }
  }

  /** Text that starts with neither white space nor a sign is read by its
      magnitude alone. */
  lemma ParseIntUnsigned(s: string)
    requires |s| == 0 || (!JsSpace(s[0]) && s[0] != '-' && s[0] != '+')
    ensures ParseInt(s) == if Magnitude(s).Some? then Some(Magnitude(s).value as int) else None
  {
    assert TrimStart(s) == s;
  }

  /** A minus sign negates the magnitude after it. */
  lemma ParseIntMinus(u: string)
    ensures ParseInt("-" + u) == if Magnitude(u).Some? then Some(-(Magnitude(u).value as int)) else None
  {
    var s := "-" + u;
    assert TrimStart(s) == s;
    assert s[1..] == u;
  }

  /** The decimal rendering of a number, followed by anything that does not
      continue it, reads back as the number: "50" is 50, "20abc" is 20. */
  lemma ParseIntReadsNumber(n: nat, rest: string)
    requires |rest| == 0 || (!IsDigit(rest[0]) && rest[0] != 'x' && rest[0] != 'X')
    ensures ParseInt(NatToString(n) + rest) == Some(n)
  {
    var d := NatToString(n);
    assert (d + rest)[0] == d[0] && IsDigit(d[0]);
    ParseIntUnsigned(d + rest);
    MagnitudeReadsNumber(n, rest);
  }

  /** A minus sign negates what follows it. */
  lemma ParseIntNegative(n: nat)
    ensures ParseInt("-" + NatToString(n)) == Some(-(n as int))
  {
    var d := NatToString(n);
    ParseIntMinus(d);
    MagnitudeReadsNumber(n, "");
    assert d + "" == d;
  }

  /** Leading white space does not change the value. */
  lemma ParseIntSkipsSpace(c: char, s: string)
    requires JsSpace(c)
    ensures ParseInt([c] + s) == ParseInt(s)
  {
    assert ([c] + s)[1..] == s;
    assert TrimStart([c] + s) == TrimStart(s);
  }

  /** Text that starts with neither a sign nor a digit is NaN, and so is
      the empty string. */
  lemma ParseIntNaN(s: string)
    requires |s| == 0 || (!JsSpace(s[0]) && !IsDigit(s[0]) && s[0] != '-' && s[0] != '+')
    ensures ParseInt(s).None?
  {
    assert TrimStart(s) == s;
  }

  /** A `0x` or `0X` prefix reads the hexadecimal digits after it, up to the
      first character that is not one. */
  lemma ParseIntHexDigits(s: string, h: string, rest: string)
    requires |s| >= 2 && s[0] == '0' && (s[1] == 'x' || s[1] == 'X')
    requires s[2..] == h + rest
    requires |h| > 0 && AllHexDigits(h)
    requires |rest| == 0 || !IsHexDigit(rest[0])
    ensures ParseInt(s) == Some(HexDigitsValue(h))
  {
    HexMagnitude(s, h, rest);
    ParseIntUnsigned(s);
  }

  /** The magnitude behind a `0x` prefix is the value of the hex digits. */
  lemma HexMagnitude(s: string, h: string, rest: string)
    requires |s| >= 2 && s[0] == '0' && (s[1] == 'x' || s[1] == 'X')
    requires s[2..] == h + rest
    requires |h| > 0 && AllHexDigits(h)
    requires |rest| == 0 || !IsHexDigit(rest[0])
    ensures Magnitude(s) == Some(HexDigitsValue(h))
  {
    LeadingOf(h, rest, IsHexDigit);
    assert HexRun(h + rest) == Some(HexDigitsValue(h));
  }

  /** " 0x1A" is 26. */
  lemma ParseIntHex()
    ensures ParseInt(" 0x1A") == Some(26)
  {
    HexDigits1A();
    ZeroX1A();
    ParseIntHexDigits("0x1A", "1A", "");
    SpaceZeroX1A();
    ParseIntSkipsSpace(' ', "0x1A");
  }

  /** The literal steps of the example, one per lemma. */
  lemma HexDigits1A()
    ensures AllHexDigits("1A") && HexDigitsValue("1A") == 26
  {
    assert "1A"[..1] == "1" && "1"[..0] == "";
  }

  lemma ZeroX1A()
    ensures "0x1A"[2..] == "1A" + ""
  {
  }

  lemma SpaceZeroX1A()
    ensures [' '] + "0x1A" == " 0x1A"
  {
  }


}
