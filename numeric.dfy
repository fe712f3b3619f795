/**
 * Numeric coercion of one cell, as `pd.to_numeric(column, errors='coerce')`
 * does it element by element: a decimal numeral becomes its value, anything
 * else becomes the missing marker, and nothing raises.
 */
module Numeric {
  import opened Base
  import opened Strings

  /** An exact decimal number: `unscaled` times ten to the power `-scale`. */
  datatype Decimal = Decimal(unscaled: int, scale: nat)

  /** The characters a numeral may contain. */
  predicate NumeralChar(c: char) {
    IsDigit(c) || c == '.' || c == '+' || c == '-'
  }

  predicate AllNumeralChars(s: string) {
    forall k :: 0 <= k < |s| ==> NumeralChar(s[k])
  }

  /** The leading sign character of `s`, if it has one. */
  function SignOf(s: string): (sign: string)
    ensures sign == "" || sign == "+" || sign == "-"
    ensures |sign| <= |s| && sign == s[..|sign|]
  {
    if |s| > 0 && (s[0] == '-' || s[0] == '+') then [s[0]] else ""
  }

  /** The text before the first point (all of it when there is none). */
  function IntPart(body: string): string {
    if '.' in body then body[..FirstIndex(body, '.')] else body
  }

  /** The text after the first point (nothing when there is none). */
  function FracPart(body: string): string {
    if '.' in body then body[FirstIndex(body, '.') + 1..] else ""
  }

  /** A numeral written out from its parts: a sign, integer digits, an optional point, fraction digits. */
  function Numeral(sign: string, ip: string, point: bool, fp: string): string {
    sign + ip + (if point then "." + fp else fp)
  }

  /** The parts make a numeral: a sign of at most one character, at least one digit, fraction digits only after a point. */
  predicate NumeralParts(sign: string, ip: string, point: bool, fp: string) {
    (sign == "" || sign == "+" || sign == "-")
    && AllDigits(ip) && AllDigits(fp) && |ip| + |fp| > 0
    && (point || fp == "")
  }

  /** The value a numeral denotes: its digits read as one integer, scaled by the number of fraction digits. */
  function NumeralValue(sign: string, ip: string, fp: string): Decimal
    requires AllDigits(ip) && AllDigits(fp)
  {
    var m: int := DigitsValue(ip + fp);
    Decimal(if sign == "-" then -m else m, |fp|)
  }

  /**
   * The value of `s` read as a decimal numeral (optional sign, digits, at
   * most one point, at least one digit), or None: the missing marker.
   */
  function ToNumeric(s: string): (r: Option<Decimal>)
    ensures r.Some? ==> AllNumeralChars(s)
    ensures r.Some? ==> exists k :: 0 <= k < |s| && IsDigit(s[k])
  {
    var sign := SignOf(s);
    var body := s[|sign|..];
    var ip := IntPart(body);
    var fp := FracPart(body);
    if AllDigits(ip) && AllDigits(fp) && |ip| + |fp| > 0 then
      PartsJoin(body);
      assert s == sign + body;
      PartsChars(s, sign, ip, '.' in body, fp);
      CoercedDigit(s, sign, ip, '.' in body, fp);
      Some(NumeralValue(sign, ip, fp))
    else None
  }

  /** `str(n)` for an integer. */
  function IntToString(n: int): string {
    if n < 0 then "-" + NatToString(-n) else NatToString(n)
  }

  // ---------------------------------------------------------------------------
  // Lemmas

  /** The point splits the unsigned text into its integer and fraction parts. */
  lemma PartsJoin(body: string)
    ensures body == IntPart(body) + (if '.' in body then "." + FracPart(body) else FracPart(body))
  {
    if '.' in body {
      var i := FirstIndex(body, '.');
      assert body == body[..i] + [body[i]] + body[i + 1..];
    }
  }

  /** The parts of a numeral whose integer part holds no point are found again. */
  lemma PartsOfNumeral(ip: string, point: bool, fp: string)
    requires AllDigits(ip) && AllDigits(fp) && (point || fp == "")
    ensures IntPart(ip + (if point then "." + fp else fp)) == ip
    ensures FracPart(ip + (if point then "." + fp else fp)) == fp
  {
    var body := ip + (if point then "." + fp else fp);
    assert '.' !in ip;
    if point {
      assert body == ip + ['.'] + fp;
      FirstIndexAfter(ip, '.', fp);
      assert body[..|ip|] == ip;
      assert body[|ip| + 1..] == fp;
    } else {
      assert body == ip;
    }
  }

  /** Every well-formed numeral coerces to its value. */
  lemma NumeralCoerces(sign: string, ip: string, point: bool, fp: string)
    requires NumeralParts(sign, ip, point, fp)
    ensures ToNumeric(Numeral(sign, ip, point, fp)) == Some(NumeralValue(sign, ip, fp))
  {
    var s := Numeral(sign, ip, point, fp);
    var body := ip + (if point then "." + fp else fp);
    assert s == sign + body;
    assert SignOf(s) == sign by {
      if sign == "" {
        assert |ip| > 0 ==> s[0] == ip[0];
        assert |ip| == 0 ==> s[0] == '.';
      } else {
        assert s[0] == sign[0];
      }
    }
    assert s[|sign|..] == body;
    PartsOfNumeral(ip, point, fp);
  }

  /** Conversely, whatever coerces to a number is a well-formed numeral, and the number is its value. */
  lemma CoercedIsNumeral(s: string)
    requires ToNumeric(s).Some?
    ensures exists sign, ip, point, fp ::
      NumeralParts(sign, ip, point, fp) && s == Numeral(sign, ip, point, fp)
      && ToNumeric(s) == Some(NumeralValue(sign, ip, fp))
  {
    CoercedBody(s);
    var sign := SignOf(s);
    var body := s[|sign|..];
    var ip, point, fp := IntPart(body), '.' in body, FracPart(body);
    JoinNumeral(s, sign, body, ip, point, fp);
    assert point || fp == "";
    assert NumeralParts(sign, ip, point, fp);
  }

  lemma AllNumeralCharsAppend(a: string, b: string)
    requires AllNumeralChars(a) && AllNumeralChars(b)
    ensures AllNumeralChars(a + b)
  {
    forall k | 0 <= k < |a + b|
      ensures NumeralChar((a + b)[k])
    {
      if k < |a| {
        assert (a + b)[k] == a[k];
      } else {
        assert (a + b)[k] == b[k - |a|];
      }
    }
  }

  lemma JoinNumeral(s: string, sign: string, body: string, ip: string, point: bool, fp: string)
    requires s == sign + body && body == ip + (if point then "." + fp else fp)
    ensures s == Numeral(sign, ip, point, fp)
  {
    var tail := if point then "." + fp else fp;
    assert sign + (ip + tail) == sign + ip + tail;
  }

  /** The unsigned part of a string that coerces is its integer digits, then a point and the fraction digits. */
  lemma CoercedBody(s: string)
    requires ToNumeric(s).Some?
    ensures var sign := SignOf(s); var body := s[|sign|..];
            s == sign + body && AllDigits(IntPart(body)) && AllDigits(FracPart(body))
            && |IntPart(body)| + |FracPart(body)| > 0
            && body == IntPart(body) + (if '.' in body then "." + FracPart(body) else FracPart(body))
  {
    var sign := SignOf(s);
    PartsJoin(s[|sign|..]);
  }

  /** A sign, digits, and an optional point with more digits, are all numeral characters. */
  lemma PartsChars(s: string, sign: string, ip: string, point: bool, fp: string)
    requires sign == "" || sign == "+" || sign == "-"
    requires AllDigits(ip) && AllDigits(fp)
    requires s == sign + (ip + (if point then "." + fp else fp))
    ensures AllNumeralChars(s)
  {
    var tail := if point then "." + fp else fp;
    assert AllNumeralChars(tail) by {
      if point {
        assert AllNumeralChars(".");
        assert AllNumeralChars(fp);
        AllNumeralCharsAppend(".", fp);
      } else {
        assert AllNumeralChars(fp);
      }
    }
    assert AllNumeralChars(ip);
    assert AllNumeralChars(sign);
    AllNumeralCharsAppend(ip, tail);
    AllNumeralCharsAppend(sign, ip + tail);
  }

  /** A numeral with at least one integer or fraction digit has a digit among its characters. */
  lemma CoercedDigit(s: string, sign: string, ip: string, point: bool, fp: string)
    requires AllDigits(ip) && AllDigits(fp) && |ip| + |fp| > 0
    requires s == sign + (ip + (if point then "." + fp else fp))
    ensures exists k :: 0 <= k < |s| && IsDigit(s[k])
  {
    if |ip| > 0 {
      assert s[|sign|] == ip[0];
    } else if point {
      assert s[|sign| + 1] == fp[0];
    } else {
      assert s[|sign|] == fp[0];
    }
  }

  /** Integers survive the round trip through their decimal text unchanged. */
  lemma IntRoundTrip(n: int)
    ensures ToNumeric(IntToString(n)) == Some(Decimal(n, 0))
  {
    var m: nat := if n < 0 then -n else n;
    var digits := NatToString(m);
    var sign := if n < 0 then "-" else "";
    NumeralCoerces(sign, digits, false, "");
    assert Numeral(sign, digits, false, "") == IntToString(n) by {
      assert sign + digits + "" == sign + digits;
    }
    assert NumeralValue(sign, digits, "") == Decimal(n, 0) by {
      assert digits + "" == digits;
      NatToStringRoundTrip(m);
    }
  }

  /** A string holding a character other than a digit, a point or a sign, such as "1,000" or "N/A", is missing. */
  lemma ForeignCharIsMissing(s: string, k: nat)
    requires k < |s| && !NumeralChar(s[k])
    ensures ToNumeric(s) == None
  {
    assert !AllNumeralChars(s);
  }

}
