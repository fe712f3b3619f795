/** Optional values, for the places where the Python code returns None or raises. */
module Base {
  datatype Option<+T> = None | Some(value: T)
}

/**
 * The handful of Python `str` operations the normalisation pipeline uses:
 * strip, split on one character, replace, upper/lower, rstrip of one
 * character, slicing off the last character, and decimal digits.
 */
module Strings {

  /** The characters Python's `str.isspace()` accepts; `str.strip()` with no argument removes them. */
  predicate IsSpace(c: char) {
    c == ' ' || c == '\t' || c == '\n' || c == '\r' || c == '\U{B}' || c == '\U{C}'
    || ('\U{1C}' <= c <= '\U{1F}') || c == '\U{85}' || c == '\U{A0}' || c == '\U{1680}'
    || ('\U{2000}' <= c <= '\U{200A}') || c == '\U{2028}' || c == '\U{2029}'
    || c == '\U{202F}' || c == '\U{205F}' || c == '\U{3000}'
  }

  predicate AllSpace(s: string) {
    forall k :: 0 <= k < |s| ==> IsSpace(s[k])
  }

  /** A string with no surrounding whitespace: what `strip()` produces. */
  predicate Stripped(s: string) {
    s == [] || (!IsSpace(s[0]) && !IsSpace(s[|s| - 1]))
  }

  /** `s.lstrip()`: the suffix left after removing leading whitespace. */
  function LStrip(s: string): (r: string)
    ensures |r| <= |s| && r == s[|s| - |r|..]
    ensures AllSpace(s[..|s| - |r|])
    ensures r == [] || !IsSpace(r[0])
  {
    if |s| > 0 && IsSpace(s[0]) then
      var r := LStrip(s[1..]);
      var m := |s| - |r|;
      assert s[m..] == s[1..][m - 1..];
      assert forall k :: 1 <= k < m ==> s[..m][k] == s[1..][..m - 1][k - 1];
      r
    else
      assert s[..0] == [];
      s
  }

  /** `s.rstrip()`: the prefix left after removing trailing whitespace. */
  function RStrip(s: string): (r: string)
    ensures |r| <= |s| && r == s[..|r|]
    ensures AllSpace(s[|r|..])
    ensures r == [] || !IsSpace(r[|r| - 1])
  {
    if |s| > 0 && IsSpace(s[|s| - 1]) then
      var init := s[..|s| - 1];
      var r := RStrip(init);
      assert r == s[..|r|];
      assert forall k :: 0 <= k < |init| - |r| ==> s[|r|..][k] == init[|r|..][k];
      r
    else
      assert s[|s|..] == [];
      s
  }

  /** `s.strip()`: a piece of `s` with no whitespace at either end. */
  function Strip(s: string): (r: string)
    ensures |r| <= |s| && Stripped(r)
  {
    var l := LStrip(s);
    var r := RStrip(l);
    assert r != [] ==> r[0] == l[0];
    r
  }

  /** `s.rstrip(c)` for a single character `c`: every trailing `c` is removed. */
  function RStripChar(s: string, c: char): (r: string)
    ensures |r| <= |s| && r == s[..|r|]
    ensures forall k :: |r| <= k < |s| ==> s[k] == c
    ensures r == [] || r[|r| - 1] != c
  {
    if |s| > 0 && s[|s| - 1] == c then RStripChar(s[..|s| - 1], c) else s
  }

  /** `s[:-1]`: everything but the last character (the empty string stays empty). */
  function DropLast(s: string): string {
    if |s| == 0 then s else s[..|s| - 1]
  }

  /** `s.replace(a, b)` for single characters. */
  function Replace(s: string, a: char, b: char): string {
    seq(|s|, k requires 0 <= k < |s| => if s[k] == a then b else s[k])
  }

  function UpperChar(c: char): char {
    if 'a' <= c <= 'z' then (c as int - 'a' as int + 'A' as int) as char else c
  }

  function LowerChar(c: char): char {
    if 'A' <= c <= 'Z' then (c as int - 'A' as int + 'a' as int) as char else c
  }

  /** `s.upper()`, on the ASCII letters. */
  function Upper(s: string): string {
    seq(|s|, k requires 0 <= k < |s| => UpperChar(s[k]))
  }

  /** `s.lower()`, on the ASCII letters. */
  function Lower(s: string): string {
    seq(|s|, k requires 0 <= k < |s| => LowerChar(s[k]))
  }

  predicate IsPrefix(p: string, s: string) {
    |p| <= |s| && s[..|p|] == p
  }

  /** Python's `needle in haystack` for strings: `needle` starts at some position of `haystack`. */
  predicate IsSubstring(needle: string, haystack: string)
    decreases |haystack|
  {
    IsPrefix(needle, haystack) || (|haystack| > 0 && IsSubstring(needle, haystack[1..]))
  }

  /** The index of the first occurrence of `c` in `s`. */
  function FirstIndex(s: string, c: char): (i: nat)
    requires c in s
    ensures i < |s| && s[i] == c && c !in s[..i]
  {
    if s[0] == c then 0 else 1 + FirstIndex(s[1..], c)
  }

  /** The parts of a split, glued back together with the separator. */
  function Join(parts: seq<string>, c: char): string
    requires |parts| >= 1
  {
    if |parts| == 1 then parts[0] else parts[0] + [c] + Join(parts[1..], c)
  }

  /**
   * `s.split(c)` for a single-character separator: the pieces between
   * consecutive occurrences of `c`, never fewer than one.
   */
  function Split(s: string, c: char): (parts: seq<string>)
    ensures |parts| >= 1
    ensures forall k :: 0 <= k < |parts| ==> c !in parts[k]
    ensures Join(parts, c) == s
    ensures (c in s) <==> |parts| >= 2
    decreases |s|
  {
    if c !in s then [s]
    else
      var i := FirstIndex(s, c);
      assert s == s[..i] + [c] + s[i + 1..];
      [s[..i]] + Split(s[i + 1..], c)
  }

  predicate IsDigit(c: char) {
    '0' <= c <= '9'
  }

  predicate AllDigits(s: string) {
    forall k :: 0 <= k < |s| ==> IsDigit(s[k])
  }

  /** `re.sub("\\D", "", s)`: the decimal digits of `s`, in order. */
  function DigitsOf(s: string): (r: string)
    ensures AllDigits(r)
    ensures |r| <= |s|
  {
    if s == [] then []
    else (if IsDigit(s[0]) then [s[0]] else []) + DigitsOf(s[1..])
  }

  function DigitValue(c: char): nat
    requires IsDigit(c)
  {
    c as int - '0' as int
  }

  function DigitChar(d: nat): (c: char)
    requires d < 10
    ensures IsDigit(c) && DigitValue(c) == d
  {
    (d + '0' as int) as char
  }

  /** The value of a string of decimal digits, as `int()` reads it (the empty string reads as 0 here). */
  function DigitsValue(s: string): nat
    requires AllDigits(s)
  {
    if s == [] then 0 else DigitsValue(s[..|s| - 1]) * 10 + DigitValue(s[|s| - 1])
  }

  /** `str(n)` for a natural number: its decimal digits, no leading zero. */
  function NatToString(n: nat): (r: string)
    ensures |r| >= 1 && AllDigits(r)
    ensures |r| > 1 ==> r[0] != '0'
  {
    if n < 10 then [DigitChar(n)] else NatToString(n / 10) + [DigitChar(n % 10)]
  }

  // ---------------------------------------------------------------------------
  // Lemmas

  /** Reading back the digits `str(n)` prints gives `n`. */
  lemma {:induction false} NatToStringRoundTrip(n: nat)
    ensures DigitsValue(NatToString(n)) == n
  {
    var s := NatToString(n);
    if n >= 10 {
      NatToStringRoundTrip(n / 10);
      assert s[..|s| - 1] == NatToString(n / 10);
      assert DigitValue(s[|s| - 1]) == n % 10;
    }
  }

  lemma NatToStringInjective(m: nat, n: nat)
    requires NatToString(m) == NatToString(n)
    ensures m == n
  {
    NatToStringRoundTrip(m);
    NatToStringRoundTrip(n);
  }

  /** `DigitsOf` distributes over concatenation. */
  lemma {:induction false} DigitsOfAppend(a: string, b: string)
    ensures DigitsOf(a + b) == DigitsOf(a) + DigitsOf(b)
  {
    if a != [] {
      assert (a + b)[0] == a[0];
      assert (a + b)[1..] == a[1..] + b;
      DigitsOfAppend(a[1..], b);
      var h := if IsDigit(a[0]) then [a[0]] else [];
      assert DigitsOf(a + b) == h + (DigitsOf(a[1..]) + DigitsOf(b));
      assert h + (DigitsOf(a[1..]) + DigitsOf(b)) == (h + DigitsOf(a[1..])) + DigitsOf(b);
    } else {
      assert a + b == b;
    }
  }

  /** `DigitsOf` is empty exactly when the string has no decimal digit. */
  lemma {:induction false} DigitsOfEmpty(s: string)
    ensures DigitsOf(s) == [] <==> forall k :: 0 <= k < |s| ==> !IsDigit(s[k])
  {
    if s != [] {
      DigitsOfEmpty(s[1..]);
      assert forall k :: 1 <= k < |s| ==> s[k] == s[1..][k - 1];
    }
  }

  /** A string of digits is its own `DigitsOf`. */
  lemma {:induction false} DigitsOfDigits(s: string)
    requires AllDigits(s)
    ensures DigitsOf(s) == s
  {
    if s != [] {
      DigitsOfDigits(s[1..]);
    }
  }

  /** A string without digits contributes nothing to `DigitsOf`. */
  lemma {:induction false} DigitsOfNoDigits(s: string)
    requires forall k :: 0 <= k < |s| ==> !IsDigit(s[k])
    ensures DigitsOf(s) == []
  {
    if s != [] {
      DigitsOfNoDigits(s[1..]);
    }
  }

  /** The first occurrence of `c` in `a + [c] + b`, when `a` holds none, is at `|a|`. */
  lemma {:induction false} FirstIndexAfter(a: string, c: char, b: string)
    requires c !in a
    ensures FirstIndex(a + [c] + b, c) == |a|
  {
    if a != [] {
      assert (a + [c] + b)[1..] == a[1..] + [c] + b;
      FirstIndexAfter(a[1..], c, b);
    }
  }

  /** Splitting `a + [c] + b` on `c`, when neither side holds `c`, gives exactly `[a, b]`. */
  lemma SplitTwo(a: string, c: char, b: string)
    requires c !in a && c !in b
    ensures Split(a + [c] + b, c) == [a, b]
  {
    var s := a + [c] + b;
    FirstIndexAfter(a, c, b);
    assert s[..|a|] == a;
    assert s[|a| + 1..] == b;
  }

  /** A wholly blank prefix is removed by `lstrip` with the whitespace that follows it. */
  lemma {:induction false} LStripBlank(s: string, t: string)
    requires AllSpace(s)
    ensures LStrip(s + t) == LStrip(t)
  {
    if s == [] {
      assert s + t == t;
    } else {
      var rest := s[1..];
      assert (s + t)[0] == s[0] && (s + t)[1..] == rest + t;
      assert AllSpace(rest) by {
        assert forall k :: 0 <= k < |rest| ==> rest[k] == s[k + 1];
      }
      LStripBlank(rest, t);
    }
  }

  /** A prefix with a non-blank character keeps `lstrip` from reaching what follows it. */
  lemma {:induction false} LStripNonBlank(s: string, t: string)
    requires !AllSpace(s)
    ensures LStrip(s + t) == LStrip(s) + t
  {
    var rest := s[1..];
    assert (s + t)[0] == s[0] && (s + t)[1..] == rest + t;
    if IsSpace(s[0]) {
      assert !AllSpace(rest) by {
        assert forall k :: 1 <= k < |s| ==> s[k] == rest[k - 1];
      }
      LStripNonBlank(rest, t);
    }
  }

  /** Leading whitespace of the whole string is removed by `lstrip` regardless of what follows. */
  lemma LStripAppend(s: string, t: string)
    ensures AllSpace(s) ==> LStrip(s + t) == LStrip(t)
    ensures !AllSpace(s) ==> LStrip(s + t) == LStrip(s) + t
  {
    if AllSpace(s) {
      LStripBlank(s, t);
    } else {
      LStripNonBlank(s, t);
    }
  }

  /** A whitespace character appended to the end changes nothing once the string is stripped. */
  lemma StripTrailingSpace(s: string, c: char)
    requires IsSpace(c)
    ensures Strip(s + [c]) == Strip(s)
  {
    LStripAppend(s, [c]);
    if AllSpace(s) {
      assert LStrip([c]) == [];
      LStripAppend(s, []);
      assert s + [] == s;
    } else {
      var l := LStrip(s);
      assert (l + [c])[..|l|] == l;
    }
  }

  /** A string that is already stripped is left alone by `strip`. */
  lemma StripStripped(s: string)
    requires Stripped(s)
    ensures Strip(s) == s
  {
    assert LStrip(s) == s;
    if s != [] {
      assert s[|s| - 1] == LStrip(s)[|s| - 1];
    }
  }

  /** Whitespace added on both sides of a stripped string is exactly what `strip` removes. */
  lemma {:induction false} StripPadded(p: string, s: string, q: string)
    requires AllSpace(p) && AllSpace(q) && Stripped(s)
    ensures Strip(p + s + q) == s
    decreases |q|
  {
    if q == [] {
      assert p + s + q == p + s;
      LStripAppend(p, s);
      StripStripped(s);
    } else {
      var q' := q[..|q| - 1];
      assert p + s + q == (p + s + q') + [q[|q| - 1]];
      StripTrailingSpace(p + s + q', q[|q| - 1]);
      StripPadded(p, s, q');
    }
  }

  /** After `replace(a, b)` with `a != b`, no `a` is left. */
  lemma ReplaceRemoves(s: string, a: char, b: char)
    requires a != b
    ensures a !in Replace(s, a, b)
  {
    var r := Replace(s, a, b);
    forall k | 0 <= k < |r|
      ensures r[k] != a
    {
    }
  }

  /** `upper()` does not change a string that has no lower-case ASCII letter. */
  lemma UpperIdempotent(s: string)
    requires forall k :: 0 <= k < |s| ==> !('a' <= s[k] <= 'z')
    ensures Upper(s) == s
  {
  }
}
