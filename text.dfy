/**
 * The Python string operations the kiosk applies to every input line:
 * str.strip(), str.lower(), str.upper(), str.isdigit() and int() on a
 * digit string. All of them are modelled on the ASCII range only.
 */
module Text {

  /** str.isspace on ASCII: tab, line feed, vertical tab, form feed,
      carriage return, the four information separators and space. */
  predicate IsSpace(c: char) {
    9 <= c as int <= 13 || 28 <= c as int <= 32
  }

  /** How many whitespace characters open s. */
  function LeadingSpaces(s: string): (n: nat)
    ensures n <= |s|
    ensures forall i :: 0 <= i < n ==> IsSpace(s[i])
    ensures n == |s| || !IsSpace(s[n])
  {
    if s != [] && IsSpace(s[0]) then 1 + LeadingSpaces(s[1..]) else 0
  }

  /** How many whitespace characters close s. */
  function TrailingSpaces(s: string): (n: nat)
    ensures n <= |s|
    ensures forall i :: |s| - n <= i < |s| ==> IsSpace(s[i])
    ensures n == |s| || !IsSpace(s[|s| - 1 - n])
  {
    if s != [] && IsSpace(s[|s| - 1]) then 1 + TrailingSpaces(s[..|s| - 1]) else 0
  }

  /** str.lstrip(): s without its leading whitespace. */
  function TrimLeft(s: string): (r: string)
    ensures |r| <= |s|
  {
    if s != [] && IsSpace(s[0]) then TrimLeft(s[1..]) else s
  }

  /** str.rstrip(): s without its trailing whitespace. */
  function TrimRight(s: string): (r: string)
    ensures |r| <= |s|
  {
    if s != [] && IsSpace(s[|s| - 1]) then TrimRight(s[..|s| - 1]) else s
  }

  /** str.strip(): s without its leading and trailing whitespace. */
  function Strip(s: string): (r: string)
    ensures |r| <= |s|
  {
    TrimRight(TrimLeft(s))
  }

  /** TrimLeft drops exactly the leading whitespace. */
  lemma {:induction false} TrimLeftDrops(s: string)
    ensures TrimLeft(s) == s[LeadingSpaces(s)..]
  {
    if s != [] && IsSpace(s[0]) {
      TrimLeftDrops(s[1..]);
    }
  }

  /** TrimRight drops exactly the trailing whitespace. */
  lemma {:induction false} TrimRightDrops(s: string)
    ensures TrimRight(s) == s[..|s| - TrailingSpaces(s)]
  {
    if s != [] && IsSpace(s[|s| - 1]) {
      TrimRightDrops(s[..|s| - 1]);
    }
  }

  /** What Strip keeps: the shortest slice of s that holds every non-space
      character of s, so that neither of its ends is whitespace. */
  lemma StripKeepsCore(s: string)
    ensures LeadingSpaces(s) + |Strip(s)| <= |s|
    ensures Strip(s) == s[LeadingSpaces(s)..LeadingSpaces(s) + |Strip(s)|]
    ensures Strip(s) == [] || (!IsSpace(Strip(s)[0]) && !IsSpace(Strip(s)[|Strip(s)| - 1]))
    ensures forall i :: 0 <= i < |s| && !IsSpace(s[i]) ==>
              LeadingSpaces(s) <= i < LeadingSpaces(s) + |Strip(s)|
  {
    var a := LeadingSpaces(s);
    var t := s[a..];
    var b := TrailingSpaces(t);
    TrimLeftDrops(s);
    TrimRightDrops(t);
    var r := Strip(s);
    assert r == t[..|t| - b] == s[a..|s| - b];
    if a < |s| {
      assert !IsSpace(t[0]);
      assert b < |t|;
      assert r[0] == s[a] && r[|r| - 1] == t[|t| - 1 - b];
    }
  }

  function LowerChar(c: char): char {
    if 'A' <= c <= 'Z' then (c as int + 32) as char else c
  }

  function UpperChar(c: char): char {
    if 'a' <= c <= 'z' then (c as int - 32) as char else c
  }

  /** str.lower() on ASCII letters. */
  function Lower(s: string): (r: string)
    ensures |r| == |s|
  {
    if s == [] then [] else [LowerChar(s[0])] + Lower(s[1..])
  }

  /** str.upper() on ASCII letters. */
  function Upper(s: string): (r: string)
    ensures |r| == |s|
  {
    if s == [] then [] else [UpperChar(s[0])] + Upper(s[1..])
  }

  /** s.lower() equals a one-letter lower-case string exactly when s is
      that letter in either case. */
  lemma LowerIsLetter(s: string, c: char)
    requires 'a' <= c <= 'z'
    ensures Lower(s) == [c] <==> s == [c] || s == [UpperChar(c)]
  {
    if Lower(s) == [c] {
      assert Lower(s)[0] == LowerChar(s[0]);
      assert |s| == 1 && LowerChar(s[0]) == c;
      assert s == [s[0]];
    }
    if s == [c] || s == [UpperChar(c)] {
      assert Lower(s)[0] == c;
    }
  }

  /** s.upper() equals a one-letter upper-case string exactly when s is
      that letter in either case. */
  lemma UpperIsLetter(s: string, c: char)
    requires 'A' <= c <= 'Z'
    ensures Upper(s) == [c] <==> s == [c] || s == [LowerChar(c)]
  {
    if Upper(s) == [c] {
      assert Upper(s)[0] == UpperChar(s[0]);
      assert |s| == 1 && UpperChar(s[0]) == c;
      assert s == [s[0]];
    }
    if s == [c] || s == [LowerChar(c)] {
      assert Upper(s)[0] == c;
    }
  }

  predicate IsDigit(c: char) {
    '0' <= c <= '9'
  }

  predicate AllDigits(s: string) {
    forall i :: 0 <= i < |s| ==> IsDigit(s[i])
  }

  /** str.isdigit(): non-empty and made of decimal digits only. */
  predicate IsDigits(s: string) {
    |s| > 0 && AllDigits(s)
  }

  function DigitValue(c: char): (d: nat)
    requires IsDigit(c)
    ensures d < 10
  {
    c as int - '0' as int
  }

  function DigitChar(d: nat): (c: char)
    requires d < 10
    ensures IsDigit(c) && DigitValue(c) == d
  {
    ('0' as int + d) as char
  }

  function Pow10(k: nat): (p: nat)
    ensures p >= 1
  {
    if k == 0 then 1 else 10 * Pow10(k - 1)
  }

  /** int(s) for a string of decimal digits; leading zeros are allowed,
      as Python allows them. */
  function DigitsValue(s: string): (n: nat)
    requires AllDigits(s)
    ensures n < Pow10(|s|)
    decreases |s|
  {
    if s == [] then 0
    else
      var v := DigitsValue(s[..|s| - 1]);
      assert 10 * v + DigitValue(s[|s| - 1]) < 10 * Pow10(|s| - 1);
      10 * v + DigitValue(s[|s| - 1])
  }

  /** The decimal spelling of n, as str(n) writes it: digits only, and no
      leading zero unless n is zero. */
  function NatToDigits(n: nat): (s: string)
    ensures IsDigits(s)
    ensures |s| > 1 ==> s[0] != '0'
    decreases n
  {
    if n < 10 then [DigitChar(n)] else NatToDigits(n / 10) + [DigitChar(n % 10)]
  }

  /** int(str(n)) == n. */
  lemma {:induction false} DigitsRoundTrip(n: nat)
    ensures DigitsValue(NatToDigits(n)) == n
    decreases n
  {
    if n >= 10 {
      var s := NatToDigits(n);
      DigitsRoundTrip(n / 10);
      assert s[..|s| - 1] == NatToDigits(n / 10);
    }
  }

  /** int() ignores leading zeros: int("0" + s) == int(s). */
  lemma {:induction false} LeadingZeroIgnored(s: string)
    requires AllDigits(s)
    ensures AllDigits(['0'] + s) && DigitsValue(['0'] + s) == DigitsValue(s)
    decreases |s|
  {
    var z := ['0'] + s;
    if s != [] {
      assert z[..|z| - 1] == ['0'] + s[..|s| - 1];
      LeadingZeroIgnored(s[..|s| - 1]);
    }
  }
}
