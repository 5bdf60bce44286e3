/** Character and string helpers the source takes from the C++ standard
    library: `std::string::contains`, `islower`/`toupper`/`isalpha` in the C
    locale, `std::to_string` and `std::stoi`. A `char` here stands for one
    byte of a `std::string`, so lengths count bytes as `size()` does: a
    multi-byte character such as the flat sign takes several. */
module Strings {
  import opened Outcomes

  /** `s` holds `sub` as a contiguous run of characters. */
  predicate Contains(s: string, sub: string)
    decreases |s|
  {
    |sub| <= |s| && (s[..|sub|] == sub || Contains(s[1..], sub))
  }

  predicate IsLower(c: char) { 'a' <= c <= 'z' }

  predicate IsUpper(c: char) { 'A' <= c <= 'Z' }

  predicate IsAlpha(c: char) { IsLower(c) || IsUpper(c) }

  predicate IsDigit(c: char) { '0' <= c <= '9' }

  function ToUpper(c: char): char
  {
    if IsLower(c) then (c as int - 32) as char else c
  }

  /** `n` copies of `c`. */
  function Repeat(c: char, n: nat): (r: string)
    ensures |r| == n
    ensures forall i | 0 <= i < n :: r[i] == c
  {
    seq(n, _ => c)
  }

  function DigitChar(d: nat): char
    requires d < 10
  {
    ('0' as int + d) as char
  }

  function DigitValue(c: char): nat
    requires IsDigit(c)
  {
    c as int - '0' as int
  }

  predicate AllDigits(s: string)
  {
    forall i | 0 <= i < |s| :: IsDigit(s[i])
  }

  /** Decimal text of a natural number, most significant digit first. */
  function NatToString(n: nat): (s: string)
    ensures |s| >= 1 && AllDigits(s)
    decreases n
  {
    if n < 10 then [DigitChar(n)] else NatToString(n / 10) + [DigitChar(n % 10)]
  }

  /** `std::to_string(int)`: a leading '-' for negative values. */
  function IntToString(n: int): string
  {
    if n < 0 then "-" + NatToString(-n) else NatToString(n)
  }

  /** Value of a run of decimal digits. */
  function DigitsValue(s: string): nat
    requires AllDigits(s)
    decreases |s|
  {
    if |s| == 0 then 0 else DigitsValue(s[..|s| - 1]) * 10 + DigitValue(s[|s| - 1])
  }

  /** Length of the longest run of digits at the front of `s`. */
  function LeadingDigits(s: string): (k: nat)
    ensures k <= |s|
    ensures AllDigits(s[..k])
    ensures k < |s| ==> !IsDigit(s[k])
    decreases |s|
  {
    if |s| == 0 || !IsDigit(s[0]) then 0
    else
      var k := 1 + LeadingDigits(s[1..]);
      assert s[..k] == [s[0]] + s[1..][..k - 1];
      k
  }

  /** `std::stoi` on text without white space: an optional sign, then the
      longest run of decimal digits; text without such a run is an error
      (the source's `std::invalid_argument`). */
  function Stoi(s: string): Option<int>
  {
    var negative := |s| > 0 && s[0] == '-';
    var body := if |s| > 0 && (s[0] == '-' || s[0] == '+') then s[1..] else s;
    var k := LeadingDigits(body);
    if k == 0 then None
    else if negative then Some(-(DigitsValue(body[..k]) as int))
    else Some(DigitsValue(body[..k]))
  }

  lemma {:induction false} NatToStringValue(n: nat)
    ensures DigitsValue(NatToString(n)) == n
    decreases n
  {
    if n >= 10 {
      var s := NatToString(n / 10);
      var t := s + [DigitChar(n % 10)];
      assert t[..|t| - 1] == s;
      NatToStringValue(n / 10);
    }
  }

  lemma {:induction false} AllDigitsLeading(s: string)
    requires AllDigits(s)
    ensures LeadingDigits(s) == |s|
    decreases |s|
  {
    if |s| > 0 {
      assert AllDigits(s[1..]);
      AllDigitsLeading(s[1..]);
    }
  }

  /** `std::stoi` reads back what `std::to_string` wrote. */
  lemma StoiIntToString(n: int)
    ensures Stoi(IntToString(n)) == Some(n)
  {
    if n < 0 {
      var d := NatToString(-n);
      assert IntToString(n)[1..] == d;
      AllDigitsLeading(d);
      assert d[..|d|] == d;
      NatToStringValue(-n);
    } else {
      var d := NatToString(n);
      assert IsDigit(d[0]);
      AllDigitsLeading(d);
      assert d[..|d|] == d;
      NatToStringValue(n);
    }
  }
}
