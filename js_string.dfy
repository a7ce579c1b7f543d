/** Models of the ECMAScript string and number built-ins the components call:
    `String.prototype.toLowerCase` (restricted to ASCII), `String.prototype.includes`,
    `String.prototype.padStart` and `Number.prototype.toString()` for integers of safe size. */
module JsString {

  predicate IsUpper(c: char) { 'A' <= c <= 'Z' }

  /** ASCII lower-casing of one character; every non-letter is kept. */
  function LowerChar(c: char): (r: char)
    ensures !IsUpper(r)
    ensures IsUpper(c) || r == c
  {
    if IsUpper(c) then (c as int - 'A' as int + 'a' as int) as char else c
  }

  /** `s.toLowerCase()`, character by character. */
  function ToLowerCase(s: string): (r: string)
    ensures |r| == |s|
    ensures forall i :: 0 <= i < |s| ==> r[i] == LowerChar(s[i])
  {
    if s == [] then [] else [LowerChar(s[0])] + ToLowerCase(s[1..])
  }

  predicate IsLowered(s: string) {
    forall i :: 0 <= i < |s| ==> !IsUpper(s[i])
  }

  /** Lower-casing an already lower-cased string changes nothing. */
  lemma ToLowerCaseIdempotent(s: string)
    ensures IsLowered(ToLowerCase(s))
    ensures ToLowerCase(ToLowerCase(s)) == ToLowerCase(s)
  {
  }

  /** `pat` occurs in `s` starting at index `k`. */
  predicate OccursAt(s: string, pat: string, k: int) {
    0 <= k && k + |pat| <= |s| && s[k..k + |pat|] == pat
  }

  /** `s.includes(pat)`: some index of `s` starts an occurrence of `pat`.
      Every string includes the empty string, and none includes a longer one. */
  predicate Includes(s: string, pat: string): (b: bool)
    ensures pat == "" ==> b
    ensures b ==> |pat| <= |s|
  {
    assert pat == "" ==> OccursAt(s, pat, 0);
    exists k :: 0 <= k <= |s| - |pat| && OccursAt(s, pat, k)
  }

  /** `n` copies of `c`. */
  function Repeat(c: char, n: nat): (r: string)
    ensures |r| == n
    ensures forall i :: 0 <= i < n ==> r[i] == c
  {
    seq(n, _ => c)
  }

  function Max(a: int, b: int): int { if a < b then b else a }

  /** `s.padStart(maxLength, fill)` with a one-character fill string: when `s` is
      shorter than `maxLength` it is prefixed with `fill` up to that length,
      otherwise it is returned unchanged (ECMA-262, StringPad at the start). */
  function PadStart(s: string, maxLength: int, fill: char): (r: string)
    ensures |r| == Max(maxLength, |s|)
    ensures r[|r| - |s|..] == s
    ensures forall i :: 0 <= i < |r| - |s| ==> r[i] == fill
  {
    if maxLength <= |s| then s else Repeat(fill, maxLength - |s|) + s
  }

  predicate IsDigit(c: char) { '0' <= c <= '9' }

  predicate AllDigits(s: string) {
    forall i :: 0 <= i < |s| ==> IsDigit(s[i])
  }

  function DigitChar(d: nat): (c: char)
    requires d < 10
    ensures IsDigit(c)
    ensures (c == '0') == (d == 0)
  {
    ('0' as int + d) as char
  }

  function DigitValue(c: char): (d: nat)
    requires IsDigit(c)
    ensures d < 10
  {
    c as int - '0' as int
  }

  /** The decimal digits of `n`, most significant first, without leading zeros. */
  function Digits(n: nat): (r: string)
    ensures |r| >= 1
    ensures AllDigits(r)
    ensures r[0] == '0' ==> n == 0
  {
    if n < 10 then [DigitChar(n)] else Digits(n / 10) + [DigitChar(n % 10)]
  }

  /** `n.toString()` for an integer `n`: a minus sign for negatives, then the digits. */
  function NumberToString(n: int): (r: string)
    ensures n >= 0 ==> r == Digits(n)
    ensures n < 0 ==> |r| >= 2 && r[0] == '-' && r[1..] == Digits(-n)
  {
    if n < 0 then "-" + Digits(-n) else Digits(n)
  }

  /** The number a string of decimal digits denotes, leading zeros included. */
  function DecimalValue(s: string): nat
    requires AllDigits(s)
  {
    if s == [] then 0 else DecimalValue(s[..|s| - 1]) * 10 + DigitValue(s[|s| - 1])
  }

  /** Reading the digits of `n` back gives `n`. */
  lemma {:induction false} DecimalValueOfDigits(n: nat)
    ensures DecimalValue(Digits(n)) == n
  {
    if n >= 10 {
      var d := Digits(n);
      assert d[..|d| - 1] == Digits(n / 10);
      DecimalValueOfDigits(n / 10);
    }
  }

  /** A leading `'0'` does not change the value of a digit string. */
  lemma {:induction false} DecimalValueLeadingZero(s: string)
    requires AllDigits(s)
    ensures AllDigits(['0'] + s)
    ensures DecimalValue(['0'] + s) == DecimalValue(s)
  {
    var t := ['0'] + s;
    if s != [] {
      assert t[..|t| - 1] == ['0'] + s[..|s| - 1];
      DecimalValueLeadingZero(s[..|s| - 1]);
    }
  }

  /** Any run of leading `'0'` characters leaves the value unchanged. */
  lemma {:induction false} DecimalValueLeadingZeros(n: nat, s: string)
    requires AllDigits(s)
    ensures AllDigits(Repeat('0', n) + s)
    ensures DecimalValue(Repeat('0', n) + s) == DecimalValue(s)
  {
    if n > 0 {
      DecimalValueLeadingZeros(n - 1, s);
      assert Repeat('0', n) + s == ['0'] + (Repeat('0', n - 1) + s);
      DecimalValueLeadingZero(Repeat('0', n - 1) + s);
    } else {
      assert Repeat('0', n) + s == s;
    }
  }

  /** Drops every leading `'0'`. */
  function StripLeadingZeros(s: string): (r: string)
    ensures |r| <= |s|
    ensures r == s[|s| - |r|..]
    ensures r != [] ==> r[0] != '0'
  {
    if s != [] && s[0] == '0' then StripLeadingZeros(s[1..]) else s
  }

  /** Stripping the zeros that were put in front of a string not starting with `'0'` gives it back. */
  lemma {:induction false} StripRepeatedZeros(n: nat, s: string)
    requires s != [] && s[0] != '0'
    ensures StripLeadingZeros(Repeat('0', n) + s) == s
  {
    if n > 0 {
      assert (Repeat('0', n) + s)[1..] == Repeat('0', n - 1) + s;
      StripRepeatedZeros(n - 1, s);
    } else {
      assert Repeat('0', n) + s == s;
    }
  }

  /** A number of at least 100 has at least three digits; one below 100 has at most two. */
  lemma DigitsLength(n: nat)
    ensures n >= 100 ==> |Digits(n)| >= 3
    ensures n < 100 ==> |Digits(n)| <= 2
  {
  }
}
