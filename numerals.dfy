/** Numerals as the C++ standard library reads and writes them: `std::stoi` (which reads
    through `strtol`) and `std::to_string`. */
module Numerals {

  const INT_MIN: int := -0x8000_0000
  const INT_MAX: int := 0x7FFF_FFFF

  /** The value `strtol` gives a character as a digit: 0-9, then a/A = 10 up to z/Z = 35;
      36 marks a character that is no digit in any base. */
  function DigitValue(c: char): (d: nat)
    ensures d <= 36
  {
    if '0' <= c <= '9' then c as int - '0' as int
    else if 'a' <= c <= 'z' then c as int - 'a' as int + 10
    else if 'A' <= c <= 'Z' then c as int - 'A' as int + 10
    else 36
  }

  predicate IsDigitIn(c: char, base: nat) {
    DigitValue(c) < base
  }

  /** `isspace` in the C locale. */
  predicate IsSpace(c: char) {
    c == ' ' || c == '\t' || c == '\n' || c == '\r' || c == '\U{B}' || c == '\U{C}'
  }

  /** The end of the run of white space that starts at `k`. */
  function SpaceEnd(s: string, k: nat): (e: nat)
    requires k <= |s|
    ensures k <= e <= |s|
    decreases |s| - k
  {
    if k < |s| && IsSpace(s[k]) then SpaceEnd(s, k + 1) else k
  }

  /** The end of the run of digits of `base` that starts at `k`. */
  function DigitEnd(s: string, k: nat, base: nat): (e: nat)
    requires k <= |s|
    ensures k <= e <= |s|
    decreases |s| - k
  {
    if k < |s| && IsDigitIn(s[k], base) then DigitEnd(s, k + 1, base) else k
  }

  /** The value of the digits `s[lo..hi]`, most significant first. */
  function DigitsValue(s: string, lo: nat, hi: nat, base: nat): nat
    requires lo <= hi <= |s|
    decreases hi - lo
  {
    if hi == lo then 0 else DigitsValue(s, lo, hi - 1, base) * base + DigitValue(s[hi - 1])
  }

  /** `0x` or `0X` at `k`, followed by a hexadecimal digit: the prefix `strtol` skips in base 16. */
  predicate HexPrefixAt(s: string, k: nat) {
    k + 3 <= |s| && s[k] == '0' && (s[k + 1] == 'x' || s[k + 1] == 'X') && IsDigitIn(s[k + 2], 16)
  }

  /** What `std::stoi` does: a value, or one of the two exceptions it throws. */
  datatype StoiResult = Converted(value: int) | InvalidArgument | OutOfRange

  /** `std::stoi(s, nullptr, base)`: skip white space, take an optional sign (and in base 16 an
      optional `0x`), then the longest run of digits; the characters after it are ignored.
      No digit at all is `std::invalid_argument`; a value outside `int` is `std::out_of_range`. */
  function Stoi(s: string, base: nat): (r: StoiResult)
    requires 2 <= base <= 36
    ensures r.Converted? ==> INT_MIN <= r.value <= INT_MAX
  {
    var k0 := SpaceEnd(s, 0);
    var negative := k0 < |s| && s[k0] == '-';
    var k1 := if k0 < |s| && (s[k0] == '-' || s[k0] == '+') then k0 + 1 else k0;
    var k2 := if base == 16 && HexPrefixAt(s, k1) then k1 + 2 else k1;
    var e := DigitEnd(s, k2, base);
    if e == k2 then InvalidArgument
    else
      var magnitude := DigitsValue(s, k2, e, base);
      var v: int := if negative then -(magnitude as int) else magnitude;
      if v < INT_MIN || v > INT_MAX then OutOfRange else Converted(v)
  }

  /** The digit character of `d`, lower case for 10..15. */
  function DigitChar(d: nat): (c: char)
    requires d < 16
    ensures DigitValue(c) == d
  {
    "0123456789abcdef"[d]
  }

  /** The numeral of `v` in `base` without leading zeros; `std::to_string` is base 10. */
  function Numeral(v: nat, base: nat): (s: string)
    requires 2 <= base <= 16
    ensures |s| >= 1
    decreases v
  {
    if v < base then [DigitChar(v)] else Numeral(v / base, base) + [DigitChar(v % base)]
  }

  /** Every character of a numeral is a digit of its base. */
  lemma {:induction false} NumeralDigits(v: nat, base: nat)
    requires 2 <= base <= 16
    ensures forall i :: 0 <= i < |Numeral(v, base)| ==> IsDigitIn(Numeral(v, base)[i], base)
    decreases v
  {
    if v >= base {
      NumeralDigits(v / base, base);
    }
  }

  /** Reading a numeral gives its number back. */
  lemma {:induction false} NumeralValue(v: nat, base: nat)
    requires 2 <= base <= 16
    ensures DigitsValue(Numeral(v, base), 0, |Numeral(v, base)|, base) == v
    decreases v
  {
    if v >= base {
      var q, r := v / base, v % base;
      var s, prefix := Numeral(v, base), Numeral(q, base);
      DivMod(v, base);
      NumeralValue(q, base);
      assert s == prefix + [DigitChar(r)];
      DigitsValueAgree(s, prefix, 0, |prefix|, base);
      assert DigitsValue(s, 0, |s|, base) == q * base + r;
    }
  }

  /** The value of a run of digits depends only on those digits. */
  lemma {:induction false} DigitsValueAgree(s: string, t: string, lo: nat, hi: nat, base: nat)
    requires lo <= hi <= |s| && hi <= |t|
    requires forall j :: lo <= j < hi ==> s[j] == t[j]
    ensures DigitsValue(s, lo, hi, base) == DigitsValue(t, lo, hi, base)
    decreases hi - lo
  {
    if hi > lo {
      DigitsValueAgree(s, t, lo, hi - 1, base);
    }
  }

  /** A run of digits that reaches the end of the string ends there. */
  lemma {:induction false} DigitEndAll(s: string, k: nat, base: nat)
    requires k <= |s|
    requires forall j :: k <= j < |s| ==> IsDigitIn(s[j], base)
    ensures DigitEnd(s, k, base) == |s|
    decreases |s| - k
  {
    if k < |s| {
      DigitEndAll(s, k + 1, base);
    }
  }

  lemma DivMod(v: nat, base: nat)
    requires base > 0
    ensures v == v / base * base + v % base
    ensures base >= 2 && v > 0 ==> v / base < v
  {
  }

  /** A numeral starts with `0` only when it is the numeral of zero. */
  lemma {:induction false} NumeralLeadingDigit(v: nat, base: nat)
    requires 2 <= base <= 16
    ensures Numeral(v, base)[0] == '0' ==> v == 0
    decreases v
  {
    if v >= base {
      NumeralLeadingDigit(v / base, base);
    }
  }

  /** `std::stoi` reads back the numeral of every non-negative `int`. */
  lemma StoiNumeral(v: nat, base: nat)
    requires 2 <= base <= 16 && v <= INT_MAX
    ensures Stoi(Numeral(v, base), base) == Converted(v)
  {
    var s := Numeral(v, base);
    NumeralDigits(v, base);
    assert SpaceEnd(s, 0) == 0 by {
      assert !IsSpace(s[0]);
    }
    NumeralLeadingDigit(v, base);
    assert !HexPrefixAt(s, 0) by {
      assert s[0] == '0' ==> |s| == 1;
    }
    DigitEndAll(s, 0, base);
    NumeralValue(v, base);
  }

  /** Different numbers have different numerals, so labels numbered by `std::to_string` differ. */
  lemma NumeralInjective(u: nat, v: nat, base: nat)
    requires 2 <= base <= 16
    ensures Numeral(u, base) == Numeral(v, base) ==> u == v
  {
    NumeralValue(u, base);
    NumeralValue(v, base);
  }
}
