/** Decimal rendering of numbers: JavaScript's `String(n)` and Python's `str(n)`
    for integers, and `padStart` with zeros, together with the value a digit
    string denotes. */
module Decimal {

  predicate IsDigit(c: char) {
    '0' <= c <= '9'
  }

  predicate AllDigits(s: string) {
    forall i :: 0 <= i < |s| ==> IsDigit(s[i])
  }

  function DigitChar(d: nat): (c: char)
    requires d < 10
    ensures IsDigit(c)
  {
    "0123456789"[d]
  }

  function DigitValue(c: char): (d: nat)
    requires IsDigit(c)
    ensures d < 10
  {
    c as int - '0' as int
  }

  lemma DigitRoundTrip(d: nat)
    requires d < 10
    ensures DigitValue(DigitChar(d)) == d
  {
  }

  /** The number a string of decimal digits denotes (the empty string denotes 0). */
  function Value(s: string): nat
    requires AllDigits(s)
  {
    if s == [] then 0 else Value(s[..|s| - 1]) * 10 + DigitValue(s[|s| - 1])
  }

  /** `String(n)` for a natural number: its digits, most significant first, with no leading zero. */
  function FromNat(n: nat): (s: string)
    ensures 1 <= |s|
    ensures AllDigits(s)
    ensures |s| > 1 ==> s[0] != '0'
  {
    if n < 10 then [DigitChar(n)] else FromNat(n / 10) + [DigitChar(n % 10)]
  }

  /** `str(i)` for a Python integer. */
  function FromInt(i: int): (s: string)
    ensures 1 <= |s|
    ensures i < 0 <==> s[0] == '-'
  {
    if i < 0 then "-" + FromNat(-i) else FromNat(i)
  }

  function Zeros(k: nat): (s: string)
    ensures |s| == k
    ensures forall i :: 0 <= i < k ==> s[i] == '0'
  {
    if k == 0 then [] else Zeros(k - 1) + "0"
  }

  /** `s.padStart(width, "0")`: zeros in front until the string is `width` long. */
  function PadStart(s: string, width: nat): (r: string)
    ensures |r| == if |s| < width then width else |s|
    ensures r[|r| - |s|..] == s
    ensures forall i :: 0 <= i < |r| - |s| ==> r[i] == '0'
  {
    if |s| < width then Zeros(width - |s|) + s else s
  }

  /** `String(n).padStart(3, "0")`, the suffix of the identifiers the pages
      generate: `String(n)` when it has three digits or more, otherwise
      widened to exactly three. */
  function Pad3(n: nat): (s: string)
    ensures |s| >= 3
    ensures |s| == if |FromNat(n)| < 3 then 3 else |FromNat(n)|
    ensures AllDigits(s)
    ensures Value(s) == n
  {
    ValueOfFromNat(n);
    LeadingZeros(if |FromNat(n)| < 3 then 3 - |FromNat(n)| else 0, FromNat(n));
    PadStart(FromNat(n), 3)
  }

  lemma {:induction false} ValueOfFromNat(n: nat)
    ensures Value(FromNat(n)) == n
    decreases n
  {
    if n >= 10 {
      var s := FromNat(n);
      assert s[..|s| - 1] == FromNat(n / 10);
      ValueOfFromNat(n / 10);
      DigitRoundTrip(n % 10);
    } else {
      DigitRoundTrip(n);
    }
  }

  lemma {:induction false} ValueOfZeros(k: nat)
    ensures AllDigits(Zeros(k)) && Value(Zeros(k)) == 0
  {
    if k > 0 {
      assert Zeros(k)[..k - 1] == Zeros(k - 1);
      ValueOfZeros(k - 1);
    }
  }

  /** Leading zeros do not change the number a digit string denotes. */
  lemma {:induction false} LeadingZeros(k: nat, s: string)
    requires AllDigits(s)
    ensures AllDigits(Zeros(k) + s)
    ensures Value(Zeros(k) + s) == Value(s)
    decreases |s|
  {
    var z := Zeros(k) + s;
    if s == [] {
      assert z == Zeros(k);
      ValueOfZeros(k);
    } else {
      assert z[..|z| - 1] == Zeros(k) + s[..|s| - 1];
      LeadingZeros(k, s[..|s| - 1]);
    }
  }

  /** Distinct numbers get distinct padded identifiers. */
  lemma Pad3Injective(a: nat, b: nat)
    ensures Pad3(a) == Pad3(b) <==> a == b
  {
  }

  /** Identifiers built as a fixed prefix followed by `Pad3(n)` ("T007",
      "RX012", "DOC003") are equal exactly when their numbers are. */
  lemma PrefixedPad3Injective(prefix: string, a: nat, b: nat)
    ensures prefix + Pad3(a) == prefix + Pad3(b) <==> a == b
  {
    if prefix + Pad3(a) == prefix + Pad3(b) {
      assert (prefix + Pad3(a))[|prefix|..] == Pad3(a);
      assert (prefix + Pad3(b))[|prefix|..] == Pad3(b);
      Pad3Injective(a, b);
    }
  }

  /** `s` is `prefix` followed by a non-empty run of digits. */
  predicate HasNumber(prefix: string, s: string)
  {
    |s| > |prefix| && s[..|prefix|] == prefix && AllDigits(s[|prefix|..])
  }

  /** The number after the prefix of such an identifier. */
  function NumberOf(prefix: string, s: string): nat
    requires HasNumber(prefix, s)
  {
    Value(s[|prefix|..])
  }

  /** Reading the number back from `prefix + Pad3(n)` gives `n`. */
  lemma NumberOfPadded(prefix: string, n: nat)
    ensures HasNumber(prefix, prefix + Pad3(n))
    ensures NumberOf(prefix, prefix + Pad3(n)) == n
  {
    var s := prefix + Pad3(n);
    assert s[..|prefix|] == prefix;
    assert s[|prefix|..] == Pad3(n);
  }
}
