/** ASCII decimal rendering of naturals (what `format!("{}", n)` produces) and its inverse. */
module Decimal {
  import opened Bytes

  const ZERO: byte := 0x30

  predicate IsDigit(b: byte) {
    ZERO <= b <= 0x39
  }

  predicate AllDigits(s: seq<byte>) {
    forall i :: 0 <= i < |s| ==> IsDigit(s[i])
  }

  /** A rendering `format!` can produce: non-empty, digits only, no leading zero except `0` itself. */
  predicate Canonical(s: seq<byte>) {
    |s| >= 1 && AllDigits(s) && (s[0] == ZERO ==> |s| == 1)
  }

  function DigitByte(d: nat): (b: byte)
    requires d < 10
    ensures IsDigit(b)
  {
    ZERO + d as byte
  }

  function DigitValue(b: byte): nat
    requires IsDigit(b)
  {
    (b - ZERO) as nat
  }

  /** Decimal digits of `n`, most significant first. */
  function Digits(n: nat): (r: seq<byte>)
    ensures Canonical(r)
    ensures n < 10 <==> |r| == 1
    decreases n
  {
    if n < 10 then [DigitByte(n)] else Digits(n / 10) + [DigitByte(n % 10)]
  }

  /** The number a string of digits denotes. */
  function Value(s: seq<byte>): nat
    requires AllDigits(s)
    decreases |s|
  {
    if |s| == 0 then 0 else Value(s[..|s| - 1]) * 10 + DigitValue(s[|s| - 1])
  }

  /** Rendering then reading back gives the number again. */
  lemma {:induction false} ValueOfDigits(n: nat)
    ensures Value(Digits(n)) == n
    decreases n
  {
    DigitValueOfByte(n % 10);
    if n < 10 {
      assert Digits(n)[..0] == [];
    } else {
      var r := Digits(n);
      assert r[..|r| - 1] == Digits(n / 10);
      ValueOfDigits(n / 10);
    }
  }

  /** A canonical digit string without a leading zero denotes a positive number. */
  lemma {:induction false} ValuePositive(s: seq<byte>)
    requires |s| >= 1 && AllDigits(s) && s[0] != ZERO
    ensures Value(s) >= 1
    decreases |s|
  {
    if |s| > 1 {
      ValuePositive(s[..|s| - 1]);
    }
  }

  /** Reading then rendering gives the canonical string back. */
  lemma {:induction false} DigitsOfValue(s: seq<byte>)
    requires Canonical(s)
    ensures Digits(Value(s)) == s
    decreases |s|
  {
    if |s| == 1 {
      DigitRoundTrip(s[0]);
      assert s == [s[0]];
      assert s[..0] == [];
    } else {
      var t := s[..|s| - 1];
      var c := s[|s| - 1];
      assert s == t + [c];
      var d := DigitValue(c);
      DigitRoundTrip(c);
      var q := Value(t);
      assert Value(s) == q * 10 + d;
      assert q >= 1 by {
        assert t[0] == s[0];
        ValuePositive(t);
      }
      assert Digits(q) == t by {
        DigitsOfValue(t);
      }
      DigitsAppend(q, d);
    }
  }

  lemma DigitValueOfByte(d: nat)
    requires d < 10
    ensures DigitValue(DigitByte(d)) == d
  {
  }

  lemma DigitRoundTrip(c: byte)
    requires IsDigit(c)
    ensures DigitValue(c) < 10 && DigitByte(DigitValue(c)) == c
  {
  }

  /** Appending a digit to a positive number's rendering renders the number times ten plus that digit. */
  lemma DigitsAppend(q: nat, d: nat)
    requires q >= 1 && d < 10
    ensures Digits(q * 10 + d) == Digits(q) + [DigitByte(d)]
  {
  }

  /** Distinct numbers have distinct renderings. */
  lemma DigitsInjective(m: nat, n: nat)
    requires Digits(m) == Digits(n)
    ensures m == n
  {
    ValueOfDigits(m);
    ValueOfDigits(n);
  }
}
