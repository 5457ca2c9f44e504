/**
 Digit strings in two bases and the in-place long division that converts
 between them.
 */
module Radix {

  /** The two bases of the conversion. */
  predicate IsBase(b: nat) {
    b == 10 || b == 32
  }

  /** Value of a digit string, most significant digit first. */
  function Value(s: seq<nat>, base: nat): nat {
    if s == [] then 0 else Value(s[..|s| - 1], base) * base + s[|s| - 1]
  }

  /** x divided n times by the base. */
  function Quotient(x: nat, base: nat, n: nat): nat
    requires 0 < base
  {
    if n == 0 then x else Quotient(x, base, n - 1) / base
  }

  /** The n low digits of x, least significant first. */
  function Digits(x: nat, base: nat, n: nat): (s: seq<nat>)
    requires 0 < base
    ensures |s| == n
    ensures forall k | 0 <= k < n :: s[k] < base
  {
    seq(n, k requires 0 <= k < n => Quotient(x, base, k) % base)
  }

  function Reverse<T>(s: seq<T>): (r: seq<T>)
    ensures |r| == |s|
    ensures forall k | 0 <= k < |s| :: r[k] == s[|s| - 1 - k]
  {
    seq(|s|, k requires 0 <= k < |s| => s[|s| - 1 - k])
  }

  function Pow(base: nat, n: nat): nat {
    if n == 0 then 1 else base * Pow(base, n - 1)
  }

  // ----- the division step

  /**
   One pass of long division over the first length digits of a: they are
   replaced by the digits of the quotient, without leading zeros, and the
   remainder is returned. The write position never passes the read position.
   */
  method DivideInPlace(a: array<nat>, length: nat, base: nat, divisor: nat) returns (newLength: nat, digit: nat)
    requires length <= a.Length && IsBase(base) && IsBase(divisor)
    requires forall k | 0 <= k < length :: a[k] < base
    modifies a
    ensures newLength <= length
    ensures Value(a[..newLength], base) == Value(old(a[..length]), base) / divisor
    ensures digit == Value(old(a[..length]), base) % divisor
    ensures forall k | 0 <= k < newLength :: a[k] < base
    ensures newLength > 0 ==> a[0] > 0
    ensures forall k | length <= k < a.Length :: a[k] == old(a[k])
  {
    hide Value, IsDivision;
    newLength, digit := 0, 0;
    ghost var was := a[..length];
    EmptyDivision(base, divisor);
    assert was[..0] == [] && a[..0] == [];
    for i := 0 to length
      invariant newLength <= i
      invariant forall k | i <= k < a.Length :: a[k] == old(a[k])
      invariant forall k | 0 <= k < newLength :: a[k] < base
      invariant newLength > 0 ==> a[0] > 0
      invariant IsDivision(Value(was[..i], base), Value(a[..newLength], base), divisor, digit)
    {
      ghost var quotient := a[..newLength];
      BringDown(was, i, quotient, digit, base, divisor);
      digit := digit * base + a[i];
      if digit >= divisor {
        a[newLength] := digit / divisor;
        digit := digit % divisor;
        newLength := newLength + 1;
        assert a[..newLength] == quotient + [a[newLength - 1]];
      } else if newLength > 0 {
        a[newLength] := 0;
        newLength := newLength + 1;
        assert a[..newLength] == quotient + [0];
      }
    }
    assert was[..length] == was;
    DivisionResult(Value(was, base), Value(a[..newLength], base), divisor, digit);
  }

  /** v divided by the divisor is q with remainder r. */
  predicate IsDivision(v: nat, q: nat, divisor: nat, r: nat) {
    v == q * divisor + r && r < divisor
  }

  lemma EmptyDivision(base: nat, divisor: nat)
    requires 0 < divisor
    ensures IsDivision(Value([], base), Value([], base), divisor, 0)
  {
  }

  lemma DivisionResult(v: nat, q: nat, divisor: nat, r: nat)
    requires IsBase(divisor) && IsDivision(v, q, divisor, r)
    ensures v / divisor == q && v % divisor == r
  {
    QuotientUnique(v, divisor, q, r);
  }

  /** Bringing down digit i of the dividend, in the three cases of the loop body. */
  lemma BringDown(was: seq<nat>, i: nat, quotient: seq<nat>, r: nat, base: nat, divisor: nat)
    requires IsBase(base) && IsBase(divisor) && i < |was| && was[i] < base
    requires IsDivision(Value(was[..i], base), Value(quotient, base), divisor, r)
    ensures var d := r * base + was[i]; var v := Value(was[..i + 1], base);
            && d / divisor < base
            && (d >= divisor ==> d / divisor > 0)
            && IsDivision(v, Value(quotient + [d / divisor], base), divisor, d % divisor)
            && (d < divisor ==> IsDivision(v, Value(quotient + [0], base), divisor, d))
            && (d < divisor && quotient == [] ==> IsDivision(v, Value(quotient, base), divisor, d))
  {
    hide IsDivision, Value;
    var d := r * base + was[i];
    assert was[..i + 1] == was[..i] + [was[i]];
    ValueSnoc(was[..i], was[i], base);
    ValueSnoc(quotient, d / divisor, base);
    ValueSnoc(quotient, 0, base);
    ValueEmpty(base);
    DivisionStep(Value(was[..i], base), Value(quotient, base), divisor, r, base, was[i]);
  }

  lemma ValueSnoc(s: seq<nat>, c: nat, base: nat)
    ensures Value(s + [c], base) == Value(s, base) * base + c
  {
    assert (s + [c])[..|s|] == s;
  }

  lemma ValueEmpty(base: nat)
    ensures Value([], base) == 0
  {
  }

  lemma DivisionStep(v: nat, q: nat, divisor: nat, r: nat, base: nat, c: nat)
    requires IsBase(base) && IsBase(divisor) && IsDivision(v, q, divisor, r) && c < base
    ensures var d := r * base + c;
            && d / divisor < base
            && (d >= divisor ==> d / divisor > 0)
            && IsDivision(v * base + c, q * base + d / divisor, divisor, d % divisor)
            && (d < divisor ==> IsDivision(v * base + c, q * base + 0, divisor, d))
            && (d < divisor && q == 0 ==> IsDivision(v * base + c, q, divisor, d))
  {
    if base == 10 {
      if divisor == 32 { } else { }
    } else if divisor == 32 {
    } else {
    }
  }

  lemma QuotientUnique(v: nat, divisor: nat, q: nat, r: nat)
    requires IsBase(divisor) && v == q * divisor + r && r < divisor
    ensures v / divisor == q && v % divisor == r
  {
    if divisor == 10 { } else { }
  }

  /** A digit string without leading zero and of positive length has a positive value. */
  lemma {:induction false} LeadingDigit(s: seq<nat>, base: nat)
    requires |s| > 0 && s[0] > 0 && IsBase(base)
    ensures Value(s, base) > 0
  {
    if |s| == 1 {
    } else {
      LeadingDigit(s[..|s| - 1], base);
    }
  }

  // ----- digits determine the number and conversely

  lemma QuotientZero(x: nat, base: nat)
    requires IsBase(base)
    ensures Quotient(x, base, 0) == x
  {
  }

  lemma {:induction false} QuotientShift(x: nat, base: nat, n: nat)
    requires IsBase(base)
    ensures Quotient(x / base, base, n) == Quotient(x, base, n + 1)
  {
    if n == 0 {
    } else {
      QuotientShift(x, base, n - 1);
    }
  }

  lemma {:induction false} QuotientBound(x: nat, base: nat, n: nat)
    requires IsBase(base) && x < Pow(base, n)
    ensures Quotient(x, base, n) == 0
  {
    if n == 0 {
    } else {
      assert x / base < Pow(base, n - 1) by {
        var p := Pow(base, n - 1);
        if base == 10 { assert x < 10 * p; } else { assert x < 32 * p; }
      }
      QuotientBound(x / base, base, n - 1);
      QuotientShift(x, base, n - 1);
    }
  }

  lemma {:induction false} QuotientStaysZero(x: nat, base: nat, n: nat, m: nat)
    requires IsBase(base) && n <= m && Quotient(x, base, n) == 0
    ensures Quotient(x, base, m) == 0
  {
    if n == m {
    } else {
      QuotientStaysZero(x, base, n, m - 1);
      QuotientUnique(0, base, 0, 0);
    }
  }

  lemma {:induction false} DigitsCons(x: nat, base: nat, n: nat)
    requires IsBase(base)
    ensures Digits(x, base, n + 1) == [x % base] + Digits(x / base, base, n)
  {
    forall k | 0 <= k < n
      ensures Quotient(x / base, base, k) == Quotient(x, base, k + 1)
    {
      QuotientShift(x, base, k);
    }
  }

  /** The value of the digits of x, once the quotient is exhausted, is x. */
  lemma {:induction false} ValueOfDigits(x: nat, base: nat, n: nat)
    requires IsBase(base) && Quotient(x, base, n) == 0
    ensures Value(Reverse(Digits(x, base, n)), base) == x
  {
    hide Quotient, Value;
    if n == 0 {
      QuotientZero(x, base);
      ValueEmpty(base);
      assert Reverse(Digits(x, base, 0)) == [];
    } else {
      QuotientShift(x, base, n - 1);
      ValueOfDigits(x / base, base, n - 1);
      DigitsCons(x, base, n - 1);
      AppendRemainder(Reverse(Digits(x, base, n)), Reverse(Digits(x / base, base, n - 1)), x, base);
    }
  }

  lemma AppendRemainder(r: seq<nat>, s: seq<nat>, x: nat, base: nat)
    requires IsBase(base) && r == s + [x % base] && Value(s, base) == x / base
    ensures Value(r, base) == x
  {
    ValueSnoc(s, x % base, base);
    if base == 10 { } else { }
  }

  /** The digits of the value of a digit string are that string. */
  lemma {:induction false} DigitsOfValue(s: seq<nat>, base: nat)
    requires IsBase(base) && forall k | 0 <= k < |s| :: s[k] < base
    ensures Digits(Value(Reverse(s), base), base, |s|) == s
  {
    if s == [] {
    } else {
      var r, v := Reverse(s), Value(Reverse(s[1..]), base);
      DigitsOfValue(s[1..], base);
      assert r[..|r| - 1] == Reverse(s[1..]);
      QuotientUnique(Value(r, base), base, v, s[0]);
      DigitsCons(Value(r, base), base, |s| - 1);
    }
  }
}
