/** Go's machine integers and the decimal parser behind query parameters and
    the Retry-After header. */
module Numerals {
  import opened Domain

  const TWO_63: int := 0x8000_0000_0000_0000
  const TWO_64: int := 0x1_0000_0000_0000_0000

  predicate IsInt64(x: int) {
    -TWO_63 <= x < TWO_63
  }

  /** Two's-complement wrap of an integer result to 64 bits. */
  function Wrap64(x: int): (w: int)
    ensures IsInt64(w) && (w - x) % TWO_64 == 0
    ensures IsInt64(x) ==> w == x
  {
    var m := x % TWO_64;
    if m < TWO_63 then m else m - TWO_64
  }

  lemma MulMonotone(a: nat, b: nat, c: nat)
    requires a <= b
    ensures a * c <= b * c
  {
    assert b * c == a * c + (b - a) * c;
  }

  predicate IsDigit(c: char) {
    '0' <= c <= '9'
  }

  predicate IsNumeral(s: string) {
    s != "" && forall i :: 0 <= i < |s| ==> IsDigit(s[i])
  }

  function DigitValue(c: char): nat
    requires IsDigit(c)
  {
    c as int - '0' as int
  }

  function NumeralValue(s: string): nat
    requires forall i :: 0 <= i < |s| ==> IsDigit(s[i])
  {
    if s == "" then 0 else 10 * NumeralValue(s[..|s| - 1]) + DigitValue(s[|s| - 1])
  }

  /** strconv.Atoi: an optional sign, decimal digits, and a value that fits in 64 bits. */
  function Atoi(s: string): Option<int> {
    var signed := s != "" && (s[0] == '+' || s[0] == '-');
    var digits := if signed then s[1..] else s;
    if !IsNumeral(digits) then None
    else
      var magnitude: int := NumeralValue(digits);
      var n := if signed && s[0] == '-' then -magnitude else magnitude;
      if IsInt64(n) then Some(n) else None
  }

  /** Only an optional sign and decimal digits parse. */
  lemma WhatAtoiAccepts(s: string)
    ensures Atoi(s).Some? ==>
              && s != ""
              && (var digits := if s[0] in {'+', '-'} then s[1..] else s;
                  digits != "" && forall i :: 0 <= i < |digits| ==> '0' <= digits[i] <= '9')
              && -0x8000_0000_0000_0000 <= Atoi(s).value <= 0x7fff_ffff_ffff_ffff
  {
  }

  /** The decimal rendering of a natural number. */
  function Decimal(n: nat): (s: string)
    ensures IsNumeral(s)
  {
    if n < 10 then [('0' as int + n) as char] else Decimal(n / 10) + Decimal(n % 10)
  }

  lemma {:induction false} NumeralValueOfDecimal(n: nat)
    ensures NumeralValue(Decimal(n)) == n
  {
    if n < 10 {
      var s := Decimal(n);
      assert s[..|s| - 1] == "";
    } else {
      NumeralValueOfDecimal(n / 10);
      var s := Decimal(n);
      var last := Decimal(n % 10);
      assert s[..|s| - 1] == Decimal(n / 10) && s[|s| - 1] == last[0];
    }
  }

  /** Rendering and parsing round-trip on everything that fits, and nothing larger parses. */
  lemma AtoiOfDecimal(n: nat)
    ensures Atoi(Decimal(n)) == if n < TWO_63 then Some(n) else None
  {
    NumeralValueOfDecimal(n);
  }

  /** A query parameter that holds a number: taken when it fits 64 bits and is not negative, with or
      without a plus sign; the default otherwise. Minus zero counts as zero. */
  lemma AtoiOrOfDecimal(n: nat, default: int)
    ensures AtoiOr(Decimal(n), default) == if n < TWO_63 then n else default
    ensures AtoiOr("+" + Decimal(n), default) == if n < TWO_63 then n else default
    ensures AtoiOr("-" + Decimal(n), default) == if n == 0 then 0 else default
  {
    hide Decimal, NumeralValue;
    NumeralValueOfDecimal(n);
    assert ("+" + Decimal(n))[1..] == Decimal(n) && ("-" + Decimal(n))[1..] == Decimal(n);
  }

  /** Query-parameter parsing: anything but a non-negative integer gives the default. */
  function AtoiOr(s: string, default: int): int {
    if s == "" then default
    else
      var n := Atoi(s);
      if n.None? || n.value < 0 then default else n.value
  }
}
