/** How numbers are written: the texts strconv's ParseInt and ParseUint read as one number are its
    decimal digits with any zeros and, for ParseInt, a sign in front. */
module Numerals {
  import opened Text

  predicate Zeros(s: string) {
    forall i :: 0 <= i < |s| ==> s[i] == '0'
  }

  /** The decimal digits of n, with any zeros in front. */
  predicate DigitsOf(s: string, n: nat) {
    && |s| >= |Decimal(n)|
    && Zeros(s[..|s| - |Decimal(n)|])
    && s[|s| - |Decimal(n)|..] == Decimal(n)
  }

  lemma {:induction false} ZerosCount(z: string, d: string)
    requires Zeros(z) && AllDigits(d)
    ensures AllDigits(z + d) && DigitsValue(z + d) == DigitsValue(d)
    decreases |d|, |z|
  {
    if d != [] {
      var n := |d| - 1;
      assert (z + d)[..|z| + n] == z + d[..n];
      ZerosCount(z, d[..n]);
    } else if z != [] {
      var n := |z| - 1;
      assert (z + d)[..n] == z[..n] + d && z + d == z;
      ZerosCount(z[..n], d);
    }
  }

  lemma {:induction false} DigitsRead(s: string, n: nat)
    requires DigitsOf(s, n)
    ensures s != [] && AllDigits(s) && DigitsValue(s) == n
  {
    var k := |s| - |Decimal(n)|;
    assert s == s[..k] + Decimal(n);
    DecimalValue(n);
    ZerosCount(s[..k], Decimal(n));
  }

  lemma DecimalNext(n: nat)
    ensures |Decimal(n)| > 1 <==> n >= 10
    ensures n < 10 ==> Decimal(n) == [('0' as int + n) as char]
  {
  }

  lemma {:induction false} DigitsAre(s: string)
    requires s != [] && AllDigits(s)
    ensures DigitsOf(s, DigitsValue(s))
  {
    var k, n := |s| - 1, DigitsValue(s);
    var front, v := s[..k], DigitsValue(s[..k]);
    assert s == front + [s[k]];
    assert n == 10 * v + Digit(s[k]) && n / 10 == v && n % 10 == Digit(s[k]);
    if front == [] {
      assert v == 0;
    } else {
      DigitsAre(front);
      DecimalNext(v);
      if n >= 10 {
        assert Decimal(n) == Decimal(v) + [s[k]];
        assert s[..|s| - |Decimal(n)|] == front[..|front| - |Decimal(v)|];
      } else {
        assert front[..|front| - 1] + Decimal(0) == front;
      }
    }
  }

  /** The texts that are read as the integer i. */
  predicate Numeral(s: string, i: int) {
    || (i >= 0 && DigitsOf(s, i))
    || (s != [] && s[0] == '+' && i >= 0 && DigitsOf(s[1..], i))
    || (s != [] && s[0] == '-' && i <= 0 && DigitsOf(s[1..], -i))
  }

  lemma {:induction false} DigitsIff(s: string, n: nat)
    ensures s != [] && AllDigits(s) && DigitsValue(s) == n <==> DigitsOf(s, n)
  {
    if DigitsOf(s, n) {
      DigitsRead(s, n);
    }
    if s != [] && AllDigits(s) {
      DigitsAre(s);
    }
  }

  predicate InRange(i: int, bits: nat) {
    bits > 0 && 0 <= i + Pow2(bits - 1) && i < Pow2(bits - 1)
  }

  lemma {:induction false} ParseUintIff(s: string, bits: nat, i: int)
    ensures ParseUint(s, bits) == Some(i) <==> 0 <= i < Pow2(bits) && DigitsOf(s, i)
  {
    if i >= 0 {
      DigitsIff(s, i);
    }
  }

  /** ParseInt reads i exactly from the numerals of i, for i in range. */
  lemma {:induction false} ParseIntIff(s: string, bits: nat, i: int)
    ensures ParseInt(s, bits) == Some(i) <==> InRange(i, bits) && Numeral(s, i)
  {
    var signed := s != [] && (s[0] == '+' || s[0] == '-');
    var digits := if signed then s[1..] else s;
    var n := if i < 0 then -i else i;
    DigitsIff(digits, n);
    if signed && i >= 0 {
      DigitsIff(s, i);
      assert !IsDigit(s[0]);
    }
  }

  /** fmt's %d of an integer. */
  function Signed(i: int): string {
    if i < 0 then ['-'] + Decimal(-i) else Decimal(i)
  }

  lemma SignedIsNumeral(i: int)
    ensures Numeral(Signed(i), i)
    ensures i >= 0 ==> DigitsOf(Signed(i), i)
  {
    if i < 0 {
      assert Signed(i)[1..] == Decimal(-i);
    }
  }
}
