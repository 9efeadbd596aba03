/** Decimal digit strings: how an unsigned integer is printed and what a run of digits denotes. */
module Decimal {

  predicate IsDigit(c: char) {
    '0' <= c <= '9'
  }

  predicate AllDigits(s: string) {
    forall i :: 0 <= i < |s| ==> IsDigit(s[i])
  }

  function DigitChar(d: nat): (c: char)
    requires d < 10
    ensures IsDigit(c) && DigitValue(c) == d
  {
    "0123456789"[d]
  }

  function DigitValue(c: char): nat
    requires IsDigit(c)
  {
    c as int - '0' as int
  }

  /** value * 10^n */
  function Shift(value: nat, n: nat): (r: nat)
    ensures r >= value && (value == 0 ==> r == 0)
  {
    if n == 0 then value else 10 * Shift(value, n - 1)
  }

  /** The number a run of digits denotes, most significant digit first; the empty run denotes 0. */
  function Value(s: string): nat
    requires AllDigits(s)
  {
    if s == "" then 0 else 10 * Value(s[..|s| - 1]) + DigitValue(s[|s| - 1])
  }

  /** No superfluous zero in front. */
  predicate NoLeadingZero(s: string) {
    |s| >= 1 && (|s| > 1 ==> s[0] != '0')
  }

  /** The printed form of `n`. */
  function Digits(n: nat): (s: string)
    ensures AllDigits(s) && s != ""
  {
    if n < 10 then [DigitChar(n)] else Digits(n / 10) + [DigitChar(n % 10)]
  }

  /** Printing is exact and adds no superfluous zero. */
  lemma {:induction false} DigitsDenote(n: nat)
    ensures Value(Digits(n)) == n && NoLeadingZero(Digits(n))
    ensures n > 0 ==> Digits(n)[0] != '0'
  {
    var s := Digits(n);
    if n >= 10 {
      DigitsDenote(n / 10);
      assert s[..|s| - 1] == Digits(n / 10);
    } else {
      assert s[..0] == "";
    }
  }

  function Zeros(n: nat): (s: string)
    ensures |s| == n
    ensures forall i :: 0 <= i < n ==> s[i] == '0'
  {
    seq(n, _ => '0')
  }

  lemma {:induction false} ShiftTwice(value: nat, a: nat, b: nat)
    ensures Shift(Shift(value, a), b) == Shift(value, a + b)
  {
    if b > 0 {
      ShiftTwice(value, a, b - 1);
    }
  }

  lemma {:induction false} ShiftSum(x: nat, y: nat, n: nat)
    ensures Shift(x + y, n) == Shift(x, n) + Shift(y, n)
  {
    if n > 0 {
      ShiftSum(x, y, n - 1);
    }
  }

  /** Quotient and remainder by 10^n are determined by the number. */
  lemma {:induction false} ShiftQuotient(q: nat, r: nat, q': nat, r': nat, n: nat)
    requires r < Shift(1, n) && r' < Shift(1, n)
    requires Shift(q, n) + r == Shift(q', n) + r'
    ensures q == q' && r == r'
  {
    if q < q' {
      ShiftSum(q, q' - q - 1, n);
      ShiftSum(q' - 1, 1, n);
    } else if q' < q {
      ShiftSum(q', q - q' - 1, n);
      ShiftSum(q - 1, 1, n);
    }
  }

  lemma ShiftInjective(x: nat, y: nat, n: nat)
    requires Shift(x, n) == Shift(y, n)
    ensures x == y
  {
    ShiftQuotient(x, 0, y, 0, n);
  }

  lemma {:induction false} ValueAppend(a: string, b: string)
    requires AllDigits(a) && AllDigits(b)
    ensures AllDigits(a + b)
    ensures Value(a + b) == Shift(Value(a), |b|) + Value(b)
  {
    if b == "" {
      assert a + b == a;
    } else {
      ValueAppend(a, b[..|b| - 1]);
      assert (a + b)[..|a + b| - 1] == a + b[..|b| - 1];
    }
  }

  lemma {:induction false} ValueZeros(n: nat)
    ensures AllDigits(Zeros(n)) && Value(Zeros(n)) == 0
  {
    if n > 0 {
      ValueZeros(n - 1);
      assert Zeros(n)[..n - 1] == Zeros(n - 1);
    }
  }

  lemma {:induction false} ValueBelow(s: string)
    requires AllDigits(s)
    ensures Value(s) < Shift(1, |s|)
  {
    if s != "" {
      ValueBelow(s[..|s| - 1]);
    }
  }

  /** A non-zero first digit puts the value above every shorter run. */
  lemma {:induction false} ValueAtLeast(s: string)
    requires AllDigits(s) && |s| >= 1 && s[0] != '0'
    ensures Value(s) >= Shift(1, |s| - 1)
  {
    if |s| == 1 {
      assert s[..0] == "";
    } else {
      ValueAtLeast(s[..|s| - 1]);
    }
  }

  /** Among runs of one length, the value determines the digits. */
  lemma {:induction false} SameLengthUnique(a: string, b: string)
    requires AllDigits(a) && AllDigits(b) && |a| == |b|
    requires Value(a) == Value(b)
    ensures a == b
  {
    if a != "" {
      var fa, fb := a[..|a| - 1], b[..|b| - 1];
      SameLengthUnique(fa, fb);
      assert a == fa + [a[|a| - 1]] && b == fb + [b[|b| - 1]];
    }
  }

  lemma {:induction false} ShiftGrows(a: nat, b: nat)
    requires a <= b
    ensures Shift(1, a) <= Shift(1, b)
  {
    if a < b {
      ShiftGrows(a, b - 1);
    }
  }

  /** A run without superfluous zeros is the only such run with its value. */
  lemma CanonicalUnique(a: string, b: string)
    requires AllDigits(a) && AllDigits(b)
    requires NoLeadingZero(a) && NoLeadingZero(b)
    requires Value(a) == Value(b)
    ensures a == b
  {
    if |a| == |b| {
      SameLengthUnique(a, b);
    } else {
      var short, long := if |a| < |b| then a else b, if |a| < |b| then b else a;
      ValueBelow(short);
      ValueAtLeast(long);
      ShiftGrows(|short|, |long| - 1);
    }
  }

  /** Zeros in front, up to `width` characters. */
  function PadLeft(s: string, width: nat): string {
    if |s| < width then Zeros(width - |s|) + s else s
  }

  /** Padding keeps the value. */
  lemma PadValue(n: nat, width: nat)
    ensures AllDigits(PadLeft(Digits(n), width)) && Value(PadLeft(Digits(n), width)) == n
  {
    var digits := Digits(n);
    DigitsDenote(n);
    if |digits| < width {
      ValueZeros(width - |digits|);
      ValueAppend(Zeros(width - |digits|), digits);
    }
  }

  lemma {:induction false} DigitsShort(n: nat, width: nat)
    requires n < Shift(1, width) && width > 0
    ensures |Digits(n)| <= width
  {
    if n >= 10 {
      DigitsShort(n / 10, width - 1);
    }
  }

  /** A number below 10^width is printed in `width` places. */
  lemma PadWidth(n: nat, width: nat)
    requires n < Shift(1, width) && width > 0
    ensures |PadLeft(Digits(n), width)| == width
  {
    DigitsShort(n, width);
  }
}
