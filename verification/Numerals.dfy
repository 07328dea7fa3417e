/**
  Numbers as text: the digits printf produces (common/libc/printf/__printf.c:423-491) and
  what they stand for.
*/
module Numerals {
  import opened Arith
  import opened Words

  const DIGITS := "0123456789abcdef"

  predicate IsBase(b: nat) { b == 8 || b == 10 || b == 16 }

  function DigitChar(d: nat): char
    requires d < 16
  {
    DIGITS[d]
  }

  function DigitValue(c: char): nat
    requires c in DIGITS
  {
    if c <= '9' then (c - '0') as nat else 10 + (c - 'a') as nat
  }

  lemma DigitRoundTrip(d: nat)
    requires d < 16
    ensures DigitChar(d) in DIGITS && DigitValue(DigitChar(d)) == d
    ensures if d < 10 then DigitChar(d) == '0' + d as char else DigitChar(d) == 'a' + (d - 10) as char
  {
  }

  /** The numeral of `n`, most significant digit first; zero is one digit. */
  function Numeral(n: nat, b: nat): (s: string)
    requires IsBase(b)
    ensures |s| >= 1
    decreases n
  {
    if n < b then [DigitChar(n)] else Numeral(n / b, b) + [DigitChar(n % b)]
  }

  ghost predicate AllDigits(s: string) {
    forall i :: 0 <= i < |s| ==> s[i] in DIGITS
  }

  function Value(s: string, b: nat): nat
    requires AllDigits(s)
  {
    if s == "" then 0 else Value(s[..|s| - 1], b) * b + DigitValue(s[|s| - 1])
  }

  /** The digits evaluate back to the number. */
  lemma {:induction false} NumeralValue(n: nat, b: nat)
    requires IsBase(b)
    ensures AllDigits(Numeral(n, b)) && Value(Numeral(n, b), b) == n
    decreases n
  {
    if n < b {
      DigitRoundTrip(n);
      assert Numeral(n, b)[..0] == "";
    } else {
      NumeralValue(n / b, b);
      DigitRoundTrip(n % b);
      var s := Numeral(n, b);
      assert s[..|s| - 1] == Numeral(n / b, b);
    }
  }

  /** The digit of the units comes last. */
  lemma NumeralAppends(n: nat, d: nat, b: nat)
    requires IsBase(b) && n > 0 && d < b
    ensures Numeral(n * b + d, b) == Numeral(n, b) + [DigitChar(d)]
  {
    hide DigitChar;
    DivModUnique(n * b + d, b, n, d);
    MulMono(1, n, b);
  }

  // ---------- how long a numeral is ----------

  /** A numeral is as long as the number is big. */
  lemma {:induction false} NumeralLength(n: nat, b: nat)
    requires IsBase(b)
    ensures n > 0 ==> Power(b, |Numeral(n, b)| - 1) <= n
    ensures n < Power(b, |Numeral(n, b)|)
    decreases n
  {
    hide Numeral, IsBase, Power;
    LengthStep(n, b);
    if n >= b {
      var q := Quotient(n, b);
      hide Quotient;
      NumeralLength(q, b);
      var k := |Numeral(q, b)|;
      PowerStep(b, k);
      PowerStep(b, k - 1);
      Between(Power(b, k - 1), q, Power(b, k), b, n);
    } else {
      PowerStep(b, 0);
    }
  }

  lemma PowerStep(b: nat, k: nat)
    ensures Power(b, 0) == 1 && Power(b, k + 1) == Power(b, k) * b
  {
  }

  lemma Between(lo: int, q: int, hi: int, b: int, n: int)
    requires lo <= q < hi && 0 < b <= n && q * b <= n < (q + 1) * b
    ensures lo * b <= n < hi * b
  {
    MulMono(lo, q, b);
    MulMono(q + 1, hi, b);
  }

  lemma QuotientFacts(n: nat, b: nat)
    requires 2 <= b <= n
    ensures 0 < n / b < n && n / b * b <= n < (n / b + 1) * b
  {
    var q := n / b;
    DivBounds(n, b);
    assert q == 0 ==> (q + 1) * b == b;
    if q >= n { MulMono(n, q, b); MulMono(2, b, n); }
  }

  function Quotient(n: nat, b: nat): (q: nat)
    requires 2 <= b <= n
    ensures 0 < q < n && q * b <= n < (q + 1) * b
  {
    QuotientFacts(n, b);
    n / b
  }

  lemma LengthStep(n: nat, b: nat)
    requires IsBase(b)
    ensures b >= 8 && |Numeral(n, b)| == if n < b then 1 else |Numeral(Quotient(n, b), b)| + 1
  {
    hide DigitChar;
  }

  lemma {:induction false} PowerMono(b: nat, j: nat, k: nat)
    requires 1 <= b && j <= k
    ensures 1 <= Power(b, j) <= Power(b, k)
    decreases k
  {
    if j < k {
      PowerMono(b, j, k - 1);
      MulMono(1, b, Power(b, k - 1));
    } else if j > 0 {
      PowerMono(b, j - 1, k - 1);
      MulMono(1, b, Power(b, k - 1));
    }
  }

  lemma {:induction false} PowerBase(b: nat, c: nat, k: nat)
    requires b <= c
    ensures Power(b, k) <= Power(c, k)
  {
    if k > 0 {
      PowerBase(b, c, k - 1);
      MulMono(b, c, Power(b, k - 1));
      MulMono(Power(b, k - 1), Power(c, k - 1), c);
    }
  }

  const NUMBER_BUF_SIZE := 64 / 3 + 2

  lemma Octal22()
    ensures Power(8, 22) == 0x4_0000_0000_0000_0000 && Power(8, 21) == 0x8000_0000_0000_0000
  {
    assert Power(8, 7) == 0x20_0000;
    assert Power(8, 14) == 0x400_0000_0000;
    assert Power(8, 22) == 8 * Power(8, 21);
  }

  lemma Power22(b: nat)
    requires IsBase(b)
    ensures b >= 1 && Power(b, 22) >= DWORD
  {
    hide Power;
    PowerBase(8, b, 22);
    Octal22();
  }

  lemma ZeroNumeral(b: nat)
    requires IsBase(b)
    ensures |Numeral(0, b)| == 1 && b >= 1
  {
    hide DigitChar;
  }

  /** Every 64-bit number fits the buffer with its NUL. */
  lemma NumeralFits(n: nat, b: nat)
    requires IsBase(b) && n < DWORD
    ensures |Numeral(n, b)| + 1 <= NUMBER_BUF_SIZE
  {
    hide Power, Numeral, IsBase;
    if n == 0 {
      ZeroNumeral(b);
      return;
    }
    var k := |Numeral(n, b)|;
    NumeralLength(n, b);
    Power22(b);
    if k >= 23 { PowerMono(b, 22, k - 1); }
  }

  /** The bound is tight: the largest number in octal fills the buffer. */
  lemma NumeralTight()
    ensures |Numeral(0xffff_ffff_ffff_ffff, 8)| + 1 == NUMBER_BUF_SIZE
  {
    var k := |Numeral(0xffff_ffff_ffff_ffff, 8)|;
    NumeralFits(0xffff_ffff_ffff_ffff, 8);
    NumeralLength(0xffff_ffff_ffff_ffff, 8);
    Octal22();
    if k <= 21 { PowerMono(8, k, 21); }
  }
}
