/**
  atoi (common/libc/stdlib/atoi.c:50-101), and what it makes of the parts of a printed int.
*/
module Atoi {
  import opened Basics
  import opened Arith
  import opened Numerals
  import opened PrintfSpec
  import opened Words

  predicate IsBlank(c: char) { c == ' ' || c == '\t' }

  function SkipBlanks(s: string): string {
    if s != "" && IsBlank(s[0]) then SkipBlanks(s[1..]) else s
  }

  /** The longest run of decimal digits at the start. */
  function DigitRun(s: string): (d: string)
    ensures AllDigits(d) && forall i :: 0 <= i < |d| ==> IsDigit(d[i])
  {
    if s != "" && IsDigit(s[0]) then [s[0]] + DigitRun(s[1..]) else ""
  }

  predicate HasSign(s: string) { s != "" && (s[0] == '-' || s[0] == '+') }

  function Unsigned(s: string): string { if HasSign(s) then s[1..] else s }

  /** The int that results from a value of any size. */
  function ToInt(v: int): int { AsSigned(v, IntSz) }

  function AtoiOf(s: string): int {
    var t := SkipBlanks(s);
    var v: int := Value(DigitRun(Unsigned(t)), 10);
    ToInt(if t != "" && t[0] == '-' then -v else v)
  }

  method Atoi(s: string) returns (r: int)
    ensures r == AtoiOf(s)
  {
    hide Value, DigitRun, SkipBlanks, AsSigned;
    var i := Blanks(s);
    var t := s[i..];
    var neg := false;
    i := 0;
    if |t| > 0 && t[0] == '-' {
      neg := true;
      i := 1;
    } else if |t| > 0 && t[0] == '+' {
      i := 1;
    }
    assert t[i..] == Unsigned(t);
    var val := Digits(t[i..]);
    WrapTwice(Value(DigitRun(t[i..]), 10));
    if neg {
      return ToInt((-val) % WORD);
    }
    return ToInt(val);
  }

  /** The loop that skips whitespace. */
  method Blanks(s: string) returns (i: nat)
    ensures i <= |s| && s[i..] == SkipBlanks(s)
  {
    i := 0;
    while i < |s| && IsBlank(s[i])
      invariant 0 <= i <= |s| && SkipBlanks(s[i..]) == SkipBlanks(s)
    {
      assert s[i..][1..] == s[i + 1..];
      i := i + 1;
    }
  }

  /** The loop over the digits, in unsigned arithmetic. */
  method Digits(s: string) returns (val: nat)
    ensures val == Value(DigitRun(s), 10) % WORD
  {
    hide Value, DigitValue, DigitRun, AllDigits;
    val := 0;
    var i := 0;
    RunStart(s);
    while i < |s|
      invariant 0 <= i <= |s| && i <= |DigitRun(s)| && DigitRun(s)[..i] == s[..i] && AllDigits(s[..i])
      invariant val == Value(s[..i], 10) % WORD
    {
      RunAt(s, i);
      if !IsDigit(s[i]) {
        break;
      }
      var digit := (s[i] - '0') as nat;
      DigitStep(s, i, val);
      val := (val * 10 + digit) % WORD;
      i := i + 1;
    }
    assert |DigitRun(s)| == i by { if i == |s| { RunLength(s); } }
    assert DigitRun(s) == s[..i];
  }

  lemma RunStart(s: string)
    ensures AllDigits(s[..0]) && Value(s[..0], 10) == 0
  {
  }

  /** Whether the run goes on past position `i` is decided by the character there. */
  lemma {:induction false} RunAt(s: string, i: nat)
    requires i < |s| && i <= |DigitRun(s)|
    ensures if IsDigit(s[i]) then i < |DigitRun(s)| && DigitRun(s)[i] == s[i] else |DigitRun(s)| == i
  {
    if i > 0 { RunAt(s[1..], i - 1); }
  }

  lemma {:induction false} RunLength(s: string)
    ensures |DigitRun(s)| <= |s|
  {
    if s != "" { RunLength(s[1..]); }
  }

  lemma ValueSnoc(s: string, i: nat)
    requires i < |s| && AllDigits(s[..i]) && IsDigit(s[i])
    ensures AllDigits(s[..i + 1]) && Value(s[..i + 1], 10) == Value(s[..i], 10) * 10 + (s[i] - '0') as nat
  {
    DecimalDigit(s[i]);
    assert s[..i + 1][..i] == s[..i];
  }

  lemma DigitStep(s: string, i: nat, val: nat)
    requires i < |s| && AllDigits(s[..i]) && IsDigit(s[i]) && val == Value(s[..i], 10) % WORD
    ensures AllDigits(s[..i + 1]) && (val * 10 + (s[i] - '0') as nat) % WORD == Value(s[..i + 1], 10) % WORD
  {
    hide Value;
    ValueSnoc(s, i);
    WrapStep(Value(s[..i], 10), (s[i] - '0') as nat);
  }

  lemma DecimalDigit(c: char)
    requires IsDigit(c)
    ensures c in DIGITS && DigitValue(c) == (c - '0') as nat
  {
    var d := (c - '0') as nat;
    assert DIGITS[d] == c;
  }

  lemma WrapStep(v: nat, digit: nat)
    ensures (v * 10 + digit) % WORD == (v % WORD * 10 + digit) % WORD
  {
    var q := v / WORD;
    assert v * 10 + digit == q * 10 * WORD + (v % WORD * 10 + digit);
    Wraps(q * 10, v % WORD * 10 + digit);
  }

  lemma Wraps(q: int, x: int)
    ensures (q * WORD + x) % WORD == x % WORD
  {
    DivModUnique(q * WORD + x, WORD, q + x / WORD, x % WORD);
  }

  /** Wrapping early does not change the int. */
  lemma WrapTwice(v: int)
    requires 0 <= v
    ensures ToInt(v % WORD) == ToInt(v) && ToInt((-(v % WORD)) % WORD) == ToInt(-v)
  {
    Wraps(v / WORD, v % WORD);
    Wraps(-(v / WORD), -(v % WORD));
    assert -v == -(v / WORD) * WORD + -(v % WORD);
  }

  // ---------- printing and then parsing ----------

  ghost predicate Decimal(s: string) {
    forall i :: 0 <= i < |s| ==> IsDigit(s[i])
  }

  lemma {:induction false} NumeralDecimal(n: nat)
    ensures Decimal(Numeral(n, 10)) && AllDigits(Numeral(n, 10)) && Value(Numeral(n, 10), 10) == n
    decreases n
  {
    NumeralValue(n, 10);
    if n >= 10 { NumeralDecimal(n / 10); }
    DigitRoundTrip(n % 10);
  }

  /** A decimal string followed by something else is the whole digit run. */
  lemma {:induction false} RunIs(d: string, rest: string)
    requires Decimal(d) && (rest != "" ==> !IsDigit(rest[0]))
    ensures DigitRun(d + rest) == d
  {
    hide AllDigits;
    if d == "" {
      assert d + rest == rest;
    } else {
      assert (d + rest)[1..] == d[1..] + rest;
      RunIs(d[1..], rest);
      assert d == [d[0]] + d[1..];
    }
  }

  ghost predicate Blank(s: string) {
    forall i :: 0 <= i < |s| ==> s[i] == ' ' || s[i] == '\t'
  }

  lemma {:induction false} SkipsAll(b: string, s: string)
    requires Blank(b) && (s != "" ==> s[0] != ' ' && s[0] != '\t')
    ensures SkipBlanks(b + s) == s
  {
    if b == "" {
      assert b + s == s;
    } else {
      assert (b + s)[1..] == b[1..] + s;
      SkipsAll(b[1..], s);
    }
  }

  lemma DecimalIsDigits(d: string)
    requires Decimal(d)
    ensures AllDigits(d)
  {
    forall i | 0 <= i < |d| ensures d[i] in DIGITS { DecimalDigit(d[i]); }
  }

  lemma ConcatSum(va: int, p: int, q: int, vd1: int, vd: int, vad1: int, vad: int, x: int)
    requires q == 10 * p && vd == vd1 * 10 + x && vad == vad1 * 10 + x && vad1 == va * p + vd1
    ensures vad == va * q + vd
  {
  }

  lemma {:induction false} ValueConcat(a: string, d: string)
    requires Decimal(a) && Decimal(d)
    ensures Decimal(a + d) && AllDigits(a + d) && AllDigits(a) && AllDigits(d)
    ensures Value(a + d, 10) == Value(a, 10) * Power(10, |d|) + Value(d, 10)
    decreases |d|
  {
    hide Value, AllDigits, Power;
    DecimalIsDigits(a);
    DecimalIsDigits(d);
    DecimalIsDigits(a + d);
    if d == "" {
      ConcatNothing(a, d);
    } else {
      var d1 := d[..|d| - 1];
      ValueConcat(a, d1);
      assert (a + d)[..|a + d| - 1] == a + d1;
      LastDigit(d);
      LastDigit(a + d);
      NextPower(|d|);
      ConcatSum(Value(a, 10), Power(10, |d| - 1), Power(10, |d|), Value(d1, 10), Value(d, 10), Value(a + d1, 10), Value(a + d, 10),
                DigitValue(d[|d| - 1]));
    }
  }

  lemma ConcatNothing(a: string, d: string)
    requires d == "" && AllDigits(a)
    ensures a + d == a && AllDigits(d) && Value(a, 10) == Value(a, 10) * Power(10, |d|) + Value(d, 10)
  {
  }

  lemma NextPower(n: nat)
    requires n > 0
    ensures Power(10, n) == 10 * Power(10, n - 1)
  {
  }

  lemma LastDigit(d: string)
    requires Decimal(d) && d != "" && AllDigits(d) && AllDigits(d[..|d| - 1])
    ensures Value(d, 10) == Value(d[..|d| - 1], 10) * 10 + DigitValue(d[|d| - 1])
  {
  }

  lemma {:induction false} AllZeros(n: nat)
    ensures AllDigits(Fill('0', n)) && Value(Fill('0', n), 10) == 0
  {
    var s := Fill('0', n);
    DecimalIsDigits(s);
    if n > 0 {
      assert s[..n - 1] == Fill('0', n - 1);
      AllZeros(n - 1);
      DecimalDigit('0');
    }
  }

  /** Zeros before a numeral do not count; zeros after it multiply it. */
  lemma PaddedValue(n: nat, d: string)
    requires Decimal(d)
    ensures Decimal(Fill('0', n) + d) && AllDigits(Fill('0', n) + d) && Decimal(d + Fill('0', n)) && AllDigits(d + Fill('0', n))
    ensures AllDigits(d) && Value(Fill('0', n) + d, 10) == Value(d, 10)
    ensures Value(d + Fill('0', n), 10) == Value(d, 10) * Power(10, n)
  {
    AllZeros(n);
    ValueConcat(Fill('0', n), d);
    ValueConcat(d, Fill('0', n));
  }

  function Sign(minus: bool): string { if minus then "-" else "" }

  /** Spaces and tabs, a sign, digits and something else that does not continue them. */
  ghost predicate Parts(blanks: string, sign: string, d: string, rest: string) {
    && Blank(blanks) && (sign == "" || sign == "-" || sign == "+") && Decimal(d)
    && (rest != "" ==> !('0' <= rest[0] <= '9'))
    && (sign == "" && d == "" && rest != "" ==> rest[0] != ' ' && rest[0] != '\t' && rest[0] != '-' && rest[0] != '+')
  }

  /** Of such a string atoi makes the number that the digits stand for, negative after a minus sign, modulo 2^32. */
  lemma AtoiReads(blanks: string, sign: string, d: string, rest: string)
    requires Parts(blanks, sign, d, rest)
    ensures AllDigits(d)
    ensures var r, n: int := AtoiOf(blanks + (sign + (d + rest))), Value(d, 10); var v := if sign == "-" then -n else n;
      r == ToInt(v) && -0x8000_0000 <= r < 0x8000_0000 && (r - v) % 0x1_0000_0000 == 0
  {
    hide Value, DigitRun, SkipBlanks, Unsigned, HasSign, AsSigned;
    var u := d + rest;
    var t := sign + u;
    DecimalIsDigits(d);
    RunIs(d, rest);
    SignParts(sign, d, rest);
    SkipsAll(blanks, t);
    hide Decimal, AllDigits;
    var n: int := Value(d, 10);
    IntOf(if sign == "-" then -n else n);
  }

  lemma SignParts(sign: string, d: string, rest: string)
    requires Parts("", sign, d, rest)
    ensures var t := sign + (d + rest);
      && (t != "" ==> t[0] != ' ' && t[0] != '\t')
      && (t != "" && t[0] == '-' <==> sign == "-") && Unsigned(t) == d + rest
  {
    var t := sign + (d + rest);
    assert t != "" ==> t[0] == if sign != "" then sign[0] else if d != "" then d[0] else rest[0];
    assert Unsigned(t) == d + rest;
  }

  lemma IntOf(v: int)
    ensures var r := ToInt(v); -0x8000_0000 <= r < 0x8000_0000 && (r - v) % 0x1_0000_0000 == 0
  {
  }

  /** Every string is made up like that. */
  lemma PartsOf(s: string) returns (blanks: string, sign: string, d: string, rest: string)
    ensures s == blanks + (sign + (d + rest)) && Parts(blanks, sign, d, rest)
  {
    blanks := SkippedOf(s);
    var t := s[|blanks|..];
    sign := if t != "" && t[0] == '-' then "-" else if t != "" && t[0] == '+' then "+" else "";
    var u := t[|sign|..];
    d, rest := RunOf(u);
  }

  lemma {:induction false} SkippedOf(s: string) returns (blanks: string)
    ensures blanks <= s && Blank(blanks)
    ensures var t := s[|blanks|..]; t != "" ==> t[0] != ' ' && t[0] != '\t'
  {
    blanks := "";
    if s != "" && (s[0] == ' ' || s[0] == '\t') {
      var b := SkippedOf(s[1..]);
      blanks := [s[0]] + b;
      assert s[|blanks|..] == s[1..][|b|..];
    }
  }

  lemma {:induction false} RunOf(s: string) returns (d: string, rest: string)
    ensures s == d + rest && Decimal(d) && (rest != "" ==> !('0' <= rest[0] <= '9'))
  {
    d, rest := "", s;
    if s != "" && '0' <= s[0] <= '9' {
      d, rest := RunOf(s[1..]);
      d := [s[0]] + d;
    }
  }

  /** The digits are followed by zeros of padding. */
  predicate ZerosAfter(m: string, n: int) {
    LeftAlign(m) && ZeroFill(m) && Width(m) > |SignedNumeral(n)|
  }

  function SignedNumeral(n: int): string { Sign(n < 0) + Numeral(Abs(n), 10) }

  predicate IsInt(n: int) { -0x8000_0000 <= n < 0x8000_0000 }

  /** Whatever the size modifiers, an int argument is printed as it is. */
  lemma IntField(m: string, n: int)
    requires IsInt(n)
    ensures Field(m, 'd', Arg(n, None)) == Padded(m, Sign(n < 0), Numeral(Abs(n), 10))
  {
    hide Padded, Numeral, SizeOf;
    assert AsSigned(n, SizeOf(m)) == n;
    assert Sign(n < 0) + "" == Sign(n < 0);
  }

  lemma SignedBack(n: int)
    requires IsInt(n)
    ensures ToInt(Signed(n < 0, Abs(n))) == n
  {
  }

  /** A number times a power of ten is the number, modulo 2^32, only for zero. */
  lemma Shifted(n: int, k: nat)
    requires IsInt(n) && k > 0
    ensures ToInt(Signed(n < 0, Abs(n) * Power(10, k))) == n <==> n == 0
  {
    hide Power, ToInt, Signed;
    var p := Power(10, k);
    SignedProduct(n, p);
    ToIntZero();
    var j := ToIntMultiple(n * p);
    PowerEven(k);
    if ToInt(n * p) == n {
      OneLess(n, p, j);
      Power32();
      var i := OddCancels(n, p - 1, -j, 32);
      SmallMultiple(n, i);
    }
  }

  lemma OneLess(n: int, p: int, j: int)
    requires n == n * p + j * WORD
    ensures n * (p - 1) == -j * WORD
  {
    MulDistrib(p - 1, 1, n);
  }

  lemma ToIntZero()
    ensures ToInt(0) == 0
  {
  }

  lemma SmallMultiple(n: int, i: int)
    requires IsInt(n) && n == i * WORD
    ensures n == 0
  {
  }

  lemma SignedProduct(n: int, p: nat)
    ensures Signed(n < 0, Abs(n) * p) == n * p
  {
  }

  lemma ToIntMultiple(x: int) returns (j: int)
    ensures ToInt(x) == x + j * WORD
  {
    j := if x % WORD < WORD / 2 then -(x / WORD) else -(x / WORD) - 1;
  }

  lemma PowerEven(k: nat)
    requires k > 0
    ensures Power(10, k) % 2 == 0 && Power(10, k) > 0
  {
    PowerMono(10, 0, k);
    assert Power(10, k) == 2 * (5 * Power(10, k - 1));
  }

  lemma Power32()
    ensures Power(2, 32) == WORD
  {
    assert Power(2, 4) == 0x10;
    assert Power(2, 8) == 0x100;
    assert Power(2, 12) == 0x1000;
    assert Power(2, 16) == 0x1_0000;
    assert Power(2, 20) == 0x10_0000;
    assert Power(2, 24) == 0x100_0000;
    assert Power(2, 28) == 0x1000_0000;
  }

  /** An odd factor does not help to make a multiple of a power of two. */
  lemma {:induction false} OddCancels(n: int, o: int, j: int, b: nat) returns (i: int)
    requires o % 2 == 1 && n * o == j * Power(2, b)
    ensures n == i * Power(2, b)
    decreases b
  {
    if b == 0 {
      i := n;
    } else {
      var q := Power(2, b - 1);
      assert n * o == 2 * (j * q) by { MulAssoc(j, 2, q); }
      Halves(n, o, j * q);
      i := OddCancels(n / 2, o, j, b - 1);
      assert n == 2 * (i * q) == i * Power(2, b) by { MulAssoc(i, 2, q); }
    }
  }

  lemma Halves(n: int, o: int, r: int)
    requires o % 2 == 1 && n * o == 2 * r
    ensures n % 2 == 0 && n / 2 * o == r
  {
    var h := o / 2;
    assert n * o == 2 * (n * h) + n by { assert o == 2 * h + 1; MulDistrib(2 * h, 1, n); MulAssoc(2, h, n); }
    assert n == 2 * (r - n * h);
    assert 2 * (n / 2 * o) == n * o by { MulAssoc(2, n / 2, o); }
  }
}
