/**
  Printing an int with %d and reading it back with atoi (common/libc/printf/__printf.c,
  snprintf.c, common/libc/stdlib/atoi.c): exactly which modifiers and which buffer lengths
  give the number back.
*/
module PrintParse {
  import opened Basics
  import opened Arith
  import opened Numerals
  import opened PrintfSpec
  import opened Printf
  import opened PrintfFields
  import opened Atoi

  /** A printed int: spaces, a sign, zeros, the numeral, zeros or spaces. */
  datatype Shape = Shape(spaces: nat, minus: bool, zeros: nat, digits: string, after: nat, blanks: nat)

  function Middle(x: Shape): string { Fill('0', x.zeros) + x.digits + Fill('0', x.after) }

  function Text(x: Shape): string {
    Fill(' ', x.spaces) + (Sign(x.minus) + (Middle(x) + Fill(' ', x.blanks)))
  }

  function ShapeOf(m: string, n: int): Shape {
    var len := |SignedNumeral(n)|;
    var pad := if Width(m) > len then Width(m) - len else 0;
    if LeftAlign(m) then
      if ZeroFill(m) then Shape(0, n < 0, 0, Numeral(Abs(n), 10), pad, 0)
      else Shape(0, n < 0, 0, Numeral(Abs(n), 10), 0, pad)
    else
      if ZeroFill(m) then Shape(0, n < 0, pad, Numeral(Abs(n), 10), 0, 0)
      else Shape(pad, n < 0, 0, Numeral(Abs(n), 10), 0, 0)
  }

  lemma FieldShape(m: string, n: int, arg: Arg)
    requires IsInt(n) && arg.value == n
    ensures Field(m, 'd', arg) == Text(ShapeOf(m, n))
  {
    NumberOnly(m, arg);
    hide Field, NumberField, Width, ZeroFill, LeftAlign, Numeral, Sign, Text, Fill;
    IntField(m, n);
    var d := Numeral(Abs(n), 10);
    var len := |Sign(n < 0)| + |d|;
    PadShapes(n < 0, d, if Width(m) > len then Width(m) - len else 0);
  }

  lemma NumberOnly(m: string, arg: Arg)
    ensures Field(m, 'd', arg) == Field(m, 'd', Arg(arg.value, None))
  {
    hide NumberField;
  }

  lemma PadShapes(minus: bool, d: string, pad: nat)
    ensures Text(Shape(0, minus, 0, d, pad, 0)) == Sign(minus) + d + Fill('0', pad)
    ensures Text(Shape(0, minus, 0, d, 0, pad)) == Sign(minus) + d + Fill(' ', pad)
    ensures Text(Shape(0, minus, pad, d, 0, 0)) == Sign(minus) + Fill('0', pad) + d
    ensures Text(Shape(pad, minus, 0, d, 0, 0)) == Fill(' ', pad) + Sign(minus) + d
  {
    assert Fill('0', 0) == "" && Fill(' ', 0) == "";
    hide Fill, Sign;
    Zeros(minus, d, Fill('0', pad), Fill(' ', pad));
  }

  lemma Zeros(minus: bool, d: string, z: string, b: string)
    ensures "" + (Sign(minus) + (("" + d + z) + "")) == Sign(minus) + d + z
    ensures "" + (Sign(minus) + (("" + d + "") + b)) == Sign(minus) + d + b
    ensures "" + (Sign(minus) + ((z + d + "") + "")) == Sign(minus) + z + d
    ensures b + (Sign(minus) + (("" + d + "") + "")) == b + Sign(minus) + d
  {
    hide Sign;
  }

  /** Where the numeral ends. */
  function End(x: Shape): nat { x.spaces + |Sign(x.minus)| + x.zeros + |x.digits| }

  // ---------- the text cut off after `k` characters ----------

  lemma CutText(x: Shape, k: nat)
    requires x.spaces < k <= |Text(x)|
    ensures var j := k - x.spaces - |Sign(x.minus)|; var i := Min(j, |Middle(x)|);
      0 <= j && Text(x)[..k] == Fill(' ', x.spaces) + (Sign(x.minus) + (Middle(x)[..i] + Fill(' ', j - i)))
  {
    hide Middle;
    var j := k - x.spaces - |Sign(x.minus)|;
    var i := Min(j, |Middle(x)|);
    assert Fill(' ', x.blanks)[..j - i] == Fill(' ', j - i);
    hide Fill;
    assert (Middle(x) + Fill(' ', x.blanks))[..j] == Middle(x)[..i] + Fill(' ', x.blanks)[..j - i];
  }

  lemma CutInSpaces(x: Shape, k: nat)
    requires k <= x.spaces
    ensures k <= |Text(x)| && Text(x)[..k] == Fill(' ', k) + (Sign(false) + ("" + ""))
  {
    hide Middle;
  }

  lemma MiddleDecimal(x: Shape, i: nat)
    requires Decimal(x.digits) && i <= |Middle(x)|
    ensures Decimal(Middle(x)[..i]) && AllDigits(Middle(x)[..i])
  {
    DecimalIsDigits(Middle(x)[..i]);
  }

  /** What atoi makes of it. */
  lemma AtoiCut(x: Shape, k: nat)
    requires Decimal(x.digits) && x.digits != "" && k <= |Text(x)|
    ensures k <= x.spaces ==> AtoiOf(Text(x)[..k]) == 0
    ensures k > x.spaces ==>
      var i := Min(k - x.spaces - |Sign(x.minus)|, |Middle(x)|);
      && 0 <= i && AllDigits(Middle(x)[..i])
      && AtoiOf(Text(x)[..k]) == ToInt(Signed(x.minus, Value(Middle(x)[..i], 10)))
  {
    hide AtoiOf, Value, Middle, Text, ToInt, Fill, Sign;
    if k <= x.spaces {
      CutInSpaces(x, k);
      NoDigits();
      PrintedParts(x, k, "", "");
      AtoiReads(Fill(' ', k), Sign(false), "", "");
    } else {
      CutText(x, k);
      var j := k - x.spaces - |Sign(x.minus)|;
      var i := Min(j, |Middle(x)|);
      MiddleDecimal(x, i);
      SpacesAfter(x, i, j);
      PrintedParts(x, x.spaces, Middle(x)[..i], Fill(' ', j - i));
      AtoiReads(Fill(' ', x.spaces), Sign(x.minus), Middle(x)[..i], Fill(' ', j - i));
      SignOf(x.minus);
    }
  }

  lemma PrintedParts(x: Shape, n: nat, d: string, rest: string)
    requires Decimal(d) && (rest != "" ==> !IsDigit(rest[0])) && (d == "" ==> rest == "")
    ensures Parts(Fill(' ', n), Sign(x.minus), d, rest) && Parts(Fill(' ', n), Sign(false), d, rest)
  {
  }

  lemma SignOf(minus: bool)
    ensures Sign(minus) == "-" <==> minus
  {
  }

  lemma NoDigits()
    ensures Decimal("") && AllDigits("") && ToInt(Signed(false, Value("", 10))) == 0
  {
  }

  lemma SpacesAfter(x: Shape, i: nat, j: nat)
    requires i == Min(j, |Middle(x)|)
    ensures Fill(' ', j - i) != "" ==> !IsDigit(Fill(' ', j - i)[0])
    ensures x.digits != "" && Middle(x)[..i] == "" ==> Fill(' ', j - i) == ""
  {
  }

  // ---------- the number that is left ----------

  lemma PrefixLess(d: string, i: nat)
    requires Decimal(d) && i < |d| && AllDigits(d) && Value(d, 10) > 0
    ensures AllDigits(d[..i]) && Value(d[..i], 10) < Value(d, 10)
  {
    hide Value, AllDigits, Power;
    assert d[..i] + d[i..] == d;
    ValueConcat(d[..i], d[i..]);
    TenPower();
    PowerMono(10, 1, |d[i..]|);
    TenTimes(Value(d[..i], 10), Power(10, |d[i..]|), Value(d[i..], 10), Value(d, 10));
  }

  lemma TenTimes(a: nat, p: nat, b: nat, v: nat)
    requires 10 <= p && v == a * p + b && v > 0
    ensures a < v
  {
    MulMono(10, p, a);
  }

  lemma TenPower()
    ensures Power(10, 1) == 10
  {
  }

  /** The digits left are the number's if and only if the cut is right behind them, unless the number is 0. */
  lemma MiddleValue(x: Shape, i: nat)
    requires Decimal(x.digits) && i <= |Middle(x)| && AllDigits(x.digits)
    ensures AllDigits(Middle(x)[..i])
    ensures i < x.zeros + |x.digits| ==>
      Value(Middle(x)[..i], 10) == 0 || Value(Middle(x)[..i], 10) < Value(x.digits, 10)
    ensures i >= x.zeros + |x.digits| ==>
      Value(Middle(x)[..i], 10) == Value(x.digits, 10) * Power(10, i - x.zeros - |x.digits|)
  {
    MiddleDecimal(x, i);
    var z, w := x.zeros, i - x.zeros - |x.digits|;
    if i <= z {
      assert Middle(x)[..i] == Fill('0', i);
      AllZeros(i);
    } else if w < 0 {
      var d := x.digits[..i - z];
      assert Middle(x)[..i] == Fill('0', z) + d;
      hide Middle, Value, Power, AllDigits;
      PaddedValue(z, d);
      LeftPart(x.digits, i - z);
    } else {
      assert Middle(x)[..i] == Fill('0', z) + (x.digits + Fill('0', w));
      hide Middle, Value, Power, AllDigits;
      PaddedValue(w, x.digits);
      PaddedValue(z, x.digits + Fill('0', w));
    }
  }

  lemma LeftPart(d: string, i: nat)
    requires Decimal(d) && i < |d| && AllDigits(d)
    ensures AllDigits(d[..i]) && (Value(d[..i], 10) == 0 || Value(d[..i], 10) < Value(d, 10))
  {
    hide Value, Power;
    DecimalIsDigits(d[..i]);
    if Value(d, 10) > 0 {
      PrefixLess(d, i);
    } else {
      hide AllDigits;
      assert d[..i] + d[i..] == d;
      ValueConcat(d[..i], d[i..]);
      PowerMono(10, 0, |d[i..]|);
      NoneOf(Value(d[..i], 10), Power(10, |d[i..]|), Value(d[i..], 10));
    }
  }

  lemma NoneOf(a: nat, p: nat, b: nat)
    requires 1 <= p && a * p + b == 0
    ensures a == 0
  {
    if a > 0 { MulMono(1, a, p); }
  }

  // ---------- reading back ----------

  /** The cut falls right behind the numeral, or later among spaces. */
  predicate Complete(x: Shape, k: nat) { End(x) <= k && (x.after > 0 ==> k == End(x)) }

  /** From the first `k` characters that %d printed, atoi gets the number if and only if they are complete or it is 0. */
  lemma CutReads(m: string, n: int, k: nat)
    requires IsInt(n) && k <= |Text(ShapeOf(m, n))|
    ensures AtoiOf(Text(ShapeOf(m, n))[..k]) == n <==> n == 0 || Complete(ShapeOf(m, n), k)
  {
    hide Value, Width, ZeroFill, LeftAlign, AtoiOf, Numeral, Power, ToInt, Sign, AllDigits, Fill, Decimal;
    var x := ShapeOf(m, n);
    NumeralDecimal(Abs(n));
    TextLength(x);
    hide Text, Middle, ShapeOf;
    AtoiCut(x, k);
    if k > x.spaces {
      var i := Min(k - x.spaces - |Sign(x.minus)|, |Middle(x)|);
      MiddleValue(x, i);
      if i < x.zeros + |x.digits| {
        SmallerIsOther(n, Value(Middle(x)[..i], 10));
      } else {
        ShiftedOrNot(n, i - x.zeros - |x.digits|);
      }
    }
  }

  lemma TextLength(x: Shape)
    ensures |Middle(x)| == x.zeros + |x.digits| + x.after
    ensures |Text(x)| == x.spaces + |Sign(x.minus)| + |Middle(x)| + x.blanks
  {
  }

  lemma SmallerIsOther(n: int, v: nat)
    requires IsInt(n) && (v == 0 || v < Abs(n))
    ensures ToInt(Signed(n < 0, v)) == n <==> n == 0
  {
  }

  lemma ShiftedOrNot(n: int, w: nat)
    requires IsInt(n)
    ensures ToInt(Signed(n < 0, Abs(n) * Power(10, w))) == n <==> n == 0 || w == 0
  {
    if w == 0 {
      PowerNothing(Abs(n));
      SignedBack(n);
    } else {
      Shifted(n, w);
    }
  }

  lemma PowerNothing(v: int)
    ensures v * Power(10, 0) == v
  {
  }

  /** With nothing cut off: exactly when no zeros of padding follow the digits of a number other than 0. */
  lemma PrintThenParse(m: string, n: int, arg: Arg)
    requires IsInt(n) && arg.value == n
    ensures AtoiOf(Field(m, 'd', arg)) == n <==> n == 0 || !ZerosAfter(m, n)
  {
    FieldShape(m, n, arg);
    var x := ShapeOf(m, n);
    TextLength(x);
    CutReads(m, n, |Text(x)|);
    assert Text(x)[..|Text(x)|] == Text(x);
    hide Field, Text, Middle, AtoiOf, Numeral, Width, LeftAlign, ZeroFill;
  }

  /** `%-05d` prints 7 as another number. */
  lemma SevenIsNotReadBack()
    ensures AtoiOf(Field("-05", 'd', Arg(7, None))) != 7
  {
    MinusZeroFive();
    SevenDigits();
    hide AtoiOf, Field, Width, ZeroFill, LeftAlign, Numeral;
    PrintThenParse("-05", 7, Arg(7, None));
  }

  lemma MinusZeroFive()
    ensures Width("-05") == 5 && ZeroFill("-05") && LeftAlign("-05")
  {
    assert "-05" == "" + ['-'] + ['0'] + ['5'];
    WidthStep("", '-');
    WidthStep("" + ['-'], '0');
    WidthStep("" + ['-'] + ['0'], '5');
    hide Width, ZeroFill;
    NoWidth();
  }

  lemma NoWidth()
    ensures Width("") == 0
  {
  }

  lemma SevenDigits()
    ensures |SignedNumeral(7)| == 1
  {
    hide DigitChar;
  }

  // ---------- through a buffer ----------

  lemma OneDirective(m: string, args: nat -> Arg)
    requires AllModifiers(m)
    ensures Render("%" + m + "d", args, 0) == Field(m, 'd', args(0))
  {
    hide Field;
    Directive(m, 'd', "", args, 0);
    assert "%" + m + ['d'] + "" == "%" + m + "d";
    assert Field(m, 'd', args(0)) + "" == Field(m, 'd', args(0));
  }

  lemma NoNul(x: Shape)
    requires Decimal(x.digits)
    ensures '\0' !in Text(x)
  {
    hide Decimal;
    assert '\0' !in x.digits by { DigitsNotNul(x.digits); }
    assert '\0' !in Fill(' ', x.spaces) && '\0' !in Fill('0', x.zeros) && '\0' !in Fill('0', x.after) && '\0' !in Fill(' ', x.blanks);
    hide Fill;
  }

  lemma DigitsNotNul(d: string)
    requires Decimal(d)
    ensures '\0' !in d
  {
  }

  /** The string that a C function reads: up to the first NUL. */
  function CString(b: seq<char>): string {
    if b == [] || b[0] == '\0' then "" else [b[0]] + CString(b[1..])
  }

  lemma {:induction false} CStringIs(b: seq<char>, i: nat)
    requires i <= |b| && '\0' !in b[..i] && (i < |b| ==> b[i] == '\0')
    ensures CString(b) == b[..i]
  {
    if i > 0 {
      assert b[0] == b[..i][0];
      assert b[1..][..i - 1] == b[..i][1..];
      CStringIs(b[1..], i - 1);
    }
  }

  /** The loop that looks for the NUL. */
  method StringIn(buf: array<char>) returns (s: string)
    ensures s == CString(buf[..])
  {
    var i := 0;
    while i < buf.Length && buf[i] != '\0'
      invariant 0 <= i <= buf.Length && '\0' !in buf[..i]
    {
      i := i + 1;
    }
    CStringIs(buf[..], i);
    s := buf[..i];
  }

  /**
    snprintf of one %d directive into `len` characters, and then atoi: for all modifiers and
    all ints, the number comes back if and only if it is 0, or the buffer reaches past its
    digits and, where zeros of padding follow them, no further. With no room at all nothing is
    written, and what was there is read.
  */
  method FormatAndParse(buf: array<char>, len: nat, m: string, args: nat -> Arg) returns (r: int)
    requires len <= buf.Length && AllModifiers(m) && IsInt(args(0).value)
    modifies buf
    ensures len == 0 ==> buf[..] == old(buf[..]) && r == AtoiOf(CString(old(buf[..])))
    ensures len > 0 ==>
      var n := args(0).value; var x := ShapeOf(m, n);
      r == n <==> n == 0 || (End(x) < len && (ZerosAfter(m, n) ==> len == End(x) + 1))
  {
    hide Render, Text, ShapeOf, AllModifiers, AtoiOf, ZerosAfter, CString;
    ghost var n := args(0).value;
    ghost var x := ShapeOf(m, n);
    OneNumber(m, args);
    ZerosAfterShape(m, n);
    ghost var k := if len == 0 then 0 else Min(len - 1, |Text(x)|);
    CutReads(m, n, k);
    var chars := Vsnprintf(buf, len, "%" + m + "d", args);
    if len > 0 { CutString(buf[..], Text(x), k); }
    var s := StringIn(buf);
    r := Atoi.Atoi(s);
  }

  lemma OneNumber(m: string, args: nat -> Arg)
    requires AllModifiers(m) && IsInt(args(0).value)
    ensures var x := ShapeOf(m, args(0).value);
      Render("%" + m + "d", args, 0) == Text(x) && '\0' !in Text(x)
  {
    var n := args(0).value;
    OneDirective(m, args);
    FieldShape(m, n, args(0));
    NumeralDecimal(Abs(n));
    hide Render, Field, Text, AllModifiers, Width, LeftAlign, ZeroFill, Numeral;
    NoNul(ShapeOf(m, n));
  }

  lemma ZerosAfterShape(m: string, n: int)
    ensures var x := ShapeOf(m, n);
      && (ZerosAfter(m, n) <==> x.after > 0)
      && |Text(x)| == End(x) + x.after + x.blanks
  {
    TextLength(ShapeOf(m, n));
    hide Text, Middle, Numeral, Width, LeftAlign, ZeroFill;
  }

  lemma CutString(buf: seq<char>, text: string, k: nat)
    requires k < |buf| && k <= |text| && buf[..k] == text[..k] && buf[k] == '\0' && '\0' !in text
    ensures CString(buf) == text[..k]
  {
    assert forall i :: 0 <= i < k ==> text[..k][i] == text[i];
    CStringIs(buf, k);
  }
}
