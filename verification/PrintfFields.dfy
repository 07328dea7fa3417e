/**
  What a printf field looks like (common/libc/printf/__printf.c:242-562), in terms of its
  characters: the number its digits stand for, its prefixes and its padding; and how a
  format is made up of plain text and directives.
*/
module PrintfFields {
  import opened Basics
  import opened Numerals
  import opened PrintfSpec

  // ---------- padding ----------

  /** The string consists of `n` characters `c`. */
  predicate AllOf(s: string, c: char) { forall i :: 0 <= i < |s| ==> s[i] == c }

  /**
    Prefix and body, in a field at least `width` wide: on its left if asked, with the padding
    behind them, and otherwise on its right, with spaces before the prefix or zeros behind it.
  */
  predicate LaidOut(field: string, width: nat, left: bool, zeros: bool, prefix: string, body: string) {
    && |field| == Max(width, |prefix| + |body|)
    && var pad := |field| - |prefix| - |body|;
    if left then field[..|prefix| + |body|] == prefix + body && AllOf(field[|prefix| + |body|..], if zeros then '0' else ' ')
    else if zeros then field[..|prefix|] == prefix && AllOf(field[|prefix|..|prefix| + pad], '0') && field[|prefix| + pad..] == body
    else AllOf(field[..pad], ' ') && field[pad..] == prefix + body
  }

  lemma PaddedLayout(m: string, prefix: string, body: string)
    ensures LaidOut(Padded(m, prefix, body), Width(m), '-' in m, ZeroFill(m), prefix, body)
  {
    hide Width, ZeroFill;
    var len := |prefix| + |body|;
    var pad := if Width(m) > len then Width(m) - len else 0;
    if '-' in m {
      OnTheLeft(prefix, body, Fill(if ZeroFill(m) then '0' else ' ', pad));
    } else if ZeroFill(m) {
      Between(prefix, Fill('0', pad), body);
    } else {
      OnTheRight(Fill(' ', pad), prefix, body);
    }
  }

  lemma OnTheLeft(prefix: string, body: string, fill: string)
    ensures var f := prefix + body + fill; f[..|prefix| + |body|] == prefix + body && f[|prefix| + |body|..] == fill
  {
  }

  lemma Between(prefix: string, fill: string, body: string)
    ensures var f := prefix + fill + body;
      f[..|prefix|] == prefix && f[|prefix|..|prefix| + |fill|] == fill && f[|prefix| + |fill|..] == body
  {
  }

  lemma OnTheRight(fill: string, prefix: string, body: string)
    ensures var f := fill + prefix + body; f[..|fill|] == fill && f[|fill|..] == prefix + body
  {
  }

  // ---------- the field width ----------

  lemma {:induction false} DigitsJoin(a: string, b: string)
    ensures DigitsIn(a + b) == DigitsIn(a) + DigitsIn(b)
    decreases |b|
  {
    if b == "" {
      assert a + b == a;
    } else {
      assert Front(a + b) == a + Front(b) && Last(a + b) == Last(b);
      DigitsJoin(a, Front(b));
    }
  }

  lemma DigitsStep(s: string)
    ensures DigitsIn(s) == if s == "" then "" else if IsDigit(Last(s)) then DigitsIn(Front(s)) + [Last(s)] else DigitsIn(Front(s))
  {
  }

  lemma {:induction false} DigitsAlone(s: string)
    requires forall i :: 0 <= i < |s| ==> '0' <= s[i] <= '9'
    ensures DigitsIn(s) == s
  {
    hide DigitsIn, AllDigits;
    DigitsStep(s);
    if s != "" {
      DigitsAlone(Front(s));
      assert IsDigit(Last(s)) && s == Front(s) + [Last(s)];
    }
  }

  lemma {:induction false} NoDigits(s: string)
    requires Digitless(s)
    ensures DigitsIn(s) == ""
  {
    hide DigitsIn, AllDigits;
    DigitsStep(s);
    if s != "" { NoDigits(Front(s)); }
  }

  ghost predicate Digitless(s: string) {
    forall i :: 0 <= i < |s| ==> !('0' <= s[i] <= '9')
  }

  lemma DigitsBetween(before: string, d: string, after: string)
    requires Digitless(before) && (forall i :: 0 <= i < |d| ==> '0' <= d[i] <= '9') && Digitless(after)
    ensures DigitsIn(before + d + after) == d
  {
    hide DigitsIn, AllDigits;
    DigitsJoin(before, d);
    DigitsJoin(before + d, after);
    NoDigits(before);
    DigitsAlone(d);
    NoDigits(after);
  }

  /** Digits among the modifiers are a decimal field width, and ask for zeros if the first of them is 0. */
  lemma WidthIs(before: string, d: string, after: string)
    requires Digitless(before) && (forall i :: 0 <= i < |d| ==> '0' <= d[i] <= '9') && Digitless(after)
    ensures AllDigits(d) && Width(before + d + after) == Value(d, 10)
    ensures ZeroFill(before + d + after) <==> d != "" && d[0] == '0'
  {
    hide DigitsIn, Value, Digitless, AllDigits;
    DigitsBetween(before, d, after);
  }

  // ---------- numbers ----------

  /** int, long and size_t have 32 bits, long long has 64; every l switches between long and long long. */
  lemma Sizes(m: string, c: char)
    ensures SizeOf("") == IntSz && SizeOf("l") == LongSz && SizeOf("ll") == LLongSz && SizeOf("z") == SizeTSz
    ensures SizeOf(m + [c]) == if c == 'l' then (if SizeOf(m) == LongSz then LLongSz else LongSz) else if c == 'z' then SizeTSz else SizeOf(m)
    ensures Range(IntSz) == Range(LongSz) == Range(SizeTSz) == 0x1_0000_0000
    ensures Range(LLongSz) == 0x1_0000_0000_0000_0000
  {
    assert Front("ll") == "l" && Front("l") == "" && Front("z") == "";
    assert Last(m + [c]) == c && Front(m + [c]) == m;
  }

  /** %x, %o and %u: the argument at its size, in base 16, 8 or 10, and with '#' the base's prefix in C. */
  lemma UnsignedFields(m: string, arg: Arg)
    ensures var v := arg.value % Range(SizeOf(m)); var w, left, z := Width(m), '-' in m, ZeroFill(m);
      && LaidOut(Field(m, 'x', arg), w, left, z, if '#' in m then "0x" else "", Numeral(v, 16))
      && LaidOut(Field(m, 'o', arg), w, left, z, if '#' in m then "0" else "", Numeral(v, 8))
      && LaidOut(Field(m, 'u', arg), w, left, z, "", Numeral(v, 10))
  {
    hide Numeral, Padded, Width, ZeroFill, SizeOf, LaidOut;
    var v := arg.value % Range(SizeOf(m));
    hide Range;
    PaddedLayout(m, if '#' in m then "0x" else "", Numeral(v, 16));
    PaddedLayout(m, if '#' in m then "0" else "", Numeral(v, 8));
    PaddedLayout(m, "", Numeral(v, 10));
  }

  /** %p: a 32-bit address, in base 16, always with the prefix. */
  lemma PointerField(m: string, arg: Arg)
    ensures LaidOut(Field(m, 'p', arg), Width(m), '-' in m, ZeroFill(m), "0x", Numeral(arg.value % 0x1_0000_0000, 16))
  {
    hide Numeral, Padded, Width, ZeroFill, LaidOut;
    PaddedLayout(m, "0x", Numeral(arg.value % 0x1_0000_0000, 16));
  }

  /** %d: the argument at its size as a signed number `n`, in base 10, with a minus sign if it is negative. */
  lemma SignedField(m: string, arg: Arg) returns (n: int)
    ensures 0 <= n + Range(SizeOf(m)) / 2 < Range(SizeOf(m)) && (arg.value - n) % Range(SizeOf(m)) == 0
    ensures LaidOut(Field(m, 'd', arg), Width(m), '-' in m, ZeroFill(m), if n < 0 then "-" else "", Numeral(Abs(n), 10))
  {
    hide Numeral, Padded, Width, ZeroFill, SizeOf, LaidOut;
    n := AsSigned(arg.value, SizeOf(m));
    SignedIs(arg.value, SizeOf(m));
    hide AsSigned, Range;
    PaddedLayout(m, if n < 0 then "-" else "", Numeral(Abs(n), 10));
    assert (if n < 0 then "-" else "") + "" == if n < 0 then "-" else "";
  }

  lemma SignedIs(v: int, size: Size)
    ensures var n := AsSigned(v, size); 0 <= n + Range(size) / 2 < Range(size) && (v - n) % Range(size) == 0
  {
    var r := Range(size);
    assert r == 0x1_0000_0000 || r == 0x1_0000_0000_0000_0000;
    hide Range;
    if r == 0x1_0000_0000 {
      Signed32(v);
    } else {
      Signed64(v);
    }
  }

  lemma Signed32(v: int)
    ensures var u := v % 0x1_0000_0000; (v - u) % 0x1_0000_0000 == 0 && (v - (u - 0x1_0000_0000)) % 0x1_0000_0000 == 0
  {
  }

  lemma Signed64(v: int)
    ensures var u := v % 0x1_0000_0000_0000_0000;
      (v - u) % 0x1_0000_0000_0000_0000 == 0 && (v - (u - 0x1_0000_0000_0000_0000)) % 0x1_0000_0000_0000_0000 == 0
  {
  }

  /** The digits stand for the number, the first is not 0 unless it is, and they are 0 to 9 and a to f. */
  lemma DigitsStandFor(n: nat, b: nat)
    requires b == 16 || b == 10 || b == 8
    ensures var d := Numeral(n, b);
      && d != "" && AllDigits(d) && Value(d, b) == n && (n > 0 ==> d[0] != '0')
      && forall i :: 0 <= i < |d| ==> '0' <= d[i] <= '9' || (b == 16 && 'a' <= d[i] <= 'f')
  {
    hide Value, Numeral, AllDigits;
    NumeralValue(n, b);
    NumeralChars(n, b);
  }

  lemma {:induction false} NumeralChars(n: nat, b: nat)
    requires IsBase(b)
    ensures var d := Numeral(n, b); (n > 0 ==> d[0] != '0') && forall i :: 0 <= i < |d| ==> DigitIn(d[i], b)
    decreases n
  {
    hide DigitChar;
    if n < b {
      OneDigit(n, b);
    } else {
      OneDigit(n % b, b);
      NumeralChars(n / b, b);
    }
    hide DigitIn;
  }

  predicate DigitIn(c: char, b: nat) { '0' <= c <= '9' || (b == 16 && 'a' <= c <= 'f') }

  lemma OneDigit(d: nat, b: nat)
    requires IsBase(b) && d < b
    ensures DigitIn(DigitChar(d), b) && (d > 0 ==> DigitChar(d) != '0')
  {
    DigitRoundTrip(d);
  }

  // ---------- other directives ----------

  /** %s prints the string or "(null)", %c the character unless it is NUL, and any other character itself. */
  lemma TextFields(m: string, c: char, arg: Arg)
    ensures LaidOut(Field(m, 's', arg), Width(m), '-' in m, ZeroFill(m), "", if arg.text.Some? then arg.text.value else "(null)")
    ensures LaidOut(Field(m, 'c', arg), Width(m), '-' in m, ZeroFill(m), "",
                    if arg.value % 256 == 0 then "" else [(arg.value % 256) as char])
    ensures c !in "doupxsc" ==> LaidOut(Field(m, c, arg), Width(m), '-' in m, ZeroFill(m), "", [c])
  {
    hide Padded, Width, ZeroFill, LaidOut;
    PaddedLayout(m, "", if arg.text.Some? then arg.text.value else "(null)");
    PaddedLayout(m, "", if arg.value % 256 == 0 then "" else [(arg.value % 256) as char]);
    PaddedLayout(m, "", [c]);
  }

  // ---------- formats ----------

  /** Text without a percent sign is printed as it is. */
  lemma {:induction false} PlainText(s: string, fmt: string, args: nat -> Arg, pos: nat)
    requires '%' !in s
    ensures Render(s + fmt, args, pos) == s + Render(fmt, args, pos)
  {
    hide Render;
    if s == "" {
      assert s + fmt == fmt;
    } else {
      assert (s + fmt)[1..] == s[1..] + fmt && s == [s[0]] + s[1..];
      LiteralChar(s + fmt, args, pos);
      PlainText(s[1..], fmt, args, pos);
      assert s + Render(fmt, args, pos) == [s[0]] + (s[1..] + Render(fmt, args, pos));
    }
  }

  lemma {:induction false} RunOfModifiers(m: string, rest: string)
    requires forall i :: 0 <= i < |m| ==> m[i] in "#-lz0123456789"
    requires rest != "" ==> rest[0] !in "#-lz0123456789"
    ensures ModifierRun(m + rest) == |m|
  {
    if m == "" {
      assert m + rest == rest;
    } else {
      assert (m + rest)[1..] == m[1..] + rest;
      RunOfModifiers(m[1..], rest);
    }
  }

  /** A directive prints its field, and uses up an argument if it is one of those that take one. */
  lemma Directive(m: string, c: char, fmt: string, args: nat -> Arg, pos: nat)
    requires c !in "#-lz0123456789" && forall i :: 0 <= i < |m| ==> m[i] in "#-lz0123456789"
    ensures Render("%" + m + [c] + fmt, args, pos)
         == Field(m, c, args(pos)) + Render(fmt, args, if c in "doupxsc" then pos + 1 else pos)
  {
    var s, k := "%" + m + [c] + fmt, 1 + |m|;
    assert s[1..] == m + ([c] + fmt);
    RunOfModifiers(m, [c] + fmt);
    assert s[1..k] == m && s[k] == c && s[k + 1..] == fmt;
    hide Field, ModifierRun, IsModifier;
  }

  /** A format that ends inside a directive prints nothing for it. */
  lemma Unfinished(m: string, args: nat -> Arg, pos: nat)
    requires forall i :: 0 <= i < |m| ==> m[i] in "#-lz0123456789"
    ensures Render("%" + m, args, pos) == ""
  {
    RunOfModifiers(m, "");
    assert m + "" == m && ("%" + m)[1..] == m;
  }
}
