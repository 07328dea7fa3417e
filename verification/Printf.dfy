/**
  The guts of printf (common/libc/printf/__printf.c) and vsnprintf (snprintf.c): a state
  record changed by one format character at a time, and a receiver of the text that keeps
  what fits. C int arithmetic on the field width and the character count is unbounded here.
*/
module Printf {
  import opened Basics
  import opened Numerals
  import opened PrintfSpec
  import opened Words

  // ---------- snprintf's receiver ----------

  class Snp {
    const buf: array<char>
    const buflen: nat
    var bufpos: nat
    ghost var all: string           // everything sent so far
    ghost const before: string      // the buffer's first contents

    ghost predicate Valid()
      reads this, buf
    {
      && buflen <= buf.Length == |before|
      && bufpos == Min(|all|, buflen)
      && buf[..] == all[..bufpos] + before[bufpos..]
    }

    constructor (buf: array<char>, buflen: nat)
      requires buflen <= buf.Length
      ensures Valid() && all == "" && this.buf == buf && this.buflen == buflen && before == buf[..]
    {
      this.buf, this.buflen, bufpos := buf, buflen, 0;
      all, before := "", buf[..];
    }

    /** __snprintf_send: characters past the end are dropped. */
    method Send(data: string)
      requires Valid()
      modifies this, buf
      ensures Valid() && all == old(all) + data
    {
      for i := 0 to |data|
        invariant Valid() && all == old(all) + data[..i]
      {
        if bufpos < buflen {
          buf[bufpos] := data[i];
          bufpos := bufpos + 1;
        }
        all := all + [data[i]];
      }
    }
  }

  // ---------- the state ----------

  datatype PF = PF(
    charcount: nat, argpos: nat, inPct: bool, size: Size, num: nat, sign: bool,
    spacing: nat, rightspc: bool, fillchar: char, base: nat, baseprefix: bool, altformat: bool)

  /** __pf_endfield. */
  function EndField(pf: PF): PF {
    PF(pf.charcount, pf.argpos, false, IntSz, 0, false, 0, false, ' ', 0, false, false)
  }

  /** What the state is between directives, and inside one after the modifiers `m`. */
  predicate Between(pf: PF) { pf == EndField(pf) }

  ghost predicate Reflects(pf: PF, m: string) {
    pf == PF(pf.charcount, pf.argpos, true, SizeOf(m), 0, false,
             Width(m), LeftAlign(m), if ZeroFill(m) then '0' else ' ', 0, false, '#' in m)
  }

  lemma StartReflects(pf: PF)
    requires Between(pf)
    ensures Reflects(pf.(inPct := true), "")
  {
  }

  /** __pf_modifier. */
  function Modifier(pf: PF, ch: char): PF
    requires IsModifier(ch)
  {
    match ch
    case '#' => pf.(altformat := true)
    case '-' => pf.(rightspc := true)
    case 'l' => pf.(size := if pf.size == LongSz then LLongSz else LongSz)
    case 'z' => pf.(size := SizeTSz)
    case '0' => if pf.spacing > 0 then pf.(spacing := pf.spacing * 10) else pf.(fillchar := '0')
    case _ => pf.(spacing := pf.spacing * 10 + (ch - '0') as nat)
  }

  /** Reading modifiers one at a time comes to what they say together. */
  lemma ModifierReflects(pf: PF, m: string, ch: char)
    requires Reflects(pf, m) && IsModifier(ch) && forall i :: 0 <= i < |m| ==> IsModifier(m[i])
    ensures Reflects(Modifier(pf, ch), m + [ch])
  {
    var m' := m + [ch];
    assert Last(m') == ch && Front(m') == m;
    WidthStep(m, ch);
    SizeStep(m, ch);
  }

  lemma SizeStep(m: string, ch: char)
    ensures SizeOf(m + [ch]) == if ch == 'l' then (if SizeOf(m) == LongSz then LLongSz else LongSz) else if ch == 'z' then SizeTSz else SizeOf(m)
  {
    var m' := m + [ch];
    assert Last(m') == ch && Front(m') == m;
  }

  /** The width is positive as soon as a nonzero digit has been read, and zero fill is settled by the first. */
  lemma WidthStep(m: string, ch: char)
    ensures IsDigit(ch) ==> Width(m + [ch]) == Width(m) * 10 + (ch - '0') as nat
    ensures !IsDigit(ch) ==> Width(m + [ch]) == Width(m) && ZeroFill(m + [ch]) == ZeroFill(m)
    ensures ch == '0' && Width(m) == 0 ==> ZeroFill(m + [ch])
    ensures IsDigit(ch) && (ch != '0' || Width(m) > 0) ==> ZeroFill(m + [ch]) == ZeroFill(m)
  {
    var m' := m + [ch];
    assert Last(m') == ch && Front(m') == m;
    var d := DigitsIn(m);
    if IsDigit(ch) {
      assert Front(d + [ch]) == d;
      if d != "" { WidthPositive(d); }
    }
  }

  /** A digit string whose value is zero is all zeros. */
  lemma {:induction false} WidthPositive(d: string)
    requires AllDigits(d) && d != ""
    ensures Value(d, 10) == 0 ==> d[0] == '0'
  {
    if |d| > 1 { WidthPositive(d[..|d| - 1]); }
  }

  // ---------- printing ----------

  /** The text has been sent and counted; nothing else changed. */
  ghost predicate Printed(pf: PF, pf': PF, txt: string) {
    pf' == pf.(charcount := pf.charcount + |txt|)
  }

  method Print(pf: PF, snp: Snp, txt: string) returns (pf': PF)
    requires snp.Valid()
    modifies snp, snp.buf
    ensures snp.Valid() && snp.all == old(snp.all) + txt && Printed(pf, pf', txt)
  {
    snp.Send(txt);
    pf' := pf.(charcount := pf.charcount + |txt|);
  }

  /** __pf_fill. */
  method PrintFill(pf: PF, snp: Snp, spc: nat) returns (pf': PF)
    requires snp.Valid()
    modifies snp, snp.buf
    ensures snp.Valid() && snp.all == old(snp.all) + Fill(pf.fillchar, spc) && Printed(pf, pf', Fill(pf.fillchar, spc))
  {
    pf' := pf;
    for i := 0 to spc
      invariant snp.Valid() && snp.all == old(snp.all) + Fill(pf.fillchar, i) && Printed(pf, pf', Fill(pf.fillchar, i))
    {
      pf' := Print(pf', snp, [pf.fillchar]);
      assert Fill(pf.fillchar, i + 1) == Fill(pf.fillchar, i) + [pf.fillchar];
    }
  }

  function PadText(pf: PF, prefix: string, body: string): string {
    var len := |prefix| + |body|;
    var pad := if pf.spacing > len then pf.spacing - len else 0;
    if pf.rightspc then prefix + body + Fill(pf.fillchar, pad)
    else if pf.fillchar == '0' then prefix + Fill('0', pad) + body
    else Fill(pf.fillchar, pad) + prefix + body
  }

  lemma PadReflects(pf: PF, m: string, prefix: string, body: string)
    requires pf.spacing == Width(m) && pf.rightspc == LeftAlign(m) && pf.fillchar == if ZeroFill(m) then '0' else ' '
    ensures PadText(pf, prefix, body) == Padded(m, prefix, body)
  {
  }

  /** __pf_printstuff. */
  method PrintStuff(pf: PF, snp: Snp, prefix: string, prefix2: string, stuff: string) returns (pf': PF)
    requires snp.Valid()
    modifies snp, snp.buf
    ensures snp.Valid() && snp.all == old(snp.all) + PadText(pf, prefix + prefix2, stuff)
    ensures Printed(pf, pf', PadText(pf, prefix + prefix2, stuff))
  {
    hide Snp.Valid, Fill, PadText;
    var len := |prefix| + |prefix2| + |stuff|;
    var spc := pf.spacing;
    if spc > len {
      spc := spc - len;
    } else {
      spc := 0;
    }
    ghost var all := snp.all;
    pf' := FillIf(pf, snp, spc > 0 && !pf.rightspc && pf.fillchar != '0', spc);
    pf' := Print(pf', snp, prefix);
    pf' := Print(pf', snp, prefix2);
    pf' := FillIf(pf', snp, spc > 0 && !pf.rightspc && pf.fillchar == '0', spc);
    pf' := Print(pf', snp, stuff);
    pf' := FillIf(pf', snp, spc > 0 && pf.rightspc, spc);
    PadParts(pf, prefix, prefix2, stuff, spc, all);
  }

  /** __pf_fill under a condition. */
  method FillIf(pf: PF, snp: Snp, cond: bool, spc: nat) returns (pf': PF)
    requires snp.Valid()
    modifies snp, snp.buf
    ensures snp.Valid() && snp.all == old(snp.all) + FillOr(cond, pf.fillchar, spc)
    ensures Printed(pf, pf', FillOr(cond, pf.fillchar, spc))
  {
    hide Snp.Valid, Fill;
    pf' := pf;
    if cond {
      pf' := PrintFill(pf, snp, spc);
    }
  }

  function FillOr(cond: bool, c: char, n: nat): string { if cond then Fill(c, n) else "" }

  lemma PadParts(pf: PF, prefix: string, prefix2: string, stuff: string, spc: nat, all: string)
    requires var len := |prefix| + |prefix2| + |stuff|; spc == if pf.spacing > len then pf.spacing - len else 0
    ensures var first := FillOr(spc > 0 && !pf.rightspc && pf.fillchar != '0', pf.fillchar, spc);
      var zeros := FillOr(spc > 0 && !pf.rightspc && pf.fillchar == '0', pf.fillchar, spc);
      var last := FillOr(spc > 0 && pf.rightspc, pf.fillchar, spc);
      && all + first + prefix + prefix2 + zeros + stuff + last == all + PadText(pf, prefix + prefix2, stuff)
      && |first| + |prefix| + |prefix2| + |zeros| + |stuff| + |last| == |PadText(pf, prefix + prefix2, stuff)|
  {
    var first := FillOr(spc > 0 && !pf.rightspc && pf.fillchar != '0', pf.fillchar, spc);
    var zeros := FillOr(spc > 0 && !pf.rightspc && pf.fillchar == '0', pf.fillchar, spc);
    var last := FillOr(spc > 0 && pf.rightspc, pf.fillchar, spc);
    hide Fill;
    var t := first + prefix + prefix2 + zeros + stuff + last;
    assert t == PadText(pf, prefix + prefix2, stuff);
    assert all + first + prefix + prefix2 + zeros + stuff + last == all + t;
  }

  function LowDigit(n: nat, b: nat): (d: nat)
    requires IsBase(b)
    ensures d < 16
  {
    n % b
  }

  function WithoutLowDigit(n: nat, b: nat): (r: nat)
    requires IsBase(b)
    ensures if n == 0 then r == 0 else r < n
  {
    n / b
  }

  lemma NumeralStep(n: nat, b: nat)
    requires IsBase(b)
    ensures var r := WithoutLowDigit(n, b);
      Numeral(n, b) == (if r > 0 then Numeral(r, b) else "") + [DigitChar(LowDigit(n, b))]
  {
    hide DigitChar;
  }

  /**
    The conversion loop of __pf_printnum: right to left, in a buffer just long enough. `x`
    is the position of the first character in use, one more than the source's pointer.
  */
  method DigitLoop(num: nat, base: nat, buf: array<char>) returns (x: nat)
    requires IsBase(base) && |Numeral(num, base)| < buf.Length
    modifies buf
    ensures x < buf.Length && buf[x..buf.Length - 1] == Numeral(num, base) && buf[buf.Length - 1] == '\0'
  {
    hide Numeral, DigitChar, LowDigit, WithoutLowDigit, IsBase, Holds;
    var last := buf.Length - 1;
    x := last;
    buf[x] := '\0';
    var xnum: nat := num;
    var more := true;
    ghost var text := "";
    HoldsNothing(buf[..]);
    while more
      invariant x == last - |text| && buf[last] == '\0' && Holds(buf[..], x, text)
      invariant Numeral(num, base) == (if more then Numeral(xnum, base) else "") + text
      decreases more, xnum
    {
      OneMoreDigit(num, base, xnum, text);
      ghost var held := buf[..];
      x := x - 1;
      var c := DigitChar(LowDigit(xnum, base));
      buf[x] := c;
      HoldsMore(held, x, text, c);
      text := [c] + text;
      xnum := WithoutLowDigit(xnum, base);
      more := xnum > 0;
    }
    HeldText(buf[..], x, text);
  }

  /** The text stands in the buffer from `x` up to its last character. */
  ghost predicate Holds(buf: seq<char>, x: nat, text: string) {
    x + |text| + 1 == |buf| && forall k :: 0 <= k < |text| ==> buf[x + k] == text[k]
  }

  lemma HoldsNothing(buf: seq<char>)
    requires buf != []
    ensures Holds(buf, |buf| - 1, "")
  {
  }

  lemma HoldsMore(buf: seq<char>, x: nat, text: string, c: char)
    requires Holds(buf, x + 1, text)
    ensures x < |buf| && Holds(buf[x := c], x, [c] + text)
  {
  }

  lemma HeldText(buf: seq<char>, x: nat, text: string)
    requires Holds(buf, x, text)
    ensures x < |buf| && buf[x..|buf| - 1] == text
  {
  }

  lemma OneMoreDigit(num: nat, b: nat, n: nat, text: string)
    requires IsBase(b) && Numeral(num, b) == Numeral(n, b) + text
    ensures var r := WithoutLowDigit(n, b);
      Numeral(num, b) == (if r > 0 then Numeral(r, b) else "") + ([DigitChar(LowDigit(n, b))] + text)
    ensures |text| < |Numeral(num, b)|
  {
    hide Numeral, DigitChar, LowDigit, WithoutLowDigit, IsBase;
    NumeralStep(n, b);
    var r := WithoutLowDigit(n, b);
    Regroup(if r > 0 then Numeral(r, b) else "", DigitChar(LowDigit(n, b)), text);
  }

  lemma Regroup(a: string, c: char, text: string)
    ensures a + [c] + text == a + ([c] + text) && |text| < |a + [c] + text|
  {
  }

  /** __pf_getnum. */
  function GetNum(pf: PF, ch: char, arg: Arg): PF {
    var pf := pf.(argpos := pf.argpos + 1);
    if ch == 'p' then pf.(num := AsUnsigned(arg.value, IntSz))
    else if ch == 'd' then
      var n := AsSigned(arg.value, pf.size);
      if n < 0 then pf.(sign := true, num := -n) else pf.(num := n)
    else pf.(num := AsUnsigned(arg.value, pf.size))
  }

  /** __pf_setbase. */
  function SetBase(pf: PF, ch: char): PF {
    pf.(base := if ch == 'd' || ch == 'u' then 10 else if ch == 'x' || ch == 'p' then 16 else if ch == 'o' then 8 else pf.base,
        baseprefix := pf.baseprefix || pf.altformat || ch == 'p')
  }

  /** __pf_printnum. */
  method PrintNum(pf: PF, snp: Snp) returns (pf': PF)
    requires snp.Valid() && IsBase(pf.base) && pf.num < DWORD
    modifies snp, snp.buf
    ensures snp.Valid() && snp.all == old(snp.all) + NumText(pf) && Printed(pf, pf', NumText(pf))
  {
    hide Snp.Valid, Numeral, PadText;
    NumeralFits(pf.num, pf.base);
    var buf := new char[NUMBER_BUF_SIZE];
    var x := DigitLoop(pf.num, pf.base, buf);
    var bprefix := if pf.baseprefix && pf.base == 16 then "0x" else if pf.baseprefix && pf.base == 8 then "0" else "";
    var sprefix := if pf.sign then "-" else "";
    pf' := PrintStuff(pf, snp, sprefix, bprefix, buf[x..NUMBER_BUF_SIZE - 1]);
  }

  function NumText(pf: PF): string
    requires IsBase(pf.base)
  {
    var bprefix := if pf.baseprefix && pf.base == 16 then "0x" else if pf.baseprefix && pf.base == 8 then "0" else "";
    PadText(pf, (if pf.sign then "-" else "") + bprefix, Numeral(pf.num, pf.base))
  }

  /** The number fetched and the base set make the field that the directive asks for. */
  lemma NumberFieldIs(pf: PF, m: string, ch: char, arg: Arg)
    requires Reflects(pf, m) && IsNumeric(ch)
    ensures var pf1 := SetBase(GetNum(pf, ch, arg), ch);
      IsBase(pf1.base) && pf1.num < DWORD && NumText(pf1) == NumberField(m, ch, arg.value)
  {
    hide Numeral, Padded, PadText, Width, ZeroFill, SizeOf, LeftAlign, AsSigned, AsUnsigned, IsNumeric;
    NumericCases(ch);
    NumberRange(arg.value, SizeOf(m));
    NumberRange(arg.value, IntSz);
    var pf1 := SetBase(GetNum(pf, ch, arg), ch);
    PadReflects(pf1, m, (if pf1.sign then "-" else "") + BasePrefix(m, ch), Numeral(pf1.num, pf1.base));
    assert "" + BasePrefix(m, ch) == BasePrefix(m, ch);
  }

  lemma NumericCases(ch: char)
    requires IsNumeric(ch)
    ensures ch == 'd' || ch == 'o' || ch == 'u' || ch == 'p' || ch == 'x'
  {
  }

  lemma NumberRange(v: int, size: Size)
    ensures -DWORD < AsSigned(v, size) < DWORD && AsUnsigned(v, size) < DWORD
  {
  }

  /** The end of a directive: its field printed, the state reset. */
  ghost predicate Ended(pf: PF, pf': PF, ch: char, field: string) {
    pf' == EndField(pf).(charcount := pf.charcount + |field|, argpos := if TakesArg(ch) then pf.argpos + 1 else pf.argpos)
  }

  /** The last part of __pf_send: a conversion character. */
  method Convert(pf: PF, snp: Snp, ch: char, args: nat -> Arg, ghost m: string) returns (pf': PF)
    requires snp.Valid() && Reflects(pf, m)
    modifies snp, snp.buf
    ensures snp.Valid() && snp.all == old(snp.all) + Field(m, ch, args(pf.argpos))
    ensures Ended(pf, pf', ch, Field(m, ch, args(pf.argpos)))
  {
    hide Snp.Valid, Numeral, PadText, NumberField, Padded, Width, ZeroFill, SizeOf, LeftAlign, NumText;
    var arg := args(pf.argpos);
    if IsNumeric(ch) {
      NumberFieldIs(pf, m, ch, arg);
      pf' := PrintNum(SetBase(GetNum(pf, ch, arg), ch), snp);
    } else {
      var text := if ch == 's' then if arg.text.Some? then arg.text.value else "(null)" else if ch == 'c' then CharText(arg.value) else [ch];
      assert "" + "" == "";
      pf' := if ch == 's' || ch == 'c' then pf.(argpos := pf.argpos + 1) else pf;
      PadReflects(pf', m, "", text);
      pf' := PrintStuff(pf', snp, "", "", text);
    }
    pf' := EndField(pf');
  }

  // ---------- the whole session ----------

  ghost predicate AllModifiers(m: string) {
    forall i :: 0 <= i < |m| ==> IsModifier(m[i])
  }

  /** Between directives, or inside one whose modifiers so far are `m`. */
  ghost predicate InState(pf: PF, m: string) {
    if pf.inPct then Reflects(pf, m) && AllModifiers(m) else Between(pf)
  }

  /** What is still to be printed. */
  function ToCome(pf: PF, m: string, fmt: string, args: nat -> Arg): string {
    if pf.inPct then RenderOpen(m, fmt, args, pf.argpos) else Render(fmt, args, pf.argpos)
  }

  /** __pf_send on the next character of the format, `fmt[0]`. */
  method SendChar(pf: PF, snp: Snp, ch: char, args: nat -> Arg, ghost fmt: string, ghost m: string)
      returns (pf': PF, ghost m': string)
    requires snp.Valid() && InState(pf, m) && fmt != "" && fmt[0] == ch
    modifies snp, snp.buf
    ensures snp.Valid() && InState(pf', m')
    ensures snp.all + ToCome(pf', m', fmt[1..], args) == old(snp.all) + ToCome(pf, m, fmt, args)
    ensures pf'.charcount - pf.charcount == |snp.all| - |old(snp.all)|
  {
    hide Snp.Valid, Render, RenderOpen, Reflects, Field, Modifier, TakesArg;
    m' := m;
    if !pf.inPct && ch != '%' {
      pf' := Print(pf, snp, [ch]);
      LiteralChar(fmt, args, pf.argpos);
    } else if !pf.inPct {
      pf' := pf.(inPct := true);
      m' := "";
      StartReflects(pf);
      OpenDirective(fmt, args, pf.argpos);
    } else if IsModifier(ch) {
      pf' := Modifier(pf, ch);
      m' := m + [ch];
      ModifierReflects(pf, m, ch);
      ModifierFrame(pf, ch);
      ReadModifier(m, fmt, args, pf.argpos);
    } else {
      pf' := Convert(pf, snp, ch, args, m);
      CloseDirective(m, fmt, args, pf.argpos);
    }
  }

  lemma ModifierFrame(pf: PF, ch: char)
    requires IsModifier(ch)
    ensures var pf' := Modifier(pf, ch); pf'.inPct == pf.inPct && pf'.argpos == pf.argpos && pf'.charcount == pf.charcount
  {
  }

  /** __vprintf prints what the format asks for and returns its length. */
  method Vprintf(snp: Snp, format: string, args: nat -> Arg) returns (chars: nat)
    requires snp.Valid()
    modifies snp, snp.buf
    ensures snp.Valid() && snp.all == old(snp.all) + Render(format, args, 0)
    ensures chars == |Render(format, args, 0)|
  {
    hide Snp.Valid, Render, RenderOpen, Reflects;
    var pf := EndField(PF(0, 0, false, IntSz, 0, false, 0, false, ' ', 0, false, false));
    ghost var m := "";
    var i := 0;
    assert format[0..] == format;
    while i < |format|
      invariant 0 <= i <= |format| && snp.Valid() && InState(pf, m)
      invariant snp.all + ToCome(pf, m, format[i..], args) == old(snp.all) + Render(format, args, 0)
      invariant pf.charcount == |snp.all| - |old(snp.all)|
    {
      pf, m := SendChar(pf, snp, format[i], args, format[i..], m);
      assert format[i..][1..] == format[i + 1..];
      i := i + 1;
    }
    NothingToCome(pf, m, args);
    chars := pf.charcount;
  }

  lemma NothingToCome(pf: PF, m: string, args: nat -> Arg)
    ensures ToCome(pf, m, "", args) == ""
  {
  }

  /** vsnprintf, into the first `len` characters of `buf`. */
  method Vsnprintf(buf: array<char>, len: nat, fmt: string, args: nat -> Arg) returns (chars: nat)
    requires len <= buf.Length
    modifies buf
    ensures var out := Render(fmt, args, 0);
      && chars == |out|
      && (len == 0 ==> buf[..] == old(buf[..]))
      && (len > 0 ==>
            var k := Min(len - 1, |out|);
            buf[..k] == out[..k] && buf[k] == '\0' && buf[k + 1..] == old(buf[k + 1..]))
  {
    hide Render;
    ghost var b := buf[..];
    var snp := new Snp(buf, if len == 0 then 0 else len - 1);
    chars := Vprintf(snp, fmt, args);
    assert "" + Render(fmt, args, 0) == Render(fmt, args, 0);
    if len > 0 {
      buf[snp.bufpos] := '\0';
    }
  }
}
