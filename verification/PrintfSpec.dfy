/**
  What printf prints (common/libc/printf/__printf.c), stated directive by directive: a
  directive is a percent sign, a run of modifier characters and one more character, and its
  modifiers count by what is among them, not by the order the code meets them in.
*/
module PrintfSpec {
  import opened Basics
  import opened Numerals
  import opened Words

  /** An argument, as the number and as the string a directive may take it for. */
  datatype Arg = Arg(value: int, text: Option<string>)

  datatype Size = IntSz | LongSz | LLongSz | SizeTSz

  /** int, long, size_t and pointers have 32 bits, long long has 64. */
  function Range(size: Size): nat { if size.LLongSz? then DWORD else WORD }

  function AsUnsigned(v: int, size: Size): nat { v % Range(size) }

  function AsSigned(v: int, size: Size): int {
    var u := v % Range(size);
    if u < Range(size) / 2 then u else u - Range(size)
  }

  // ---------- modifiers ----------

  const MODIFIERS := "#-lz0123456789"

  predicate IsModifier(c: char) { c in MODIFIERS }

  predicate IsDigit(c: char) { '0' <= c <= '9' }

  function Last(m: string): char
    requires m != ""
  {
    m[|m| - 1]
  }

  function Front(m: string): string
    requires m != ""
  {
    m[..|m| - 1]
  }

  /** The digits among the modifiers, in order. */
  function DigitsIn(m: string): (d: string)
    ensures AllDigits(d) && forall i :: 0 <= i < |d| ==> IsDigit(d[i])
  {
    if m == "" then ""
    else if IsDigit(Last(m)) then DigitsIn(Front(m)) + [Last(m)]
    else DigitsIn(Front(m))
  }

  function Width(m: string): nat { Value(DigitsIn(m), 10) }

  predicate ZeroFill(m: string) { DigitsIn(m) != "" && DigitsIn(m)[0] == '0' }

  predicate LeftAlign(m: string) { '-' in m }

  /** The number of l's since the last z. */
  function Ells(m: string): nat {
    if m == "" || Last(m) == 'z' then 0
    else Ells(Front(m)) + if Last(m) == 'l' then 1 else 0
  }

  function SizeOf(m: string): Size {
    if Ells(m) > 0 then if Ells(m) % 2 == 1 then LongSz else LLongSz
    else if 'z' in m then SizeTSz else IntSz
  }

  // ---------- one field ----------

  function Fill(c: char, n: nat): (s: string)
    ensures |s| == n
  {
    seq(n, _ => c)
  }

  /** Spaces go before the prefix, zeros after it, and on the right whichever was chosen. */
  function Padded(m: string, prefix: string, body: string): string {
    var len := |prefix| + |body|;
    var pad := if Width(m) > len then Width(m) - len else 0;
    if LeftAlign(m) then prefix + body + Fill(if ZeroFill(m) then '0' else ' ', pad)
    else if ZeroFill(m) then prefix + Fill('0', pad) + body
    else Fill(' ', pad) + prefix + body
  }

  predicate IsNumeric(c: char) { c in "doupx" }

  function BaseOf(c: char): nat { if c == 'o' then 8 else if c == 'x' || c == 'p' then 16 else 10 }

  function BasePrefix(m: string, c: char): string {
    if '#' in m || c == 'p' then if BaseOf(c) == 16 then "0x" else if BaseOf(c) == 8 then "0" else "" else ""
  }

  function NumberField(m: string, c: char, v: int): string {
    if c == 'd' then
      var n := AsSigned(v, SizeOf(m));
      Padded(m, (if n < 0 then "-" else "") + BasePrefix(m, c), Numeral(if n < 0 then -n else n, 10))
    else if c == 'p' then Padded(m, BasePrefix(m, c), Numeral(AsUnsigned(v, IntSz), 16))
    else Padded(m, BasePrefix(m, c), Numeral(AsUnsigned(v, SizeOf(m)), BaseOf(c)))
  }

  /** A character argument; a NUL ends the one-character string before it begins. */
  function CharText(v: int): string {
    if v % 256 == 0 then "" else [(v % 256) as char]
  }

  function Field(m: string, c: char, arg: Arg): string {
    if IsNumeric(c) then NumberField(m, c, arg.value)
    else if c == 's' then Padded(m, "", if arg.text.Some? then arg.text.value else "(null)")
    else if c == 'c' then Padded(m, "", CharText(arg.value))
    else Padded(m, "", [c])
  }

  predicate TakesArg(c: char) { IsNumeric(c) || c == 's' || c == 'c' }

  // ---------- the whole format ----------

  /** The length of the run of modifiers at the start of a string. */
  function ModifierRun(s: string): (k: nat)
    ensures k <= |s| && (k < |s| ==> !IsModifier(s[k])) && forall i :: 0 <= i < k ==> IsModifier(s[i])
  {
    if s != "" && IsModifier(s[0]) then 1 + ModifierRun(s[1..]) else 0
  }

  /** An unfinished directive at the end prints nothing. */
  function Render(fmt: string, args: nat -> Arg, pos: nat): string
    decreases |fmt|
  {
    if fmt == "" then ""
    else if fmt[0] != '%' then [fmt[0]] + Render(fmt[1..], args, pos)
    else
      var k := 1 + ModifierRun(fmt[1..]);
      if k == |fmt| then ""
      else Field(fmt[1..k], fmt[k], args(pos)) + Render(fmt[k + 1..], args, if TakesArg(fmt[k]) then pos + 1 else pos)
  }

  /** The rest of the output, with the modifiers `m` of an open directive already read. */
  function RenderOpen(m: string, fmt: string, args: nat -> Arg, pos: nat): string {
    var k := ModifierRun(fmt);
    if k == |fmt| then ""
    else Field(m + fmt[..k], fmt[k], args(pos)) + Render(fmt[k + 1..], args, if TakesArg(fmt[k]) then pos + 1 else pos)
  }

  lemma LiteralChar(fmt: string, args: nat -> Arg, pos: nat)
    requires fmt != "" && fmt[0] != '%'
    ensures Render(fmt, args, pos) == [fmt[0]] + Render(fmt[1..], args, pos)
  {
  }

  lemma OpenDirective(fmt: string, args: nat -> Arg, pos: nat)
    requires fmt != "" && fmt[0] == '%'
    ensures Render(fmt, args, pos) == RenderOpen("", fmt[1..], args, pos)
  {
    hide Field, ModifierRun, TakesArg;
    var k := ModifierRun(fmt[1..]);
    assert "" + fmt[1..][..k] == fmt[1..k + 1];
    if 1 + k < |fmt| { assert fmt[1..][k + 1..] == fmt[k + 2..]; }
  }

  lemma ReadModifier(m: string, fmt: string, args: nat -> Arg, pos: nat)
    requires fmt != "" && IsModifier(fmt[0])
    ensures RenderOpen(m, fmt, args, pos) == RenderOpen(m + [fmt[0]], fmt[1..], args, pos)
  {
    hide Field, Render;
    var k := ModifierRun(fmt[1..]);
    assert ModifierRun(fmt) == k + 1;
    assert m + fmt[..k + 1] == m + [fmt[0]] + fmt[1..][..k];
    if 1 + k < |fmt| { assert fmt[1..][k + 1..] == fmt[k + 2..]; }
  }

  lemma CloseDirective(m: string, fmt: string, args: nat -> Arg, pos: nat)
    requires fmt != "" && !IsModifier(fmt[0])
    ensures RenderOpen(m, fmt, args, pos)
         == Field(m, fmt[0], args(pos)) + Render(fmt[1..], args, if TakesArg(fmt[0]) then pos + 1 else pos)
  {
    hide Field, Render;
    assert m + fmt[..0] == m;
  }
}
