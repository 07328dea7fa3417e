/**
  Signed 64-bit division and remainder over the unsigned routine
  (common/gcc-millicode/divdi3.c, common/gcc-millicode/moddi3.c).
*/
module SignedDivision {
  import opened Basics
  import opened Words
  import opened Arith
  import QDivRem

  datatype Outcome = Trap | Value(value: sdword)

  const LEAST: sdword := -0x8000_0000_0000_0000

  /** C's quotient and remainder: towards zero, the remainder with the dividend's sign. */
  ghost predicate Truncates(a: int, b: int, q: int, r: int) {
    && a == q * b + r
    && Abs(r) < Abs(b)
    && (a >= 0 ==> r >= 0)
    && (a <= 0 ==> r <= 0)
  }

  function Quot(a: int, b: int): int
    requires b != 0
  {
    if (a < 0) != (b < 0) then -(Abs(a) / Abs(b)) else Abs(a) / Abs(b)
  }

  function Rem(a: int, b: int): int
    requires b != 0
  {
    if a < 0 then -(Abs(a) % Abs(b)) else Abs(a) % Abs(b)
  }

  lemma QuotRemTruncate(a: int, b: int)
    requires b != 0
    ensures Truncates(a, b, Quot(a, b), Rem(a, b))
  {
    hide Truncates;
    DivMod(Abs(a), Abs(b));
    TruncateFrom(a, b, Abs(a) / Abs(b), Abs(a) % Abs(b));
  }

  lemma DivMod(x: int, y: int)
    requires 0 < y
    ensures x == x / y * y + x % y && 0 <= x % y < y
  {
  }

  lemma NegMul(q: int, b: int)
    ensures (-q) * b == -(q * b) && q * (-b) == -(q * b)
  {
  }

  lemma TruncateFrom(a: int, b: int, q: int, r: int)
    requires b != 0 && Abs(a) == q * Abs(b) + r && 0 <= r < Abs(b)
    ensures Truncates(a, b, if (a < 0) != (b < 0) then -q else q, if a < 0 then -r else r)
  {
    NegMul(q, b);
  }

  /** There is only one way to divide that way, so the two functions are C's operators. */
  lemma TruncationIsUnique(a: int, b: int, q: int, r: int)
    requires b != 0 && Truncates(a, b, q, r)
    ensures q == Quot(a, b) && r == Rem(a, b)
  {
    QuotRemTruncate(a, b);
    hide Quot, Rem;
    MulDistrib(q - Quot(a, b), Quot(a, b), b);
    SmallMultiple(q - Quot(a, b), b);
  }

  lemma SmallMultiple(k: int, b: int)
    requires b != 0
    ensures k != 0 ==> Abs(k * b) >= Abs(b)
  {
    if k > 0 && b > 0 { MulMono(1, k, b); }
    if k < 0 && b > 0 { MulMono(k, -1, b); }
    if k > 0 && b < 0 { MulMono(1, k, -b); assert k * (-b) == -(k * b); }
    if k < 0 && b < 0 { MulMono(k, -1, -b); assert k * (-b) == -(k * b); }
  }

  method Divide(a: sdword, b: sdword) returns (r: Outcome)
    ensures r == if b == 0 then Trap else Value(AsSigned64(Wrap64(Quot(a, b))))
  {
    hide Wrap64;
    var ua, ub, neg := Wrap64(a), Wrap64(b), false;
    if a < 0 { ua, neg := Neg64(ua), !neg; }
    if b < 0 { ub, neg := Neg64(ub), !neg; }
    Unsigned(a);
    Unsigned(b);
    var d := QDivRem.DivRem(ua, ub, false);
    match d
    case Trap => return Trap;
    case Quotient(uq, _) =>
      SmallStays(uq);
      if neg { uq := Neg64(uq); }
      return Value(AsSigned64(uq));
  }

  lemma SmallStays(x: dword)
    ensures Wrap64(x) == x
  {
  }

  method Remainder(a: sdword, b: sdword) returns (r: Outcome)
    ensures r == if b == 0 then Trap else Value(Rem(a, b))
  {
    hide Wrap64, Neg64, Rem;
    var ua, ub, neg := Wrap64(a), Wrap64(b), false;
    if a < 0 { ua, neg := Neg64(ua), !neg; }
    if b < 0 { ub := Neg64(ub); }
    Unsigned(a);
    Unsigned(b);
    var d := QDivRem.DivRem(ua, ub, true);
    match d
    case Trap => return Trap;
    case Quotient(_, rem) =>
      var ur := rem.value;
      SignBack(a, b);
      if neg { ur := Neg64(ur); }
      return Value(AsSigned64(ur));
  }

  /** The conversion to unsigned, negated when the operand is negative, is the magnitude. */
  lemma Unsigned(a: sdword)
    ensures (if a < 0 then Neg64(Wrap64(a)) else Wrap64(a)) == Abs(a)
  {
    if a < 0 {
      DivModUnique(a, DWORD, -1, a + DWORD);
      DivModUnique(-(a + DWORD), DWORD, -1, -(a as int));
    }
  }

  /** A remainder always fits when its sign is put back. */
  lemma SignBack(a: sdword, b: sdword)
    requires b != 0
    ensures 0 <= Abs(a) % Abs(b) < 0x8000_0000_0000_0000
    ensures AsSigned64(if a < 0 then Neg64(Abs(a) % Abs(b)) else Abs(a) % Abs(b)) == Rem(a, b)
  {
    DivMod(Abs(a), Abs(b));
    SignPutBack(Abs(a) % Abs(b));
  }

  lemma SignPutBack(r: int)
    requires 0 <= r < 0x8000_0000_0000_0000
    ensures AsSigned64(Neg64(r)) == -r
  {
  }

  /** The quotient needs its wrap in exactly one case. */
  lemma QuotientFits(a: sdword, b: sdword)
    requires b != 0
    ensures AsSigned64(Wrap64(Quot(a, b))) == Quot(a, b) <==> !(a == LEAST && b == -1)
  {
    DivMod(Abs(a), Abs(b));
    QuotientSize(Abs(a), Abs(b), Abs(a) / Abs(b), Abs(a) % Abs(b));
    SignedRange(Quot(a, b));
  }

  lemma QuotientSize(x: int, y: int, q: int, r: int)
    requires x == q * y + r && 0 <= r < y && 0 <= x
    ensures 0 <= q <= x && (y >= 2 ==> 2 * q <= x) && (y == 1 ==> q == x)
  {
    if q < 0 { MulMono(q, -1, y); }
    MulMono(1, y, q);
    if y >= 2 { MulMono(2, y, q); }
  }

  lemma SignedRange(x: int)
    requires Abs(x) <= 0x8000_0000_0000_0000
    ensures AsSigned64(Wrap64(x)) == x <==> x < 0x8000_0000_0000_0000
  {
  }
}
