/**
  64-bit multiplication from 32-bit pieces by the three-product scheme of
  common/gcc-millicode/muldi3.c: middle terms with a sign kept apart, carries
  recovered by comparing wrapped sums.
*/
module MulDi3 {
  import opened Basics
  import opened Words
  import opened Arith

  // ---------- sums kept in two words ----------

  lemma WrapWrap(x: int, y: int)
    ensures Wrap64(Wrap64(x) + y) == Wrap64(x + y)
  {
    var q := x / DWORD;
    assert x == q * DWORD + Wrap64(x);
    Congruent(Wrap64(x) + y, x + y, q);
  }

  lemma Congruent(x: int, y: int, q: int)
    requires y == x + q * DWORD
    ensures Wrap64(x) == Wrap64(y)
  {
    DivModUnique(y, DWORD, x / DWORD + q, x % DWORD);
  }

  /** A two-word number in range that differs from `x` by whole multiples of 2^64 is `x` wrapped. */
  lemma IsWrapped(h: word, l: word, x: int, q: int)
    requires Join(h, l) == x + q * DWORD
    ensures Join(h, l) == Wrap64(x)
  {
    Congruent(x, Join(h, l), q);
  }

  /** l << N splits into HHALF(l) and LHUP(l). */
  lemma ShiftedParts(x: word)
    ensures HighHalf(x) * WORD + LowHalfUp(x) == x * BASE
    ensures LowHalfUp(x) == LowHalf(x) * BASE
  {
    assert x * BASE == HighHalf(x) * WORD + LowHalf(x) * BASE;
  }

  /** The carry out of a wrapped addition is seen by comparing with an operand. */
  lemma CarrySeen(a: word, b: word)
    ensures Wrap32(a + b) == a + b - (if Wrap32(a + b) < a then 1 else 0) * WORD
    ensures Wrap32(a + b) < a <==> Wrap32(a + b) < b
  {
  }

  /** The borrow out of a wrapped subtraction is seen by comparing with the minuend. */
  lemma BorrowSeen(a: word, b: word)
    ensures Wrap32(a - b) == a - b + (if Wrap32(a - b) > a then 1 else 0) * WORD
  {
  }

  lemma AddWords(h: word, l: word, x: int, dh: int, dl: word)
    requires Join(h, l) == Wrap64(x)
    ensures var l' := Wrap32(l + dl);
      var c := if l' < l then 1 else 0;
      Join(Wrap32(h + dh + c), l') == Wrap64(x + dh * WORD + dl)
  {
    var l' := Wrap32(l + dl);
    CarrySeen(l, dl);
    var c := if l' < l then 1 else 0;
    var e := (h + dh + c) / WORD;
    assert Wrap32(h + dh + c) == h + dh + c - e * WORD;
    IsWrapped(Wrap32(h + dh + c), l', Wrap64(x) + dh * WORD + dl, -e);
    WrapWrap(x, dh * WORD + dl);
  }

  lemma SubtractWords(h: word, l: word, x: int, dh: int, dl: word)
    requires Join(h, l) == Wrap64(x)
    ensures var l' := Wrap32(l - dl);
      var c := if l' > l then 1 else 0;
      Join(Wrap32(h - (dh + c)), l') == Wrap64(x - dh * WORD - dl)
  {
    var l' := Wrap32(l - dl);
    BorrowSeen(l, dl);
    var c := if l' > l then 1 else 0;
    var e := (h - (dh + c)) / WORD;
    assert Wrap32(h - (dh + c)) == h - (dh + c) - e * WORD;
    IsWrapped(Wrap32(h - (dh + c)), l', Wrap64(x) - dh * WORD - dl, -e);
    WrapWrap(x, -(dh * WORD) - dl);
  }

  // ---------- the three products ----------

  /** The absolute difference and whether it was taken the other way round. */
  function AbsDiff(a: word, b: word): word { if a >= b then a - b else b - a }

  lemma MiddleSigned(u1: word, u0: word, v1: word, v0: word, neg: bool)
    requires neg == ((u1 < u0) != (v0 < v1))
    ensures Signed(neg, Product(AbsDiff(u1, u0), AbsDiff(v0, v1))) == Cross(u1, u0, v1, v0)
  {
  }

  function Product(a: int, b: int): int { a * b }

  function Cross(u1: int, u0: int, v1: int, v0: int): int { (u1 - u0) * (v0 - v1) }

  /** The identity behind the scheme: one long product from three short ones. */
  lemma ThreeProducts(u: int, v: int, b: int, u1: int, u0: int, v1: int, v0: int)
    requires u == u1 * b + u0 && v == v1 * b + v0
    ensures u * v == Product(u1, v1) * (b * b)
                   + (Product(u1, v1) + Cross(u1, u0, v1, v0) + Product(u0, v0)) * b + Product(u0, v0)
  {
    assert Cross(u1, u0, v1, v0) == u1 * v0 - u1 * v1 - u0 * v0 + u0 * v1;
    assert u * v == u1 * v1 * (b * b) + u1 * v0 * b + u0 * v1 * b + u0 * v0;
    assert (u1 * v0 + u0 * v1) * b == u1 * v0 * b + u0 * v1 * b;
  }

  lemma ProductIs(a: int, b: int)
    ensures Product(a, b) == a * b
  {
  }

  lemma HalfProduct(a: half, b: half)
    ensures 0 <= a * b <= (BASE - 1) * (BASE - 1)
  {
    MulMono(0, a, b);
    MulMono(a, BASE - 1, b);
  }

  lemma NoOverflow(a: half, b: half)
    ensures Mul32(a, b) == Product(a, b)
  {
    HalfProduct(a, b);
  }

  /** The exact product of two words, modulo nothing. */
  method WordProduct(u: word, v: word) returns (p: dword)
    ensures p == u as int * v
  {
    hide Wrap64, Mul32, Product, Cross;
    var u1, u0, v1, v0 := HighHalf(u), LowHalf(u), HighHalf(v), LowHalf(v);
    ThreeProducts(u, v, BASE, u1, u0, v1, v0);
    var low := Mul32(u0, v0);
    NoOverflow(u0, v0);
    if u1 == 0 && v1 == 0 {
      ProductIs(u0, v0);
      return low;
    }
    var udiff, neg := AbsDiff(u1, u0), u1 < u0;
    var vdiff := AbsDiff(v0, v1);
    if v0 < v1 { neg := !neg; }
    var mid := Mul32(udiff, vdiff);
    NoOverflow(udiff, vdiff);
    var high := Mul32(u1, v1);
    NoOverflow(u1, v1);
    p := Assemble(high, mid, neg, low);
    MiddleSigned(u1, u0, v1, v0, neg);
    ExactProduct(u, v, high, Cross(u1, u0, v1, v0), low);
  }

  lemma ExactProduct(u: word, v: word, high: int, mid: int, low: int)
    requires u * v == high * WORD + (high + mid + low) * BASE + low
    ensures Wrap64(high * WORD + high * BASE + mid * BASE + low * BASE + low) == u * v
  {
    MulMono(0, u, v);
    MulMono(u, WORD - 1, v);
  }

  /** (high << 2N) + (high << N) +- (mid << N) + (low << N) + low, carries and borrows by hand. */
  method Assemble(high: word, mid: word, neg: bool, low: word) returns (p: dword)
    ensures p == Wrap64(high * WORD + high * BASE + Signed(neg, mid) * BASE + low * BASE + low)
  {
    hide Wrap32, Wrap64;
    ghost var e := high * WORD + high * BASE;
    ShiftedParts(high);
    ShiftedParts(mid);
    ShiftedParts(low);
    HighStart(high);
    var prodh, prodl := Wrap32(high + HighHalf(high)), LowHalfUp(high);
    var was := prodl;
    if neg {
      SubtractWords(prodh, prodl, e, HighHalf(mid), LowHalfUp(mid));
      prodl := Wrap32(prodl - LowHalfUp(mid));
      prodh := Wrap32(prodh - (HighHalf(mid) + (if prodl > was then 1 else 0)));
      e := e - mid * BASE;
    } else {
      AddWords(prodh, prodl, e, HighHalf(mid), LowHalfUp(mid));
      prodl := Wrap32(prodl + LowHalfUp(mid));
      prodh := Wrap32(prodh + (HighHalf(mid) + (if prodl < was then 1 else 0)));
      e := e + mid * BASE;
    }
    was := prodl;
    AddWords(prodh, prodl, e, HighHalf(low), LowHalfUp(low));
    prodl := Wrap32(prodl + LowHalfUp(low));
    prodh := Wrap32(prodh + (HighHalf(low) + (if prodl < was then 1 else 0)));
    e := e + low * BASE;
    AddWords(prodh, prodl, e, 0, low);
    CarrySeen(prodl, low);
    NoCarry(prodh);
    prodl := Wrap32(prodl + low);
    if prodl < low { prodh := Wrap32(prodh + 1); }
    p := Join(prodh, prodl);
  }

  lemma NoCarry(h: word)
    ensures Wrap32(h) == h
  {
  }

  lemma HighStart(high: word)
    ensures Join(Wrap32(high + HighHalf(high)), LowHalfUp(high)) == Wrap64(high * WORD + high * BASE)
  {
    ShiftedParts(high);
    var e := (high + HighHalf(high)) / WORD;
    assert Wrap32(high + HighHalf(high)) == high + HighHalf(high) - e * WORD;
    IsWrapped(Wrap32(high + HighHalf(high)), LowHalfUp(high), high * WORD + high * BASE, -e);
  }

  // ---------- the 64-bit product ----------

  lemma WrapProducts(high: int, mid: int, u: dword, v: dword, low: dword)
    requires u * v == high * DWORD + (high + mid + low) * WORD + low
    ensures Join(Wrap32(Wrap32(high) + mid + LowWord(low) + HighWord(low)), LowWord(low)) == Wrap64(u * v)
    ensures Join(Wrap32(Wrap32(high) + Wrap32(mid) + LowWord(low) + HighWord(low)), LowWord(low)) == Wrap64(u * v)
  {
    var lh, ll := HighWord(low), LowWord(low);
    assert low == lh * WORD + ll;
    var e, f := high / WORD, mid / WORD;
    assert high == e * WORD + Wrap32(high) && mid == f * WORD + Wrap32(mid);
    var x := Wrap32(high) + mid + ll + lh;
    var g := x / WORD;
    assert x == g * WORD + Wrap32(x);
    IsWrapped(Wrap32(x), ll, u * v, -(high + lh + e + g));
    var y := Wrap32(high) + Wrap32(mid) + ll + lh;
    assert Wrap32(y) == Wrap32(x) by { DivModUnique(y, WORD, g - f, Wrap32(x)); }
  }

  /** Negating modulo 2^32 before or after wrapping is the same. */
  lemma WrapNegated(x: int)
    ensures Neg32(Wrap32(x)) == Wrap32(-x)
  {
    var q := x / WORD;
    assert x == q * WORD + Wrap32(x);
    DivModUnique(-(Wrap32(x) as int), WORD, (-x) / WORD + q, (-x) % WORD);
  }

  /** The magnitude kept in the unsigned view: `-a` wraps for the most negative `a`. */
  function Magnitude(a: sdword): dword { if a >= 0 then a else Neg64(a) }

  lemma MagnitudeIs(a: sdword)
    ensures Magnitude(a) == Abs(a)
  {
  }

  lemma SignOfProduct(a: int, b: int)
    ensures a * b == if (a < 0) != (b < 0) then -(Abs(a) * Abs(b)) else Abs(a) * Abs(b)
  {
  }

  lemma WrapNegated64(x: int)
    ensures Neg64(Wrap64(x)) == Wrap64(-x)
  {
    var q := x / DWORD;
    assert x == q * DWORD + Wrap64(x);
    Congruent(-(Wrap64(x) as int), -x, -q);
  }

  /** The product modulo 2^64, on every pair of signed operands and on every path. */
  method Multiply(a: sdword, b: sdword) returns (r: sdword)
    ensures r == AsSigned64(Wrap64(a as int * b))
  {
    hide Wrap64, Wrap32;
    var u, v := Magnitude(a), Magnitude(b);
    var negall := a < 0;
    if b < 0 { negall := !negall; }
    MagnitudeIs(a);
    MagnitudeIs(b);
    SignOfProduct(a, b);
    var p := UnsignedMultiply(u, v);
    WrapNegated64(u as int * v);
    r := AsSigned64(if negall then Neg64(p) else p);
  }

  method UnsignedMultiply(u: dword, v: dword) returns (p: dword)
    ensures p == Wrap64(u as int * v)
  {
    hide Wrap64, Wrap32, Mul32, Product, Cross;
    var u1, u0, v1, v0 := HighWord(u), LowWord(u), HighWord(v), LowWord(v);
    ThreeProducts(u, v, WORD, u1, u0, v1, v0);
    var low := WordProduct(u0, v0);
    ProductIs(u0, v0);
    if u1 == 0 && v1 == 0 {
      WrapSmall(low);
      return low;
    }
    var udiff, negmid := AbsDiff(u1, u0), u1 < u0;
    var vdiff := AbsDiff(v0, v1);
    if v0 < v1 { negmid := !negmid; }
    var mid := Mul32(udiff, vdiff);
    var high := Mul32(u1, v1);
    MiddleWrapped(u1, u0, v1, v0, negmid);
    WrapProducts(Product(u1, v1), Cross(u1, u0, v1, v0), u, v, low);
    MulIs(u1, v1);
    p := Join(Wrap32(high + (if negmid then Neg32(mid) else mid) + LowWord(low) + HighWord(low)), LowWord(low));
  }

  lemma WrapSmall(x: dword)
    ensures Wrap64(x) == x
  {
  }

  lemma MiddleWrapped(u1: word, u0: word, v1: word, v0: word, neg: bool)
    requires neg == ((u1 < u0) != (v0 < v1))
    ensures var mid := Mul32(AbsDiff(u1, u0), AbsDiff(v0, v1));
      Wrap32(Cross(u1, u0, v1, v0)) == if neg then Neg32(mid) else mid
  {
    hide Wrap32;
    MiddleSigned(u1, u0, v1, v0, neg);
    WrapNegated(Product(AbsDiff(u1, u0), AbsDiff(v0, v1)));
  }

  lemma MulIs(a: word, b: word)
    ensures Mul32(a, b) == Wrap32(Product(a, b))
  {
  }
}
