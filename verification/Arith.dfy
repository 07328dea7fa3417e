/** Small facts about products, stated apart so that each proof names the one it uses. */
module Arith {

  lemma MulMono(a: int, b: int, c: int)
    requires a <= b && 0 <= c
    ensures a * c <= b * c
  {
    assert (b - a) * c >= 0;
  }

  lemma MulDistrib(a: int, b: int, c: int)
    ensures (a + b) * c == a * c + b * c
  {
  }

  lemma MulAssoc(a: int, b: int, c: int)
    ensures (a * b) * c == a * (b * c)
  {
  }

  /** A quotient and remainder in range are the quotient and remainder. */
  lemma DivModUnique(u: int, v: int, q: int, r: int)
    requires 0 <= r < v
    requires u == q * v + r
    ensures u / v == q && u % v == r
  {
    var q', r' := u / v, u % v;
    assert u == v * q' + r';
    assert (q - q') * v == r' - r;
    if q > q' { MulMono(1, q - q', v); }
    if q < q' { MulMono(q - q', -1, v); }
  }

  lemma DivBounds(u: int, v: int)
    requires 0 <= u && 0 < v
    ensures 0 <= u / v && u / v * v <= u < (u / v + 1) * v
  {
    MulDistrib(u / v, 1, v);
  }

  function Power(b: nat, k: nat): (p: nat)
    ensures b >= 1 ==> p >= 1
  {
    if k == 0 then 1 else b * Power(b, k - 1)
  }

  lemma {:induction false} PowerAdd(b: nat, j: nat, k: nat)
    ensures Power(b, j + k) == Power(b, j) * Power(b, k)
  {
    if j != 0 {
      PowerAdd(b, j - 1, k);
      MulAssoc(b, Power(b, j - 1), Power(b, k));
    }
  }
}
