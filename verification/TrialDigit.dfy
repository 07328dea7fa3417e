/**
  Step D3 of Algorithm D: guessing one quotient digit from the leading digits
  (common/gcc-millicode/qdivrem.c:185-210), and why the guess is at most one too big.
*/
module TrialDigit {
  import opened Basics
  import opened Words
  import opened Arith

  /** `lead` is what is left of `whole` when its low part, a number below `p`, is dropped. */
  ghost predicate Leads(lead: int, whole: int, p: int) {
    1 <= p && lead * p <= whole < (lead + 1) * p
  }

  /** A digit that is too big for the leading digits is too big for the whole numbers. */
  lemma TooBigForAll(q: int, u3: int, u: int, v2: int, v: int, p: int)
    requires 0 <= q && Leads(u3, u, p) && Leads(v2, v, p)
    requires q * v2 > u3
    ensures q * v > u
  {
    MulMono(u3 + 1, q * v2, p);
    MulAssoc(q, v2, p);
    MulMono(v2 * p, v, q);
  }

  /** A digit that fits the leading digits is at most one too big for the whole numbers. */
  lemma FitsBarringOne(q: int, u3: int, u: int, v2: int, v: int, p: int)
    requires 1 <= q <= v2 && Leads(u3, u, p) && Leads(v2, v, p)
    requires q * v2 <= u3
    ensures (q - 1) * v <= u
  {
    MulMono(q * v2, u3, p);
    MulAssoc(q, v2, p);
    MulMono(q - 1, v2, p);
    FitsBarringOneSum(q, v2 * p, p, v, u);
  }

  lemma FitsBarringOneSum(q: int, a: int, p: int, v: int, u: int)
    requires 1 <= q && v <= a + p && q * a <= u && (q - 1) * p <= a
    ensures (q - 1) * v <= u
  {
    MulMono(v, a + p, q - 1);
  }

  /** Step D3's guess is the true digit or exactly one more. */
  lemma GuessIsClose(qhat: int, u3: int, u: int, v2: int, v: int, p: int)
    requires 0 <= u && BASE <= v2 && Leads(u3, u, p) && Leads(v2, v, p)
    requires 0 < v && u < BASE * v
    requires qhat == Min(u3 / v2, BASE - 1) && 0 <= qhat
    ensures u / v <= qhat <= u / v + 1
  {
    hide Leads, Min;
    DivBounds(u, v);
    var q := u / v;
    if q >= BASE { MulMono(BASE, q, v); }
    NotTooSmall(q, qhat, u3, u, v2, v, p);
    NotTooBig(q, qhat, u3, u, v2, v, p);
  }

  lemma NotTooSmall(q: int, qhat: int, u3: int, u: int, v2: int, v: int, p: int)
    requires 0 < v2 && Leads(u3, u, p) && Leads(v2, v, p)
    requires 0 <= q < BASE && q * v <= u && qhat == Min(u3 / v2, BASE - 1)
    ensures q <= qhat
  {
    hide Leads;
    if q * v2 <= u3 {
      QuotientIsGreatest(q, u3, v2);
    } else {
      TooBigForAll(q, u3, u, v2, v, p);
    }
  }

  lemma NotTooBig(q: int, qhat: int, u3: int, u: int, v2: int, v: int, p: int)
    requires BASE <= v2 && Leads(u3, u, p) && Leads(v2, v, p)
    requires 0 < v && 0 <= q && u < (q + 1) * v && qhat == Min(u3 / v2, BASE - 1)
    ensures qhat <= q + 1
  {
    hide Leads;
    if qhat > q + 1 {
      DividesOut(qhat, u3, v2);
      FitsBarringOne(qhat, u3, u, v2, v, p);
      MulMono(q + 1, qhat - 1, v);
    }
  }

  lemma DividesOut(q: int, u: int, v: int)
    requires 0 < v && q <= u / v
    ensures q * v <= u
  {
    MulMono(q, u / v, v);
  }

  lemma QuotientIsGreatest(q: int, u: int, v: int)
    requires 0 < v && q * v <= u
    ensures q <= u / v
  {
    if q > u / v { MulMono(u / v + 1, q, v); MulDistrib(u / v, 1, v); }
  }

  lemma QuotientCapped(q: int, u: int, v: int)
    requires 0 < v && 0 <= q < BASE && q * v <= u
    requires q == BASE - 1 || u < (q + 1) * v
    ensures q == Min(u / v, BASE - 1)
  {
    QuotientIsGreatest(q, u, v);
    if u / v > q && q < BASE - 1 { MulMono(q + 1, u / v, v); }
  }

  /** `q` divisors leave `left` of the dividend, as seen from the whole and from the test on v[2]. */
  ghost predicate Leaves(left: int, q: int, r: int, u3: int, vv: int, u2: int, v2: int) {
    left == u3 - q * vv && left == r * BASE + u2 - v2 * q
  }

  /** The test on v[2] is the test whether `qhat` is too big for the leading digits. */
  lemma TestMeans(qhat: int, rhat: int, top: int, u2: int, v1: int, v2: int, vv: int)
    requires qhat * v1 + rhat == top && vv == v1 * BASE + v2
    ensures top * BASE + u2 - qhat * vv == rhat * BASE + u2 - v2 * qhat
  {
    assert qhat * vv == (qhat * v1) * BASE + qhat * v2;
  }

  /**
    The guess. It is the quotient of the three leading dividend digits by the two
    leading divisor digits, capped to a digit; a normalised divisor needs at most two
    corrections; and the 32-bit product and sum on the way lose nothing.
  */
  method Guess(u0: half, u1: half, u2: half, v1: half, v2: half) returns (qhat: word, ghost corrections: nat)
    requires u0 <= v1 && 0 < v1
    ensures qhat == Min((u0 * WORD + u1 * BASE + u2) / (v1 * BASE + v2), BASE - 1)
    ensures qhat < BASE
    ensures v1 >= BASE / 2 ==> corrections <= 2
  {
    ghost var u3, vv := u0 * WORD + u1 * BASE + u2, v1 * BASE + v2;
    var rhat: word, tooBig: bool;
    corrections := 0;
    if u0 == v1 {
      qhat, rhat, tooBig := BASE, u1, true;
    } else {
      var nn := Combine(u0, u1);
      FirstGuess(u0, u1, u2, v1, v2);
      qhat, rhat := nn / v1, nn % v1;
      tooBig := Wrap32(v2 * qhat) > Combine(rhat, u2);
    }
    // What qhat divisors leave of the leading dividend digits: negative when qhat is too big.
    ghost var left := u3 - qhat * vv;
    TestMeans(qhat, rhat, u0 * BASE + u1, u2, v1, v2, vv);
    while tooBig
      invariant Leaves(left, qhat, rhat, u3, vv, u2, v2)
      invariant 0 <= qhat <= BASE && (qhat >= BASE - 1 || left < vv)
      invariant tooBig ==> rhat < BASE && (qhat == BASE || left < 0) && 0 < qhat
      invariant !tooBig ==> left >= 0 && qhat < BASE
      invariant corrections == 0 || (corrections == 1 && rhat >= v1) || v1 < BASE / 2
      decreases qhat
    {
      OneLess(left, qhat, rhat, u3, vv, u2, v1, v2);
      ProductFits(v2, qhat - 1);
      qhat := qhat - 1;
      assert Wrap32(rhat + v1) == rhat + v1;
      rhat := Wrap32(rhat + v1);
      left := left + vv;
      corrections := corrections + 1;
      if rhat >= BASE {
        break;
      }
      tooBig := Wrap32(v2 * qhat) > Combine(rhat, u2);
    }
    if qhat < BASE - 1 { MulDistrib(qhat, 1, vv); }
    QuotientCapped(qhat, u3, vv);
  }

  lemma OneLess(left: int, q: int, r: int, u3: int, vv: int, u2: int, v1: int, v2: int)
    requires Leaves(left, q, r, u3, vv, u2, v2) && vv == v1 * BASE + v2
    ensures Leaves(left + vv, q - 1, r + v1, u3, vv, u2, v2)
  {
    assert (q - 1) * vv == q * vv - vv;
    assert v2 * (q - 1) == v2 * q - v2;
  }

  lemma ProductFits(a: half, q: int)
    requires 0 <= q < BASE
    ensures 0 <= a * q <= (BASE - 1) * (BASE - 1)
    ensures Wrap32(a * q) == a * q
  {
    MulMono(a, BASE - 1, q);
    MulMono(0, a, q);
  }

  /** The uncorrected quotient is a digit, not too small, and its test does not overflow. */
  lemma FirstGuess(u0: half, u1: half, u2: half, v1: half, v2: half)
    requires u0 < v1
    ensures var nn := Combine(u0, u1); var qhat := nn / v1;
      && 0 <= qhat < BASE && Wrap32(v2 * qhat) == v2 * qhat
      && 0 <= nn % v1 < v1
      && qhat * v1 + nn % v1 == nn
      && u0 * WORD + u1 * BASE + u2 - qhat * (v1 * BASE + v2) < v1 * BASE + v2
  {
    var nn := Combine(u0, u1);
    var qhat, rhat := nn / v1, nn % v1;
    assert qhat * v1 + rhat == nn;
    if qhat >= BASE { MulMono(BASE, qhat, v1); }
    ProductFits(v2, qhat);
    TestMeans(qhat, rhat, nn, u2, v1, v2, v1 * BASE + v2);
  }
}
