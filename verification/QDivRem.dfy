/**
  The 64-bit unsigned division routine: Algorithm D on digit arrays
  (common/gcc-millicode/qdivrem.c). The digit arrays, the moving base pointers
  (kept here as the offsets `uo`, `vo`, `qo`) and the borrow and carry variable `t`
  are the source's; its inner blocks are methods of their own.
*/
module QDivRem {
  import opened Basics
  import opened Words
  import opened Arith
  import opened Digits
  import opened TrialDigit
  import opened DigitShift

  /** The divide-by-zero branch traps before it returns anything. */
  datatype Division = Trap | Quotient(quotient: dword, remainder: Option<dword>)

  // ---------- D4: multiply and subtract ----------

  /** u[i+j] - v[i] * qhat - t in `unsigned int` arithmetic. */
  function Difference(u: int, v: int, qhat: int, t: int): word {
    Wrap32(u - Wrap32(v * qhat) - t)
  }

  /** (B - HHALF(t)) & (B - 1) */
  function NextBorrow(x: word): half {
    (BASE - HighHalf(x)) % BASE
  }

  /** The wrapped difference is the exact one, written with the borrow it owes to the next digit. */
  lemma BorrowStep(u: half, v: half, qhat: int, t: half)
    requires 0 <= qhat < BASE
    ensures var x := Difference(u, v, qhat, t);
      u - v * qhat - t == LowHalf(x) - NextBorrow(x) * BASE
  {
    ProductFits(v, qhat);
    var y: int := u - v * qhat - t;
    if y >= 0 {
      assert Wrap32(y) == y;
    } else {
      assert Wrap32(y) == y + WORD;
    }
  }

  /** The digits right of position `k` hold the difference so far, up to the pending borrow. */
  ghost predicate Subtracted(now: seq<half>, was: seq<half>, v: seq<half>, qhat: int, t: int) {
    && |now| == |was| == |v|
    && Val(now) == Val(was) - qhat * Val(v) + t * Power(BASE, |v|)
  }

  lemma SubtractDigit(now: seq<half>, was: seq<half>, v: seq<half>, qhat: int, t: int, u0: half, v0: half, d: half, t': int)
    requires Subtracted(now, was, v, qhat, t)
    requires u0 - v0 * qhat - t == d - t' * BASE
    ensures Subtracted([d] + now, [u0] + was, [v0] + v, qhat, t')
  {
    hide Val, Power;
    ValCons(d, now);
    ValCons(u0, was);
    ValCons(v0, v);
    SubtractDigitSum(Power(BASE, |v|), qhat, t, u0, v0, d, t', Val(v));
  }

  lemma SubtractDigitSum(p: int, q: int, t: int, u0: int, v0: int, d: int, t': int, v: int)
    requires u0 - v0 * q - t == d - t' * BASE
    ensures d * p == u0 * p - q * (v0 * p + v) + q * v - t * p + t' * (BASE * p)
  {
    assert d == u0 - v0 * q - t + t' * BASE;
  }

  lemma SubtractedNothing(qhat: int)
    ensures Subtracted([], [], [], qhat, 0)
  {
  }

  method MultiplySubtract(u: array<half>, at: nat, v: array<half>, vo: nat, n: nat, qhat: word) returns (t: word)
    requires u != v && at + n < u.Length && vo + n < v.Length
    requires qhat < BASE
    modifies u
    ensures forall k :: 0 <= k < u.Length && !(at <= k <= at + n) ==> u[k] == old(u[k])
    ensures t < BASE
    ensures u[at] == old(u[at])
    ensures Subtracted(u[at + 1..at + n + 1], old(u[at + 1..at + n + 1]), v[vo + 1..vo + n + 1], qhat, t)
  {
    hide Val, Power, Subtracted, Difference;
    ghost var was := u[..];
    t := 0;
    var i := n;
    SubtractedNothing(qhat);
    assert u[at + n + 1..at + n + 1] == [] && v[vo + n + 1..vo + n + 1] == [];
    while i > 0
      invariant 0 <= i <= n && t < BASE
      invariant forall k :: 0 <= k < u.Length && !(at + i < k <= at + n) ==> u[k] == was[k]
      invariant Subtracted(u[at + i + 1..at + n + 1], was[at + i + 1..at + n + 1], v[vo + i + 1..vo + n + 1], qhat, t)
    {
      ghost var done := u[at + i + 1..at + n + 1];
      BorrowStep(u[at + i], v[vo + i], qhat, t);
      var x := Difference(u[at + i], v[vo + i], qhat, t);
      SubtractDigit(done, was[at + i + 1..at + n + 1], v[vo + i + 1..vo + n + 1], qhat, t,
                    was[at + i], v[vo + i], LowHalf(x), NextBorrow(x));
      u[at + i] := LowHalf(x);
      t := NextBorrow(x);
      assert u[at + i + 1..at + n + 1] == done;
      assert u[at + i..at + n + 1] == [LowHalf(x)] + done;
      assert was[at + i..at + n + 1] == [was[at + i]] + was[at + i + 1..at + n + 1];
      assert v[vo + i..vo + n + 1] == [v[vo + i]] + v[vo + i + 1..vo + n + 1];
      i := i - 1;
    }
  }

  // ---------- D6: add back ----------

  /** The digits right of position `k` hold the sum so far, up to the pending carry. */
  ghost predicate Added(now: seq<half>, was: seq<half>, v: seq<half>, t: int) {
    && |now| == |was| == |v|
    && Val(now) + t * Power(BASE, |v|) == Val(was) + Val(v)
  }

  lemma AddDigit(now: seq<half>, was: seq<half>, v: seq<half>, t: int, u0: half, v0: half, d: half, t': int)
    requires Added(now, was, v, t)
    requires t + u0 + v0 == d + t' * BASE
    ensures Added([d] + now, [u0] + was, [v0] + v, t')
  {
    hide Val, Power;
    ValCons(d, now);
    ValCons(u0, was);
    ValCons(v0, v);
    AddDigitSum(Power(BASE, |v|), t, u0, v0, d, t');
  }

  lemma AddDigitSum(p: int, t: int, u0: int, v0: int, d: int, t': int)
    requires t + u0 + v0 == d + t' * BASE
    ensures d * p == t * p + u0 * p + v0 * p - t' * (BASE * p)
  {
    assert d == t + u0 + v0 - t' * BASE;
  }

  /** t += u[i+j] + v[i] in `unsigned int` arithmetic. */
  function Sum(t: int, u: int, v: int): word {
    Wrap32(t + (u + v))
  }

  lemma AddedNothing()
    ensures Added([], [], [], 0)
  {
  }

  method AddBack(u: array<half>, at: nat, v: array<half>, vo: nat, n: nat) returns (t: word)
    requires u != v && at + n < u.Length && vo + n < v.Length
    modifies u
    ensures forall k :: 0 <= k < u.Length && !(at <= k <= at + n) ==> u[k] == old(u[k])
    ensures t <= 1
    ensures u[at] == old(u[at])
    ensures Added(u[at + 1..at + n + 1], old(u[at + 1..at + n + 1]), v[vo + 1..vo + n + 1], t)
  {
    hide Val, Power, Added;
    ghost var was := u[..];
    t := 0;
    var i := n;
    AddedNothing();
    assert u[at + n + 1..at + n + 1] == [] && v[vo + n + 1..vo + n + 1] == [];
    while i > 0
      invariant 0 <= i <= n && t <= 1
      invariant forall k :: 0 <= k < u.Length && !(at + i < k <= at + n) ==> u[k] == was[k]
      invariant Added(u[at + i + 1..at + n + 1], was[at + i + 1..at + n + 1], v[vo + i + 1..vo + n + 1], t)
    {
      ghost var done := u[at + i + 1..at + n + 1];
      var x: word := Sum(t, u[at + i], v[vo + i]);
      AddDigit(done, was[at + i + 1..at + n + 1], v[vo + i + 1..vo + n + 1], t,
               was[at + i], v[vo + i], LowHalf(x), HighHalf(x));
      u[at + i] := LowHalf(x);
      t := HighHalf(x);
      assert u[at + i + 1..at + n + 1] == done;
      assert u[at + i..at + n + 1] == [LowHalf(x)] + done;
      assert was[at + i..at + n + 1] == [was[at + i]] + was[at + i + 1..at + n + 1];
      assert v[vo + i..vo + n + 1] == [v[vo + i]] + v[vo + i + 1..vo + n + 1];
      i := i - 1;
    }
  }

  // ---------- one pass of the division loop ----------

  /** The three leading digits of the dividend and the two of the divisor lead them. */
  lemma LeadingDigits(u: seq<half>, v: seq<half>)
    requires 2 <= |v| && |u| == |v| + 1
    ensures Leads(u[0] * WORD + u[1] * BASE + u[2], Val(u), Power(BASE, |v| - 2))
    ensures Leads(v[0] * BASE + v[1], Val(v), Power(BASE, |v| - 2))
  {
    hide Val, Power, Leads;
    Lead(u, 3);
    Lead(v, 2);
    Val2([u[0], u[1]]);
    ValSnoc([u[0], u[1]], u[2]);
    assert u[..3] == [u[0], u[1]] + [u[2]];
    Val2(v[..2]);
  }

  lemma Lead(s: seq<half>, k: nat)
    requires k <= |s|
    ensures Leads(Val(s[..k]), Val(s), Power(BASE, |s| - k))
  {
    hide Val, Power;
    ValSplit(s, k);
    ValBound(s[k..]);
    MulDistrib(Val(s[..k]), 1, Power(BASE, |s| - k));
  }

  /** When the leading digits of the dividend are below the divisor, the quotient is one digit. */
  lemma QuotientIsDigit(u: seq<half>, v: seq<half>)
    requires 1 <= |v| && |u| == |v| + 1
    requires Val(u[..|v|]) < Val(v)
    ensures u[0] <= v[0] && Val(u) < BASE * Val(v)
  {
    hide Val, Power;
    var top := u[..|v|];
    assert u == top + [u[|v|]];
    ValSnoc(top, u[|v|]);
    Lead(top, 1);
    Lead(v, 1);
    Val1(top[..1]);
    Val1(v[..1]);
    if u[0] > v[0] { MulMono(v[0] + 1, u[0], Power(BASE, |v| - 1)); }
  }

  ghost predicate Reduced(now: seq<half>, was: seq<half>, v: seq<half>, q: int, wrapped: int) {
    && |now| == |was| == |v| + 1
    && Val(now) == Val(was) - q * Val(v) + wrapped * Power(BASE, |v| + 1)
  }

  /** The final, separate subtraction of the borrow from u[j]. */
  lemma TopDigit(now: seq<half>, was: seq<half>, v: seq<half>, q: int, t: half, u0: half)
    requires Subtracted(now, was, v, q, t)
    ensures var x := Wrap32(u0 as int - t);
      Reduced([LowHalf(x)] + now, [u0] + was, v, q, if HighHalf(x) != 0 then 1 else 0)
  {
    TopParts(u0, t);
    hide Val, Power, Wrap32, LowHalf, HighHalf;
    var x := Wrap32(u0 as int - t);
    var c := if HighHalf(x) != 0 then 1 else 0;
    ValCons(LowHalf(x), now);
    ValCons(u0, was);
    SubtractDigitSum(Power(BASE, |v|), q, t, u0, 0, LowHalf(x), c, 0);
  }

  lemma TopParts(u0: half, t: half)
    ensures var x := Wrap32(u0 as int - t);
      u0 - t == LowHalf(x) - (if HighHalf(x) != 0 then 1 else 0) * BASE
  {
  }

  /** A borrow out of u[j] happens exactly when the guess was one too big. */
  lemma BorrowMeansOneTooBig(now: seq<half>, was: seq<half>, v: seq<half>, qhat: int, c: int)
    requires Reduced(now, was, v, qhat, c) && (c == 0 || c == 1)
    requires 0 < Val(v) && Val(was) / Val(v) <= qhat <= Val(was) / Val(v) + 1
    ensures c == 1 <==> qhat == Val(was) / Val(v) + 1
    ensures c == 0 ==> Val(now) == Val(was) % Val(v)
  {
    hide Val, Power;
    ValBound(now);
    ValBound(v);
    PowStep(|v|);
    BorrowSum(Val(now), Val(was), Val(v), qhat, c, Power(BASE, |v| + 1));
  }

  lemma BorrowSum(now: int, was: int, v: int, qhat: int, c: int, p: int)
    requires 0 <= now < p && 0 < v < p && (c == 0 || c == 1)
    requires now == was - qhat * v + c * p
    requires was / v <= qhat <= was / v + 1
    ensures c == 1 <==> qhat == was / v + 1
    ensures c == 0 ==> now == was % v
  {
    var q, r := was / v, was % v;
    assert was == q * v + r && 0 <= r < v;
    assert c * p == if c == 0 then 0 else p;
    if qhat == q {
      assert now == r + c * p;
    } else {
      MulDistrib(q, 1, v);
      assert now == r - v + c * p;
    }
  }

  /** After the add-back the wrapped borrow and the carry out of u[j] cancel. */
  lemma AddBackRestores(now: seq<half>, mid: seq<half>, was: seq<half>, v: seq<half>, qhat: int, t: int, m0: half)
    requires Reduced([m0] + mid, was, v, qhat, 1)
    requires Added(now, mid, v, t) && 0 <= t <= 1
    requires 0 < Val(v) && qhat == Val(was) / Val(v) + 1
    ensures Val([LowHalf(m0 + t)] + now) == Val(was) % Val(v)
  {
    hide Val, Power;
    var d := LowHalf(m0 + t);
    ValCons(d, now);
    ValCons(m0, mid);
    ValBound([d] + now);
    var c := if m0 + t == BASE then 1 else 0;
    AddDigitSum(Power(BASE, |v|), t, m0, 0, d, c);
    AddBackSum(Val([d] + now), Val([m0] + mid), Val(was), Val(v), qhat, c, Power(BASE, |v| + 1));
  }

  lemma AddBackSum(now: int, mid: int, was: int, v: int, qhat: int, c: int, p: int)
    requires 0 <= now < p && 0 < v && (c == 0 || c == 1)
    requires mid == was - qhat * v + p && now == mid + v - c * p
    requires qhat == was / v + 1
    ensures now == was % v
  {
    var q, r := was / v, was % v;
    assert was == q * v + r && 0 <= r < v;
    MulDistrib(q, 1, v);
    assert c * p == if c == 0 then 0 else p;
  }

  /** A number below Power(BASE, n) in n + 1 digits starts with a zero. */
  lemma SmallStartsWithZero(s: seq<half>)
    requires 1 <= |s| && Val(s) < Power(BASE, |s| - 1)
    ensures s[0] == 0
  {
    hide Val, Power;
    assert s == [s[0]] + s[1..];
    ValCons(s[0], s[1..]);
    if s[0] >= 1 { MulMono(1, s[0], Power(BASE, |s| - 1)); }
  }

  /**
    Steps D3 to D6: u[j..j+n] becomes its remainder by v and the quotient digit is returned.
    The leading digit u[j] ends at zero and no other digit of u changes.
  */
  method DivideStep(u: array<half>, at: nat, v: array<half>, vo: nat, n: nat) returns (digit: half)
    requires u != v && 2 <= n && at + n < u.Length && vo + n < v.Length
    requires 0 < v[vo + 1]
    requires Val(u[at..at + n]) < Val(v[vo + 1..vo + n + 1])
    modifies u
    ensures forall k :: 0 <= k < u.Length && !(at <= k <= at + n) ==> u[k] == old(u[k])
    ensures digit == Val(old(u[at..at + n + 1])) / Val(v[vo + 1..vo + n + 1])
    ensures Val(u[at..at + n + 1]) == Val(old(u[at..at + n + 1])) % Val(v[vo + 1..vo + n + 1])
    ensures u[at] == 0
  {
    hide Val, Power, Leads, Min, Subtracted, Reduced, Added, Wrap32, LowHalf, HighHalf;
    ghost var us, vs := u[at..at + n + 1], v[vo + 1..vo + n + 1];
    assert us[..n] == u[at..at + n];
    QuotientIsDigit(us, vs);
    LeadingDigits(us, vs);
    var qhat, _ := Guess(u[at], u[at + 1], u[at + 2], v[vo + 1], v[vo + 2]);
    GuessIsClose(qhat, us[0] * WORD + us[1] * BASE + us[2], Val(us), vs[0] * BASE + vs[1], Val(vs), Power(BASE, n - 2));
    var t := MultiplySubtract(u, at, v, vo, n, qhat);
    ghost var low := u[at + 1..at + n + 1];
    assert us == [u[at]] + us[1..] && us[1..] == old(u[at + 1..at + n + 1]);
    TopDigit(low, us[1..], vs, qhat, t, u[at]);
    t := Wrap32(u[at] as int - t);
    u[at] := LowHalf(t);
    ghost var mid := u[at..at + n + 1];
    assert mid == [LowHalf(t)] + low;
    BorrowMeansOneTooBig(mid, us, vs, qhat, if HighHalf(t) != 0 then 1 else 0);
    if HighHalf(t) != 0 {
      qhat := qhat - 1;
      t := AddBack(u, at, v, vo, n);
      ghost var sum := u[at + 1..at + n + 1];
      AddBackRestores(sum, low, us, vs, qhat + 1, t, u[at]);
      u[at] := LowHalf(u[at] + t);
      assert u[at..at + n + 1] == [u[at]] + sum;
    }
    digit := qhat;
    ValBound(vs);
    SmallStartsWithZero(u[at..at + n + 1]);
  }

  // ---------- the division loop ----------

  /** The quotient digits so far, and the part of the dividend still to be divided, make up the dividend. */
  ghost predicate Progress(dividend: int, q: seq<half>, v: int, rest: seq<half>, left: nat) {
    dividend == Val(q) * v * Power(BASE, left) + Val(rest)
  }

  lemma ProgressStep(dividend: int, q: seq<half>, v: int, head: seq<half>, head': seq<half>, tail: seq<half>, d: half)
    requires Progress(dividend, q, v, head + tail, |tail| + 1)
    requires Val(head) == d * v + Val(head')
    ensures Progress(dividend, q + [d], v, head' + tail, |tail|)
  {
    hide Val, Power;
    ValConcat(head, tail);
    ValConcat(head', tail);
    ValSnoc(q, d);
    PowStep(|tail|);
    ProgressSum(dividend, Val(q), Val(q + [d]), v, Power(BASE, |tail|), Power(BASE, |tail| + 1), d, Val(head), Val(head'), Val(tail));
  }

  lemma ProgressSum(dividend: int, q: int, q': int, v: int, p: int, p': int, d: int, h: int, h': int, t: int)
    requires dividend == q * v * p' + (h * p + t)
    requires h == d * v + h' && p' == BASE * p && q' == q * BASE + d
    ensures dividend == q' * v * p + (h' * p + t)
  {
    var w, x := q * v, d * v;
    assert q' * v == w * BASE + x;
    assert w * p' == (w * BASE) * p;
    assert (w * BASE + x) * p == (w * BASE) * p + x * p;
    assert (x + h') * p == x * p + h' * p;
  }

  /** Pass j of the loop D3 to D7. */
  method Pass(u: array<half>, uo: nat, v: array<half>, vo: nat, q: array<half>, qo: nat, m: nat, n: nat, j: nat, ghost dividend: int)
    requires u != v && u != q && v != q
    requires u.Length == 5 && v.Length == 5 && q.Length == 5
    requires 2 <= n && j <= m && uo + m + n == 4 && vo + n == 4 && qo + m == 4
    requires 0 < v[vo + 1]
    requires Val(u[uo + j..uo + j + n]) < Val(v[vo + 1..])
    requires Progress(dividend, q[qo..qo + j], Val(v[vo + 1..]), u[uo + j..], m + 1 - j)
    modifies u, q
    ensures Val(u[uo + j + 1..uo + j + 1 + n]) < Val(v[vo + 1..])
    ensures Progress(dividend, q[qo..qo + j + 1], Val(v[vo + 1..]), u[uo + j + 1..], m - j)
    ensures u[uo + j] == 0
    ensures forall k :: 0 <= k < uo + j ==> u[k] == old(u[k])
    ensures forall k :: 0 <= k < qo ==> q[k] == old(q[k])
  {
    hide Val, Power, Progress;
    assert v[vo + 1..] == v[vo + 1..vo + n + 1];
    ghost var vv := Val(v[vo + 1..]);
    ghost var head, tail := u[uo + j..uo + j + n + 1], u[uo + j + n + 1..];
    assert u[uo + j..] == head + tail;
    ghost var done := q[qo..qo + j];
    var digit := DivideStep(u, uo + j, v, vo, n);
    assert u[uo + j + n + 1..] == tail;
    ghost var head' := u[uo + j..uo + j + n + 1];
    assert Val(head) == digit * vv + Val(head') by { assert Val(head) == Val(head) / vv * vv + Val(head) % vv; }
    ProgressStep(dividend, done, vv, head, head', tail, digit);
    assert head'[1..] + tail == u[uo + j + 1..];
    ZeroDropped(head', tail);
    ProgressSame(dividend, done + [digit], vv, head' + tail, u[uo + j + 1..], m - j);
    assert head'[1..] == u[uo + j + 1..uo + j + 1 + n];
    q[qo + j] := digit;
    assert q[qo..qo + j + 1] == done + [digit];
  }

  method DivideDigits(u: array<half>, uo: nat, v: array<half>, vo: nat, q: array<half>, qo: nat, m: nat, n: nat)
    requires u != v && u != q && v != q
    requires u.Length == 5 && v.Length == 5 && q.Length == 5
    requires 2 <= n && uo + m + n == 4 && vo + n == 4 && qo + m == 4
    requires 0 < v[vo + 1]
    requires Val(u[uo..uo + n]) < Val(v[vo + 1..])
    modifies u, q
    ensures Val(old(u[uo..])) == Val(q[qo..]) * Val(v[vo + 1..]) + Val(u[uo + m + 1..])
    ensures Val(u[uo + m + 1..]) < Val(v[vo + 1..])
    ensures forall k :: uo <= k <= uo + m ==> u[k] == 0
    ensures forall k :: 0 <= k < uo ==> u[k] == old(u[k])
    ensures forall k :: 0 <= k < qo ==> q[k] == old(q[k])
  {
    hide Val, Power, Progress;
    ghost var vv, dividend := Val(v[vo + 1..]), Val(u[uo..]);
    var j := 0;
    ProgressStart(u[uo..], vv, m + 1);
    assert q[qo..qo] == [];
    while j <= m
      invariant 0 <= j <= m + 1
      invariant Val(u[uo + j..uo + j + n]) < vv
      invariant Progress(dividend, q[qo..qo + j], vv, u[uo + j..], m + 1 - j)
      invariant forall k :: uo <= k < uo + j ==> u[k] == 0
      invariant forall k :: 0 <= k < uo ==> u[k] == old(u[k])
      invariant forall k :: 0 <= k < qo ==> q[k] == old(q[k])
    {
      Pass(u, uo, v, vo, q, qo, m, n, j, dividend);
      j := j + 1;
    }
    assert uo + m + 1 + n == 5 && qo + j == 5;
    ToEnd(u[..], uo + j, uo + j + n);
    ToEnd(q[..], qo, qo + j);
    assert u[uo + j..uo + j + n] == u[uo + j..];
    assert q[qo..qo + j] == q[qo..];
    ProgressEnd(dividend, q[qo..], vv, u[uo + m + 1..]);
  }

  lemma ProgressStart(u: seq<half>, v: int, left: nat)
    ensures Progress(Val(u), [], v, u, left)
  {
    assert Val([]) * v * Power(BASE, left) == 0;
  }

  lemma ProgressSame(dividend: int, q: seq<half>, v: int, rest: seq<half>, rest': seq<half>, left: nat)
    requires Progress(dividend, q, v, rest, left) && Val(rest) == Val(rest')
    ensures Progress(dividend, q, v, rest', left)
  {
  }

  lemma ProgressEnd(dividend: int, q: seq<half>, v: int, rest: seq<half>)
    requires Progress(dividend, q, v, rest, 0)
    ensures dividend == Val(q) * v + Val(rest)
  {
    hide Val;
    assert Power(BASE, 0) == 1;
  }

  lemma ZeroDropped(head: seq<half>, tail: seq<half>)
    requires 1 <= |head| && head[0] == 0
    ensures Val(head) == Val(head[1..])
    ensures Val(head + tail) == Val(head[1..] + tail)
  {
    hide Val;
    ValLeadingZeros(head, 1);
    ValLeadingZeros(head + tail, 1);
    assert (head + tail)[1..] == head[1..] + tail;
  }

  // ---------- D1: normalise ----------

  lemma Pow2Big(d: nat)
    ensures d >= 15 ==> Power(2, d) >= BASE / 2
  {
    if d >= 15 {
      PowerAdd(2, 15, d - 15);
      ShiftSplits(15);
      assert Power(2, 1) == 2 * Power(2, 0);
      MulMono(1, Power(2, d - 15), Power(2, 15));
    }
  }

  /** The multiplier: the power of two that brings v[1] to at least half the base. */
  method Multiplier(v1: half) returns (d: nat)
    requires 0 < v1
    ensures d < 16 && BASE / 2 <= v1 * Power(2, d) < BASE
  {
    d := 0;
    var t: word := v1;
    while t < BASE / 2
      invariant d < 16 && t == v1 * Power(2, d) && Power(2, d) <= t < BASE
      decreases BASE - t
    {
      Pow2Big(d);
      MulAssoc(v1, Power(2, d), 2);
      t := Wrap32(2 * t);
      d := d + 1;
    }
  }

  lemma ShiftedUp(s: seq<half>, d: nat)
    requires d < 16 && s != [] && s[0] * Power(2, d) < BASE
    ensures Splits(Power(2, d), Power(2, 16 - d))
    ensures Val(Up(s, Power(2, d), Power(2, 16 - d))) == Val(s) * Power(2, d)
    ensures Up(s, Power(2, d), Power(2, 16 - d))[0] >= s[0] * Power(2, d)
  {
    ShiftSplits(d);
    hide Val, Power, Up;
    var k, k' := Power(2, d), Power(2, 16 - d);
    if s[0] >= k' { MulMono(k', s[0], k); }
    UpExact(s, k, k');
  }

  method Normalise(u: array<half>, uo: nat, v: array<half>, vo: nat, m: nat, n: nat) returns (d: nat)
    requires u != v && u.Length == 5 && v.Length == 5
    requires 2 <= n && uo + m + n == 4 && vo + n == 4
    requires u[uo] == 0 && 0 < v[vo + 1]
    modifies u, v
    ensures d < 16
    ensures Val(u[uo..]) == Val(old(u[uo..])) * Power(2, d)
    ensures Val(v[vo + 1..]) == Val(old(v[vo + 1..])) * Power(2, d)
    ensures v[vo + 1] >= BASE / 2
    ensures forall k :: 0 <= k < uo ==> u[k] == old(u[k])
  {
    d := Multiplier(v[vo + 1]);
    hide Val, Power, Up;
    if d > 0 {
      ghost var us, vs := u[uo..], v[vo + 1..];
      assert u[uo..uo + (m + n) + 1] == us && v[vo + 1..vo + 1 + (n - 1) + 1] == vs;
      ShiftedUp(us, d);
      ShiftedUp(vs, d);
      ShiftLeft(u, uo, m + n, d);
      assert u[uo..uo + (m + n) + 1] == u[uo..];
      ShiftLeft(v, vo + 1, n - 1, d);
      assert v[vo + 1..vo + 1 + (n - 1) + 1] == v[vo + 1..];
      assert v[vo + 1] == v[vo + 1..][0];
    } else {
      assert Power(2, 0) == 1;
    }
  }

  /** After normalising, the leading n digits of the dividend are below the divisor. */
  lemma StartsBelow(u: seq<half>, m: nat, n: nat, x: int, k: int, v: int)
    requires 1 <= n && |u| == m + n + 1
    requires Val(u) == x * k && 0 <= x < Power(BASE, m + n) && 1 <= k
    requires v >= Power(BASE, n - 1)
    ensures Val(u[..n]) < v * k
  {
    hide Val, Power, Leads;
    Lead(u, n);
    PowerAdd(BASE, m + 1, n - 1);
    StartsBelowSum(Val(u[..n]), x, k, Power(BASE, m + 1), Power(BASE, n - 1), Val(u));
    MulMono(Power(BASE, n - 1), v, k);
  }

  lemma StartsBelowSum(top: int, x: int, k: int, p: int, p': int, u: int)
    requires Leads(top, u, p) && u == x * k && x < p * p' && 1 <= k
    ensures top < p' * k
  {
    MulMono(x + 1, p * p', k);
    assert (x + 1) * k == u + k;
    assert (p * p') * k == (p' * k) * p;
    if top >= p' * k { MulMono(p' * k, top, p); }
  }

  /** The scaled division divides the unscaled numbers, and leaves the scaled remainder. */
  lemma ScaleDown(x: int, v: int, k: int, q: int, r: int)
    requires 1 <= k && 1 <= v
    requires x * k == q * (v * k) + r && 0 <= r < v * k
    ensures r % k == 0 && x / v == q && x % v == r / k
  {
    var r' := x - q * v;
    assert r == r' * k;
    Multiple(r', k);
    DivModUnique(r, k, r', 0);
    if r' < 0 { MulMono(r', -1, k); }
    if r' >= v { MulMono(v, r', k); }
    DivModUnique(x, v, q, r');
  }

  // ---------- the two division paths ----------

  lemma ShortStep(acc: int, q: int, r: int, t: int, d: half)
    requires acc == q * t + r && 0 <= r < t < BASE
    ensures 0 <= (r * BASE + d) / t < BASE
    ensures acc * BASE + d == (q * BASE + (r * BASE + d) / t) * t + (r * BASE + d) % t
  {
    var x := r * BASE + d;
    var q', r' := x / t, x % t;
    assert x == q' * t + r';
    if q' >= BASE { MulMono(BASE, q', t); }
    if q' < 0 { MulMono(q', -1, t); }
    assert (q * t) * BASE == (q * BASE) * t;
    MulDistrib(q * BASE, q', t);
  }

  /** A one-digit divisor: the unrolled short division. */
  method ShortDivide(u: array<half>, t: half) returns (quotient: dword, remainder: dword)
    requires u.Length == 5 && 0 < t
    ensures quotient == Val(u[1..]) / t && remainder == Val(u[1..]) % t
  {
    hide Val, Power;
    ghost var n1: int, n2: int, n3: int := u[1], u[1] * BASE + u[2], (u[1] * BASE + u[2]) * BASE + u[3];
    ghost var n4 := n3 * BASE + u[4];
    ShortStep(0, 0, 0, t, u[1]);
    var q1: half := u[1] / t;
    ShortStep(n1, q1, u[1] % t, t, u[2]);
    var rbj := Combine(u[1] % t, u[2]);
    var q2: half := rbj / t;
    ShortStep(n2, q1 * BASE + q2, rbj % t, t, u[3]);
    rbj := Combine(rbj % t, u[3]);
    var q3: half := rbj / t;
    ShortStep(n3, (q1 * BASE + q2) * BASE + q3, rbj % t, t, u[4]);
    rbj := Combine(rbj % t, u[4]);
    var q4: half := rbj / t;
    remainder := rbj % t;
    quotient := Join(Combine(q1, q2), Combine(q3, q4));
    Val4(u[1..]);
    assert Val(u[1..]) == n4;
    DivModUnique(n4, t, quotient, remainder);
  }

  /** A divisor of two digits or more: Algorithm D. */
  method LongDivide(u: array<half>, v: array<half>, vo: nat, n: nat, wantRem: bool, ghost ull: nat, ghost vll: nat)
    returns (quotient: dword, remainder: Option<dword>)
    requires u != v && u.Length == 5 && v.Length == 5
    requires 2 <= n && vo + n == 4
    requires u[0] == 0 && Val(u[1..]) == ull
    requires 0 < v[vo + 1] && Val(v[vo + 1..]) == vll <= ull
    modifies u, v
    ensures 0 < vll && quotient == ull / vll
    ensures remainder == if wantRem then Some(ull % vll) else None
  {
    hide Val, Power, Leads, Up, Down, Splits;
    AtLeast(v[vo + 1..]);
    var m, uo := SkipZeros(u, n, ull, vll);
    var qo := 4 - m;
    var q := ClearQuotient(qo);
    ZeroDropped(u[uo..], []);
    assert u[uo..][1..] == u[uo + 1..];
    ValBound(u[uo + 1..]);
    var d := Normalise(u, uo, v, vo, m, n);
    StartsBelow(u[uo..], m, n, ull, Power(2, d), vll);
    assert u[uo..][..n] == u[uo..uo + n];
    DivideDigits(u, uo, v, vo, q, qo, m, n);
    ScaleDown(ull, vll, Power(2, d), Val(q[qo..]), Val(u[uo + m + 1..]));
    quotient := Gather(q, qo);
    if wantRem {
      var rem := Remainder(u, uo + m, n, d);
      remainder := Some(rem);
    } else {
      remainder := None;
    }
  }

  /** The remainder is the last n digits of u, shifted back down. */
  method Remainder(u: array<half>, um: nat, n: nat, d: nat) returns (rem: dword)
    requires u.Length == 5 && um + n == 4 && 2 <= n && d < 16
    requires forall k :: 1 <= k <= um ==> u[k] == 0
    requires u[um] == 0 && Val(u[um + 1..]) % Power(2, d) == 0
    modifies u
    ensures rem == Val(old(u[um + 1..])) / Power(2, d)
  {
    assert Power(2, 0) == 1;
    hide Val, Power, Down, Splits;
    if d > 0 {
      ghost var r := u[um + 1..];
      assert u[um + 1..um + n + 1] == r;
      ShiftRight(u, um, n, d);
      assert u[um + 1..um + n + 1] == u[um + 1..];
      DownExact(r, Power(2, d), Power(2, 16 - d));
    }
    rem := Gather(u, um + 1);
  }

  /** The quotient array, with its leading digits cleared. */
  method ClearQuotient(qo: nat) returns (q: array<half>)
    requires qo <= 5
    ensures fresh(q) && q.Length == 5
    ensures forall k :: 0 <= k < qo ==> q[k] == 0
  {
    q := new half[5];
    var i := qo;
    while i > 0
      invariant 0 <= i <= qo
      invariant forall k :: i <= k < qo ==> q[k] == 0
    {
      i := i - 1;
      q[i] := 0;
    }
  }

  lemma AtLeast(s: seq<half>)
    requires s != [] && 0 < s[0]
    ensures Val(s) >= Power(BASE, |s| - 1)
  {
    hide Val, Power;
    assert s == [s[0]] + s[1..];
    ValCons(s[0], s[1..]);
    MulMono(1, s[0], Power(BASE, |s| - 1));
  }

  /** Count the leading zeros of the dividend by advancing the base pointer u. */
  method SkipZeros(u: array<half>, n: nat, ghost ull: nat, ghost vll: nat) returns (m: nat, uo: nat)
    requires u.Length == 5 && 2 <= n <= 4
    requires u[0] == 0 && Val(u[1..]) == ull
    requires Power(BASE, n - 1) <= vll <= ull
    ensures uo + m + n == 4 && Val(u[uo + 1..]) == ull
    ensures forall k :: 0 <= k <= uo ==> u[k] == 0
  {
    hide Val, Power;
    m, uo := 4 - n, 0;
    while u[uo + 1] == 0
      invariant uo + m + n == 4 && Val(u[uo + 1..]) == ull
      invariant forall k :: 0 <= k <= uo ==> u[k] == 0
      decreases m
    {
      ZeroDropped(u[uo + 1..], []);
      assert u[uo + 1..][1..] == u[uo + 2..];
      ValBound(u[uo + 2..]);
      m, uo := m - 1, uo + 1;
    }
  }

  /** The four digits of an array, read as a number when zeros lead up to `at`. */
  method Gather(a: array<half>, at: nat) returns (x: dword)
    requires a.Length == 5 && 1 <= at <= 5
    requires forall k :: 1 <= k < at ==> a[k] == 0
    ensures x == Val(a[at..])
  {
    hide Val;
    x := Join(Combine(a[1], a[2]), Combine(a[3], a[4]));
    Val4(a[1..]);
    ValLeadingZeros(a[1..], at - 1);
    assert a[1..][at - 1..] == a[at..];
  }

  /** Break a number into its four digits, at a[1..4]. */
  method Scatter(x: dword, a: array<half>)
    requires a.Length == 5
    modifies a
    ensures Val(a[1..]) == x && a[0] == old(a[0])
  {
    hide Val;
    a[1], a[2] := HighHalf(HighWord(x)), LowHalf(HighWord(x));
    a[3], a[4] := HighHalf(LowWord(x)), LowHalf(LowWord(x));
    Val4(a[1..]);
  }

  /** The routine: every quotient and remainder, on every path. */
  method DivRem(ull: dword, vll: dword, wantRem: bool) returns (r: Division)
    ensures r == if vll == 0 then Trap
                 else Quotient(ull / vll, if wantRem then Some(ull % vll) else None)
  {
    hide Val, Power;
    if vll == 0 {
      return Trap;
    }
    if ull < vll {
      return Quotient(0, if wantRem then Some(ull) else None);
    }
    var u, v := new half[5], new half[5];
    u[0] := 0;
    Scatter(ull, u);
    Scatter(vll, v);
    var n, vo := 4, 0;
    while v[vo + 1] == 0
      invariant 2 <= n && vo + n == 4 && Val(v[vo + 1..]) == vll
      invariant u[0] == 0 && Val(u[1..]) == ull
      decreases n
    {
      ZeroDropped(v[vo + 1..], []);
      assert v[vo + 1..][1..] == v[vo + 2..];
      n := n - 1;
      if n == 1 {
        Val1(v[vo + 2..]);
        var q, rem := ShortDivide(u, v[vo + 2]);
        return Quotient(q, if wantRem then Some(rem) else None);
      }
      vo := vo + 1;
    }
    var q, rem := LongDivide(u, v, vo, n, wantRem, ull, vll);
    return Quotient(q, rem);
  }
}
