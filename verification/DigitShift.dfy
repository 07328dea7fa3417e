/**
  Shifting a digit array by less than a digit, up to normalise the operands
  (`shl`, common/gcc-millicode/qdivrem.c:265-279) and down to restore the remainder
  (common/gcc-millicode/qdivrem.c:247-254).
*/
module DigitShift {
  import opened Words
  import opened Arith
  import opened Digits

  /** `k` and `k'` are the two powers of two that a shift count splits the digit base into. */
  ghost predicate Splits(k: int, k': int) {
    1 <= k && 1 <= k' && k * k' == BASE
  }

  lemma ShiftSplits(sh: nat)
    requires sh <= 16
    ensures Splits(Power(2, sh), Power(2, 16 - sh))
  {
    PowerAdd(2, sh, 16 - sh);
    assert Power(2, 16) == BASE by {
      assert Power(2, 8) == 256;
      PowerAdd(2, 8, 8);
    }
  }

  /** `|` of a multiple of `k` and a number below `k`: no bit in common. */
  function Or(a: int, b: int, k: int): int
    requires 1 <= k && a % k == 0 && 0 <= b < k
  {
    a + b
  }

  // ---------- up ----------

  /** What shifting `d` up keeps in the digit, and what it sends to the next one. */
  lemma UpParts(d: half, k: int, k': int)
    requires Splits(k, k')
    ensures (d * k) % BASE == LowHalf(Wrap32(d * k)) == (d % k') * k
    ensures ((d * k) % BASE) % k == 0
    ensures d / k' == (d * k) / BASE && 0 <= d / k' < k
    ensures (d * k) % BASE + d / k' * BASE == d * k
  {
    var a, b := d / k', d % k';
    assert d == a * k' + b && 0 <= b < k';
    UpProducts(a, b, k, k');
    assert d * k == a * BASE + b * k;
    DivModUnique(d * k, BASE, a, b * k);
    Multiple(b, k);
    LowHalfOfWrap(d * k);
  }

  lemma UpProducts(a: int, b: int, k: int, k': int)
    requires Splits(k, k') && 0 <= b < k' && 0 <= a * k' + b < BASE
    ensures (a * k' + b) * k == a * BASE + b * k
    ensures 0 <= b * k <= BASE - k
    ensures 0 <= a < k
  {
    assert (a * k' + b) * k == a * (k * k') + b * k;
    MulMono(0, b, k);
    MulMono(b, k' - 1, k);
    assert (k' - 1) * k == BASE - k;
    if a >= k { MulMono(k, a, k'); }
    if a < 0 { MulMono(a, -1, k'); }
  }

  lemma LowHalfOfWrap(x: int)
    ensures LowHalf(Wrap32(x)) == x % BASE
  {
  }

  lemma Multiple(b: int, k: int)
    requires 1 <= k
    ensures (b * k) % k == 0
  {
    DivModUnique(b * k, k, b, 0);
  }

  /** p[i] after `shl`, from p[i] and p[i+1] before. */
  function UpDigit(d: half, next: half, k: int, k': int): (r: half)
    requires Splits(k, k')
    ensures r == d * k - d / k' * BASE + next / k'
  {
    hide Splits, Wrap32, LowHalf;
    UpFits(d, next, k, k');
    Or(LowHalf(Wrap32(d * k)), next / k', k)
  }

  lemma UpFits(d: half, next: half, k: int, k': int)
    requires Splits(k, k')
    ensures 1 <= k && 1 <= k'
    ensures LowHalf(Wrap32(d * k)) == d * k - d / k' * BASE
    ensures LowHalf(Wrap32(d * k)) % k == 0 && 0 <= next / k' < k
    ensures LowHalf(Wrap32(d * k)) + next / k' < BASE
  {
    UpParts(d, k, k');
    UpParts(next, k, k');
    UpProducts(d / k', d % k', k, k');
  }

  function Up(s: seq<half>, k: int, k': int): (r: seq<half>)
    requires Splits(k, k')
  {
    seq(|s|, i requires 0 <= i < |s| => UpDigit(s[i], Next(s, i), k, k'))
  }

  /** The digit to the right, zero past the end. */
  function Next(s: seq<half>, i: nat): half {
    if i + 1 < |s| then s[i + 1] else 0
  }

  lemma UpCons(s: seq<half>, k: int, k': int)
    requires Splits(k, k') && s != []
    ensures Up(s, k, k') == [UpDigit(s[0], Next(s, 0), k, k')] + Up(s[1..], k, k')
  {
    forall i | 0 < i < |s| ensures Up(s, k, k')[i] == Up(s[1..], k, k')[i - 1] {
      assert s[i] == s[1..][i - 1] && Next(s, i) == Next(s[1..], i - 1);
    }
  }

  /** Shifting up multiplies; the bits that leave the top are those of s[0] * k beyond a digit. */
  lemma {:induction false} UpValue(s: seq<half>, k: int, k': int)
    requires Splits(k, k') && s != []
    ensures Val(Up(s, k, k')) + s[0] / k' * Power(BASE, |s|) == Val(s) * k
    decreases |s|
  {
    var tail, d := s[1..], UpDigit(s[0], Next(s, 0), k, k');
    UpCons(s, k, k');
    assert s == [s[0]] + tail;
    hide Val, Power, Splits, UpDigit;
    ValCons(s[0], tail);
    ValCons(d, Up(tail, k, k'));
    if tail == [] {
      ValZeros(tail);
      ValZeros(Up(tail, k, k'));
      assert 0 / k' == 0;
    } else {
      UpValue(tail, k, k');
    }
    UpSum(Power(BASE, |tail|), k, s[0], s[0] / k', d, Next(s, 0) / k', Val(tail));
  }

  lemma UpSum(p: int, k: int, s0: int, c: int, d: int, c': int, tail: int)
    requires d == s0 * k - c * BASE + c'
    ensures d * p + (tail * k - c' * p) + c * (BASE * p) == (s0 * p + tail) * k
  {
    assert d * p == (s0 * k) * p - c * (BASE * p) + c' * p;
  }

  lemma TopDigit(d: half, next: half, k: int, k': int)
    requires Splits(k, k') && d < k'
    ensures d / k' == 0 && UpDigit(d, next, k, k') >= d * k
  {
    UpFits(d, next, k, k');
    hide Splits, LowHalf, Wrap32;
  }

  lemma Nothing(c: int, p: int)
    requires c == 0
    ensures c * p == 0
  {
  }

  /** Shifting up by `k` when nothing leaves the top. */
  lemma UpExact(s: seq<half>, k: int, k': int)
    requires Splits(k, k') && s != [] && s[0] < k'
    ensures Val(Up(s, k, k')) == Val(s) * k
    ensures Up(s, k, k')[0] >= s[0] * k
  {
    TopDigit(s[0], Next(s, 0), k, k');
    hide Val, Power, Splits, UpDigit;
    UpValue(s, k, k');
    Nothing(s[0] / k', Power(BASE, |s|));
  }

  /** `shl`: p[0..len] becomes itself shifted up, and no other digit changes. */
  method ShiftLeft(p: array<half>, at: nat, len: nat, sh: nat)
    requires at + len < p.Length && 0 < sh < 16
    modifies p
    ensures Splits(Power(2, sh), Power(2, 16 - sh))
    ensures p[at..at + len + 1] == Up(old(p[at..at + len + 1]), Power(2, sh), Power(2, 16 - sh))
    ensures forall j :: 0 <= j < p.Length && !(at <= j <= at + len) ==> p[j] == old(p[j])
  {
    ShiftSplits(sh);
    hide Splits, Power, UpDigit;
    var k, k' := Power(2, sh), Power(2, 16 - sh);
    ghost var was := p[at..at + len + 1];
    var i := 0;
    while i < len
      invariant 0 <= i <= len
      invariant forall j :: 0 <= j < i ==> p[at + j] == UpDigit(was[j], Next(was, j), k, k')
      invariant forall j :: 0 <= j < p.Length && !(at <= j < at + i) ==> p[j] == old(p[j])
    {
      p[at + i] := UpDigit(p[at + i], p[at + i + 1], k, k');
      i := i + 1;
    }
    p[at + i] := UpDigit(p[at + i], 0, k, k');
  }

  // ---------- down ----------

  /** What shifting `d` down leaves, and the high part it sends to the next digit. */
  lemma DownParts(d: half, prev: half, k: int, k': int)
    requires Splits(k, k')
    ensures LowHalf(Wrap32(prev * k')) == (prev % k) * k'
    ensures ((prev % k) * k') % k' == 0 && (prev % k) * k' + k' <= BASE
    ensures 0 <= d / k < k'
    ensures d / k * k == d - d % k
    ensures ((prev % k) * k') * k == (prev % k) * BASE
  {
    assert Splits(k', k);
    UpParts(prev, k', k);
    UpParts(d, k', k);
    MulMono(prev % k, k - 1, k');
    MulDistrib(k - 1, 1, k');
    MulAssoc(prev % k, k', k);
  }

  /** u[i] after the restoring shift, from u[i] and u[i-1] before. */
  function DownDigit(d: half, prev: half, k: int, k': int): (r: half)
    requires Splits(k, k')
    ensures r * k == d - d % k + (prev % k) * BASE
  {
    DownParts(d, prev, k, k');
    var hi := LowHalf(Wrap32(prev * k'));
    MulDistrib(hi, d / k, k);
    Or(hi, d / k, k')
  }

  /** The digit to the left; `prev` is the one before the first. */
  function Before(prev: half, s: seq<half>, i: nat): half
    requires i < |s|
  {
    if i == 0 then prev else s[i - 1]
  }

  function Down(prev: half, s: seq<half>, k: int, k': int): seq<half>
    requires Splits(k, k')
  {
    seq(|s|, i requires 0 <= i < |s| => DownDigit(s[i], Before(prev, s, i), k, k'))
  }

  lemma DownCons(prev: half, s: seq<half>, k: int, k': int)
    requires Splits(k, k') && s != []
    ensures Down(prev, s, k, k') == [DownDigit(s[0], prev, k, k')] + Down(s[0], s[1..], k, k')
  {
    forall i | 0 < i < |s| ensures Down(prev, s, k, k')[i] == Down(s[0], s[1..], k, k')[i - 1] {
      assert s[i] == s[1..][i - 1] && Before(prev, s, i) == Before(s[0], s[1..], i - 1);
    }
  }

  function Last(prev: half, s: seq<half>): half {
    if s == [] then prev else s[|s| - 1]
  }

  /** Shifting down divides: only the low bits of the last digit are lost. */
  lemma {:induction false} DownValue(prev: half, s: seq<half>, k: int, k': int)
    requires Splits(k, k')
    ensures Val(Down(prev, s, k, k')) * k + Last(prev, s) % k == (prev % k) * Power(BASE, |s|) + Val(s)
    decreases |s|
  {
    if s == [] {
    } else {
      var tail, d := s[1..], DownDigit(s[0], prev, k, k');
      DownCons(prev, s, k, k');
      assert s == [s[0]] + tail && Last(s[0], tail) == Last(prev, s);
      hide Val, Power, Splits, DownDigit;
      ValCons(s[0], tail);
      ValCons(d, Down(s[0], tail, k, k'));
      DownValue(s[0], tail, k, k');
      DownSum(Power(BASE, |tail|), k, s[0], s[0] % k, prev % k, d, Val(Down(s[0], tail, k, k')));
    }
  }

  lemma DownSum(p: int, k: int, s0: int, r: int, r': int, d: int, tail: int)
    requires d * k == s0 - r + r' * BASE
    ensures (d * p + tail) * k == s0 * p - r * p + r' * (BASE * p) + tail * k
  {
    assert (d * p) * k == (d * k) * p;
  }

  lemma {:induction false} LastDigitModulo(s: seq<half>, k: int, k': int)
    requires Splits(k, k') && s != []
    ensures Val(s) % k == s[|s| - 1] % k
  {
    hide Val;
    var n := |s| - 1;
    assert s == s[..n] + [s[n]];
    ValSnoc(s[..n], s[n]);
    var q, r := s[n] / k, s[n] % k;
    assert Val(s[..n]) * BASE == (Val(s[..n]) * k') * k by { MulAssoc(Val(s[..n]), k', k); }
    MulDistrib(Val(s[..n]) * k', q, k);
    DivModUnique(Val(s), k, Val(s[..n]) * k' + q, r);
  }

  /** A multiple of `k` comes back divided by `k` exactly. */
  lemma DownExact(s: seq<half>, k: int, k': int)
    requires Splits(k, k') && s != [] && Val(s) % k == 0
    ensures Val(Down(0, s, k, k')) == Val(s) / k
  {
    hide Val, Power, Down;
    DownValue(0, s, k, k');
    LastDigitModulo(s, k, k');
    assert 0 % k == 0;
    DivModUnique(Val(s), k, Val(Down(0, s, k, k')), 0);
  }

  /** The restoring shift: u[at+1..at+n] moves down, taking bits from its left, and u[at] is cleared. */
  method ShiftRight(u: array<half>, at: nat, n: nat, d: nat)
    requires at + n < u.Length && 0 < d < 16
    modifies u
    ensures Splits(Power(2, d), Power(2, 16 - d))
    ensures u[at + 1..at + n + 1] == Down(old(u[at]), old(u[at + 1..at + n + 1]), Power(2, d), Power(2, 16 - d))
    ensures u[at] == 0
    ensures forall j :: 0 <= j < u.Length && !(at <= j <= at + n) ==> u[j] == old(u[j])
  {
    ShiftSplits(d);
    hide Splits, Power, DownDigit;
    var k, k' := Power(2, d), Power(2, 16 - d);
    ghost var was := u[at + 1..at + n + 1];
    var i := n;
    while i > 0
      invariant 0 <= i <= n
      invariant forall j :: i <= j < n ==> u[at + 1 + j] == DownDigit(was[j], Before(old(u[at]), was, j), k, k')
      invariant forall j :: 0 <= j < u.Length && !(at + i < j <= at + n) ==> u[j] == old(u[j])
    {
      u[at + i] := DownDigit(u[at + i], u[at + i - 1], k, k');
      i := i - 1;
    }
    u[at] := 0;
  }
}
