/**
  Positional numbers in base 2^16, most significant digit first: the reading of
  the digit arrays of common/gcc-millicode/qdivrem.c that its proof is about.
*/
module Digits {
  import opened Words
  import opened Arith

  function Val(s: seq<half>): nat {
    if s == [] then 0 else s[0] * Power(BASE, |s| - 1) + Val(s[1..])
  }

  lemma {:induction false} ValBound(s: seq<half>)
    ensures Val(s) < Power(BASE, |s|)
  {
    if s != [] {
      ValBound(s[1..]);
      var p := Power(BASE, |s| - 1);
      MulMono(s[0], BASE - 1, p);
      MulDistrib(BASE - 1, 1, p);
    }
  }

  lemma {:induction false} ValConcat(a: seq<half>, b: seq<half>)
    ensures Val(a + b) == Val(a) * Power(BASE, |b|) + Val(b)
  {
    if a == [] {
      assert a + b == b;
    } else {
      assert (a + b)[1..] == a[1..] + b;
      ValConcat(a[1..], b);
      PowerAdd(BASE, |a| - 1, |b|);
      var x, p, q, y := a[0], Power(BASE, |a| - 1), Power(BASE, |b|), Val(a[1..]);
      MulAssoc(x, p, q);
      MulDistrib(x * p, y, q);
    }
  }

  /** Splitting a number at any digit. */
  lemma ValSplit(s: seq<half>, k: nat)
    requires k <= |s|
    ensures Val(s) == Val(s[..k]) * Power(BASE, |s| - k) + Val(s[k..])
  {
    hide *;
    assert s == s[..k] + s[k..];
    ValConcat(s[..k], s[k..]);
  }

  lemma PowStep(k: nat)
    ensures Power(BASE, k + 1) == BASE * Power(BASE, k)
  {
  }

  lemma ValCons(d: half, s: seq<half>)
    ensures Val([d] + s) == d * Power(BASE, |s|) + Val(s)
    ensures Power(BASE, |s| + 1) == BASE * Power(BASE, |s|)
  {
    assert ([d] + s)[1..] == s;
  }

  lemma ValSnoc(s: seq<half>, d: half)
    ensures Val(s + [d]) == Val(s) * BASE + d
  {
    ValConcat(s, [d]);
    assert Power(BASE, 1) == BASE * Power(BASE, 0) == BASE;
    assert [d][1..] == [] && Val([d]) == d * Power(BASE, 0) + Val([]);
  }

  lemma {:induction false} ValZeros(s: seq<half>)
    requires forall k :: 0 <= k < |s| ==> s[k] == 0
    ensures Val(s) == 0
  {
    if s != [] { ValZeros(s[1..]); }
  }

  /** Leading zeros do not matter. */
  lemma ValLeadingZeros(s: seq<half>, k: nat)
    requires k <= |s|
    requires forall i :: 0 <= i < k ==> s[i] == 0
    ensures Val(s) == Val(s[k..])
  {
    hide *;
    ValSplit(s, k);
    ValZeros(s[..k]);
  }

  lemma Val1(s: seq<half>)
    requires |s| == 1
    ensures Val(s) == s[0]
  {
    assert s[1..] == [] && Val(s) == s[0] * Power(BASE, 0) + Val([]);
  }

  lemma Val2(s: seq<half>)
    requires |s| == 2
    ensures Val(s) == s[0] * BASE + s[1]
  {
    hide *;
    Val1([s[0]]);
    ValSnoc([s[0]], s[1]);
    assert s == [s[0]] + [s[1]];
  }

  lemma Val4(s: seq<half>)
    requires |s| == 4
    ensures Val(s) == s[0] * (WORD * BASE) + s[1] * WORD + s[2] * BASE + s[3]
    ensures Val(s) == Join(Combine(s[0], s[1]), Combine(s[2], s[3]))
  {
    hide Val;
    ValSnoc([], s[0]);
    ValSnoc([s[0]], s[1]);
    ValSnoc([s[0], s[1]], s[2]);
    ValSnoc([s[0], s[1], s[2]], s[3]);
    assert Val([]) == 0 by { ValZeros([]); }
    assert [] + [s[0]] == [s[0]] && [s[0]] + [s[1]] == [s[0], s[1]];
    assert [s[0], s[1]] + [s[2]] == [s[0], s[1], s[2]] && [s[0], s[1], s[2]] + [s[3]] == s;
  }
}
