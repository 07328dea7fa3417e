/**
  The compression function of the library (common/libtest161/sha256.c:114-238): the macros,
  the rolled variant that moves the registers after every round, and the unrolled one that
  renames them instead. Both are the standard's.
*/
module Sha256Process {
  import opened Sha256Spec
  import opened Basics

  // ---------- the macros ----------

  function S0(x: Word): Word { ((x >> 7) | (x << 25)) ^ ((x >> 18) | (x << 14)) ^ (x >> 3) }

  function S1(x: Word): Word { ((x >> 17) | (x << 15)) ^ ((x >> 19) | (x << 13)) ^ (x >> 10) }

  function S2(x: Word): Word { ((x >> 2) | (x << 30)) ^ ((x >> 13) | (x << 19)) ^ ((x >> 22) | (x << 10)) }

  function S3(x: Word): Word { ((x >> 6) | (x << 26)) ^ ((x >> 11) | (x << 21)) ^ ((x >> 25) | (x << 7)) }

  function F0(x: Word, y: Word, z: Word): Word { (x & y) | (z & (x | y)) }

  function F1(x: Word, y: Word, z: Word): Word { z ^ (x & (y ^ z)) }

  lemma MajBits(x: Word, y: Word, z: Word)
    ensures (x & y) | (z & (x | y)) == (x & y) ^ (x & z) ^ (y & z)
  {
  }

  lemma ChBits(x: Word, y: Word, z: Word)
    ensures z ^ (x & (y ^ z)) == (x & y) ^ (!x & z)
  {
  }

  lemma F0IsMaj(x: Word, y: Word, z: Word)
    ensures F0(x, y, z) == Maj(x, y, z)
  {
    MajBits(x, y, z);
  }

  lemma F1IsCh(x: Word, y: Word, z: Word)
    ensures F1(x, y, z) == Ch(x, y, z)
  {
    ChBits(x, y, z);
  }

  /** ROTR, shift by shift, is rotation. */
  lemma SmallSigmasAgree(x: Word)
    ensures S0(x) == SmallSigma0(x) && S1(x) == SmallSigma1(x)
  {
    assert (x >> 7) | (x << 25) == x.RotateRight(7) && (x >> 18) | (x << 14) == x.RotateRight(18);
    assert (x >> 17) | (x << 15) == x.RotateRight(17) && (x >> 19) | (x << 13) == x.RotateRight(19);
  }

  lemma BigSigmasAgree(x: Word)
    ensures S2(x) == BigSigma0(x) && S3(x) == BigSigma1(x)
  {
    assert (x >> 2) | (x << 30) == x.RotateRight(2) && (x >> 13) | (x << 19) == x.RotateRight(13);
    assert (x >> 22) | (x << 10) == x.RotateRight(22) && (x >> 6) | (x << 26) == x.RotateRight(6);
    assert (x >> 11) | (x << 21) == x.RotateRight(11) && (x >> 25) | (x << 7) == x.RotateRight(25);
  }

  function Temp1(e: Word, f: Word, g: Word, h: Word, k: Word, x: Word): Word {
    Add(Add(Add(Add(h, S3(e)), F1(e, f, g)), k), x)
  }

  function Temp2(a: Word, b: Word, c: Word): Word { Add(S2(a), F0(a, b, c)) }

  lemma TempsAgree(v: seq<Word>, k: Word, x: Word)
    requires |v| == 8
    ensures Temp1(v[4], v[5], v[6], v[7], k, x) == T1(v[4], v[5], v[6], v[7], k, x)
    ensures Temp2(v[0], v[1], v[2]) == T2(v[0], v[1], v[2])
  {
    hide S2, S3, F0, F1, Maj, Ch, BigSigma0, BigSigma1, Add;
    BigSigmasAgree(v[4]);
    BigSigmasAgree(v[0]);
    F0IsMaj(v[0], v[1], v[2]);
    F1IsCh(v[4], v[5], v[6]);
  }

  /** The round macro: registers are named by position, two of them change. */
  function P(A: seq<Word>, a: nat, b: nat, c: nat, d: nat, e: nat, f: nat, g: nat, h: nat, x: Word, k: Word): (r: seq<Word>)
    requires |A| == 8 && a < 8 && b < 8 && c < 8 && d < 8 && e < 8 && f < 8 && g < 8 && h < 8
    ensures |r| == 8
  {
    var temp1, temp2 := Temp1(A[e], A[f], A[g], A[h], k, x), Temp2(A[a], A[b], A[c]);
    A[d := Add(A[d], temp1)][h := Add(temp1, temp2)]
  }

  /** Where register `m` of a, b, ..., h is kept after `j` renamings. */
  function Role(m: nat, j: nat): nat
    requires m < 8 && j <= 8
  {
    if j <= m then m - j else m + 8 - j
  }

  /** The registers in order, after `j` renamings. */
  function View<T>(A: seq<T>, j: nat): (v: seq<T>)
    requires |A| == 8 && j <= 8
    ensures |v| == 8
  {
    [A[Role(0, j)], A[Role(1, j)], A[Role(2, j)], A[Role(3, j)], A[Role(4, j)], A[Role(5, j)], A[Role(6, j)], A[Role(7, j)]]
  }

  /** Changing d and h and renaming once more puts the new h first and moves the rest down. */
  lemma Renamed<T>(A: seq<T>, j: nat, x: T, y: T)
    requires |A| == 8 && j < 8
    ensures var v := View(A, j);
      View(A[Role(3, j) := x][Role(7, j) := y], j + 1) == [y, v[0], v[1], v[2], x, v[4], v[5], v[6]]
  {
  }

  /** One use of the macro with the registers renamed `j` times is one round. */
  lemma PIsRound(A: seq<Word>, j: nat, x: Word, k: Word)
    requires |A| == 8 && j < 8
    ensures View(P(A, Role(0, j), Role(1, j), Role(2, j), Role(3, j), Role(4, j), Role(5, j), Role(6, j), Role(7, j), x, k), j + 1)
         == Round(View(A, j), k, x)
  {
    hide Temp1, Temp2, T1, T2, Add, Role;
    var v := View(A, j);
    TempsAgree(v, k, x);
    var t1, t2 := T1(v[4], v[5], v[6], v[7], k, x), T2(v[0], v[1], v[2]);
    Renamed(A, j, Add(v[3], t1), Add(t1, t2));
  }

  // ---------- the schedule ----------

  /** The macro R, for the word after the last. */
  function R(W: seq<Word>): Word
    requires 16 <= |W|
  {
    var t := |W|;
    Add(Add(Add(S1(W[t - 2]), W[t - 7]), S0(W[t - 15])), W[t - 16])
  }

  lemma RIsNext(W: seq<Word>)
    requires 16 <= |W|
    ensures R(W) == NextWord(W)
  {
    hide S0, S1, SmallSigma0, SmallSigma1, Add;
    SmallSigmasAgree(W[|W| - 2]);
    SmallSigmasAgree(W[|W| - 15]);
  }

  lemma {:induction false} SchedulePrefix(block: seq<Byte>, n: nat, t: nat)
    requires |block| == 64 && t < n <= 64
    ensures Schedule(block, n)[t] == Schedule(block, t + 1)[t]
  {
    hide WordAt, NextWord;
    if t + 1 < n { SchedulePrefix(block, n - 1, t); }
  }

  /** The next round, with the registers renamed `j` times. */
  lemma NextRound(h: seq<Word>, block: seq<Byte>, A: seq<Word>, n: nat, j: nat, w: Word)
    requires |h| == 8 && |block| == 64 && |A| == 8 && n < 64 && j < 8
    requires View(A, j) == Rounds(h, block, n) && w == Schedule(block, n + 1)[n]
    ensures View(P(A, Role(0, j), Role(1, j), Role(2, j), Role(3, j), Role(4, j), Role(5, j), Role(6, j), Role(7, j), w, K(n)), j + 1)
         == Rounds(h, block, n + 1)
  {
    hide P, View, Round, Schedule, K, Role;
    PIsRound(A, j, w, K(n));
  }

  lemma Unrenamed(A: seq<Word>)
    requires |A| == 8
    ensures View(A, 0) == A == View(A, 8)
  {
  }

  // ---------- the rolled variant ----------

  method ProcessRolled(state: seq<Word>, data: seq<Byte>) returns (state': seq<Word>)
    requires |state| == 8 && |data| == 64
    ensures state' == Compress(state, data)
  {
    hide P, Rounds, Schedule, K, WordAt, Join, NextWord, R, Add;
    var A, W := state, [];
    RoundsStart(state, data);
    var i := 0;
    while i < 64
      invariant 0 <= i <= 64 && |A| == 8
      invariant W == Schedule(data, i) && A == Rounds(state, data, i)
    {
      NextScheduled(data, W);
      if i < 16 {
        W := W + [Join(data[4 * i], data[4 * i + 1], data[4 * i + 2], data[4 * i + 3])];
      } else {
        W := W + [R(W)];
      }
      Unrenamed(A);
      NextRound(state, data, A, i, 0, W[i]);
      A := P(A, 0, 1, 2, 3, 4, 5, 6, 7, W[i], K(i));
      var B := A;
      var temp1 := A[7];
      A := A[7 := A[6]];
      A := A[6 := A[5]];
      A := A[5 := A[4]];
      A := A[4 := A[3]];
      A := A[3 := A[2]];
      A := A[2 := A[1]];
      A := A[1 := A[0]];
      A := A[0 := temp1];
      assert A == View(B, 1);
      i := i + 1;
    }
    Finished(state, data, A, i);
    state' := AddRegisters(state, A);
  }

  lemma RoundsStart(h: seq<Word>, block: seq<Byte>)
    requires |h| == 8 && |block| == 64
    ensures Rounds(h, block, 0) == h && Schedule(block, 0) == []
  {
  }

  lemma NextScheduled(block: seq<Byte>, W: seq<Word>)
    requires |block| == 64 && |W| < 64 && W == Schedule(block, |W|)
    ensures var t := |W|;
      Schedule(block, t + 1) == W + [if t < 16 then Join(block[4 * t], block[4 * t + 1], block[4 * t + 2], block[4 * t + 3]) else R(W)]
  {
    hide Join, NextWord, R;
    if |W| >= 16 { RIsNext(W); }
  }

  /** The loop that adds the registers to the state. */
  method AddRegisters(state: seq<Word>, A: seq<Word>) returns (state': seq<Word>)
    requires |state| == |A| == 8
    ensures state' == AddStates(state, A)
  {
    hide Add;
    state' := state;
    for i := 0 to 8
      invariant |state'| == 8
      invariant forall m :: 0 <= m < 8 ==> state'[m] == if m < i then Add(state[m], A[m]) else state[m]
    {
      state' := state'[i := Add(state'[i], A[i])];
    }
  }

  function AddStates(h: seq<Word>, A: seq<Word>): seq<Word>
    requires |h| == |A| == 8
  {
    [Add(h[0], A[0]), Add(h[1], A[1]), Add(h[2], A[2]), Add(h[3], A[3]), Add(h[4], A[4]), Add(h[5], A[5]), Add(h[6], A[6]), Add(h[7], A[7])]
  }

  lemma Finished(h: seq<Word>, block: seq<Byte>, A: seq<Word>, n: nat)
    requires |h| == |A| == 8 && |block| == 64 && n == 64 && A == Rounds(h, block, n)
    ensures AddStates(h, A) == Compress(h, block)
  {
    hide Rounds, Add;
  }

  // ---------- the unrolled variant ----------

  /** Eight rounds on words already in the schedule. */
  method EightRounds(A0: seq<Word>, W: seq<Word>, i: nat, ghost state: seq<Word>, ghost data: seq<Byte>) returns (A: seq<Word>)
    requires |state| == 8 && |data| == 64 && |A0| == 8 && i + 8 <= |W| <= 64
    requires W == Schedule(data, |W|) && A0 == Rounds(state, data, i)
    ensures |A| == 8 && A == Rounds(state, data, i + 8)
  {
    hide P, Rounds, Schedule, K;
    forall t | 0 <= t < |W| ensures W[t] == Schedule(data, t + 1)[t] { SchedulePrefix(data, |W|, t); }
    A := A0;
    Unrenamed(A);
    hide View;
    NextRound(state, data, A, i + 0, 0, W[i + 0]);
    A := P(A, 0, 1, 2, 3, 4, 5, 6, 7, W[i + 0], K(i + 0));
    NextRound(state, data, A, i + 1, 1, W[i + 1]);
    A := P(A, 7, 0, 1, 2, 3, 4, 5, 6, W[i + 1], K(i + 1));
    NextRound(state, data, A, i + 2, 2, W[i + 2]);
    A := P(A, 6, 7, 0, 1, 2, 3, 4, 5, W[i + 2], K(i + 2));
    NextRound(state, data, A, i + 3, 3, W[i + 3]);
    A := P(A, 5, 6, 7, 0, 1, 2, 3, 4, W[i + 3], K(i + 3));
    NextRound(state, data, A, i + 4, 4, W[i + 4]);
    A := P(A, 4, 5, 6, 7, 0, 1, 2, 3, W[i + 4], K(i + 4));
    NextRound(state, data, A, i + 5, 5, W[i + 5]);
    A := P(A, 3, 4, 5, 6, 7, 0, 1, 2, W[i + 5], K(i + 5));
    NextRound(state, data, A, i + 6, 6, W[i + 6]);
    A := P(A, 2, 3, 4, 5, 6, 7, 0, 1, W[i + 6], K(i + 6));
    NextRound(state, data, A, i + 7, 7, W[i + 7]);
    A := P(A, 1, 2, 3, 4, 5, 6, 7, 0, W[i + 7], K(i + 7));
    Unrenamed(A);
  }

  /** Eight rounds, each on the word of the schedule computed just before it. */
  method EightScheduledRounds(A0: seq<Word>, W0: seq<Word>, i: nat, ghost state: seq<Word>, ghost data: seq<Byte>)
      returns (A: seq<Word>, W: seq<Word>)
    requires |state| == 8 && |data| == 64 && |A0| == 8 && 16 <= i <= 56 && |W0| == i
    requires W0 == Schedule(data, i) && A0 == Rounds(state, data, i)
    ensures |A| == 8 && A == Rounds(state, data, i + 8) && W == Schedule(data, i + 8)
  {
    hide P, Rounds, Schedule, K, R, Join;
    A, W := A0, W0;
    Unrenamed(A);
    hide View;
    NextScheduled(data, W);
    W := W + [R(W)];
    NextRound(state, data, A, i + 0, 0, W[i + 0]);
    A := P(A, 0, 1, 2, 3, 4, 5, 6, 7, W[i + 0], K(i + 0));
    NextScheduled(data, W);
    W := W + [R(W)];
    NextRound(state, data, A, i + 1, 1, W[i + 1]);
    A := P(A, 7, 0, 1, 2, 3, 4, 5, 6, W[i + 1], K(i + 1));
    NextScheduled(data, W);
    W := W + [R(W)];
    NextRound(state, data, A, i + 2, 2, W[i + 2]);
    A := P(A, 6, 7, 0, 1, 2, 3, 4, 5, W[i + 2], K(i + 2));
    NextScheduled(data, W);
    W := W + [R(W)];
    NextRound(state, data, A, i + 3, 3, W[i + 3]);
    A := P(A, 5, 6, 7, 0, 1, 2, 3, 4, W[i + 3], K(i + 3));
    NextScheduled(data, W);
    W := W + [R(W)];
    NextRound(state, data, A, i + 4, 4, W[i + 4]);
    A := P(A, 4, 5, 6, 7, 0, 1, 2, 3, W[i + 4], K(i + 4));
    NextScheduled(data, W);
    W := W + [R(W)];
    NextRound(state, data, A, i + 5, 5, W[i + 5]);
    A := P(A, 3, 4, 5, 6, 7, 0, 1, 2, W[i + 5], K(i + 5));
    NextScheduled(data, W);
    W := W + [R(W)];
    NextRound(state, data, A, i + 6, 6, W[i + 6]);
    A := P(A, 2, 3, 4, 5, 6, 7, 0, 1, W[i + 6], K(i + 6));
    NextScheduled(data, W);
    W := W + [R(W)];
    NextRound(state, data, A, i + 7, 7, W[i + 7]);
    A := P(A, 1, 2, 3, 4, 5, 6, 7, 0, W[i + 7], K(i + 7));
    Unrenamed(A);
  }

  method ProcessUnrolled(state: seq<Word>, data: seq<Byte>) returns (state': seq<Word>)
    requires |state| == 8 && |data| == 64
    ensures state' == Compress(state, data)
  {
    hide Rounds, Schedule, Join, R;
    var A, W := state, [];
    RoundsStart(state, data);
    var i := 0;
    while i < 16
      invariant 0 <= i <= 16 && W == Schedule(data, i)
    {
      NextScheduled(data, W);
      W := W + [Join(data[4 * i], data[4 * i + 1], data[4 * i + 2], data[4 * i + 3])];
      i := i + 1;
    }
    i := 0;
    while i < 16
      invariant i == 0 || i == 8 || i == 16
      invariant |A| == 8 && A == Rounds(state, data, i)
    {
      A := EightRounds(A, W, i, state, data);
      i := i + 8;
    }
    i := 16;
    while i < 64
      invariant 16 <= i <= 64 && i % 8 == 0
      invariant |A| == 8 && A == Rounds(state, data, i) && W == Schedule(data, i)
    {
      A, W := EightScheduledRounds(A, W, i, state, data);
      i := i + 8;
    }
    Finished(state, data, A, i);
    state' := AddRegisters(state, A);
  }
}
