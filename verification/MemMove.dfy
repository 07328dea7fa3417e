/**
  memcpy and memmove (common/libc/string/memcpy.c:48-86, memmove.c:49-117) on a memory of
  bytes; an address is an index. `long` has four bytes, and a word is read before it is
  written.
*/
module MemMove {
  import opened Basics

  /** Every byte of the destination holds the source's old byte, and nothing else changed. */
  function Moved(m: seq<Byte>, dst: nat, src: nat, n: nat): seq<Byte>
    requires dst + n <= |m| && src + n <= |m|
  {
    seq(|m|, a requires 0 <= a < |m| => if dst <= a < dst + n then m[src + (a - dst)] else m[a])
  }

  // ---------- byte by byte ----------

  /** The memory after copying the first `n` bytes in increasing order. */
  function Forward(m: seq<Byte>, dst: nat, src: nat, n: nat): (r: seq<Byte>)
    requires dst + n <= |m| && src + n <= |m|
    ensures |r| == |m|
  {
    if n == 0 then m
    else
      var r := Forward(m, dst, src, n - 1);
      r[dst + n - 1 := r[src + n - 1]]
  }

  /** The memory after copying the last `k` of `n` bytes in decreasing order. */
  function Backward(m: seq<Byte>, dst: nat, src: nat, n: nat, k: nat): (r: seq<Byte>)
    requires k <= n && dst + n <= |m| && src + n <= |m|
    ensures |r| == |m|
  {
    if k == 0 then m
    else
      var r := Backward(m, dst, src, n, k - 1);
      r[dst + n - k := r[src + n - k]]
  }

  predicate Overlaps(dst: nat, src: nat, n: nat) { src < dst < src + n }

  /** Copying forwards moves the bytes unless the destination starts inside the source. */
  lemma {:induction false} ForwardMoves(m: seq<Byte>, dst: nat, src: nat, n: nat)
    requires dst + n <= |m| && src + n <= |m| && !Overlaps(dst, src, n)
    ensures Forward(m, dst, src, n) == Moved(m, dst, src, n)
  {
    if n > 0 { ForwardMoves(m, dst, src, n - 1); }
  }

  /** If it does, some contents are not moved: a copy of the first byte replaces a later one. */
  lemma ForwardFails(dst: nat, src: nat, n: nat) returns (m: seq<Byte>)
    requires Overlaps(dst, src, n)
    ensures dst + n <= |m| && src + n <= |m| && Forward(m, dst, src, n) != Moved(m, dst, src, n)
  {
    m := seq(dst + n, i => if i == src then 1 else 0);
    var d := dst - src;
    ForwardRepeats(m, dst, src, n, d);
    assert Moved(m, dst, src, n)[dst + d] == m[dst] == 0;
  }

  /** Exactly when copying forwards can be relied on to move the bytes. */
  lemma ForwardMovesIff(dst: nat, src: nat, n: nat)
    ensures (forall m: seq<Byte> :: dst + n <= |m| && src + n <= |m| ==> Forward(m, dst, src, n) == Moved(m, dst, src, n))
       <==> !Overlaps(dst, src, n)
  {
    if Overlaps(dst, src, n) {
      var m := ForwardFails(dst, src, n);
    } else {
      forall m: seq<Byte> | dst + n <= |m| && src + n <= |m| ensures Forward(m, dst, src, n) == Moved(m, dst, src, n) {
        ForwardMoves(m, dst, src, n);
      }
    }
  }

  /** Going forwards over an overlap, byte `d` of the destination is what was just written there. */
  lemma ForwardRepeats(m: seq<Byte>, dst: nat, src: nat, n: nat, d: nat)
    requires Overlaps(dst, src, n) && d == dst - src && dst + n <= |m|
    ensures Forward(m, dst, src, n)[dst + d] == m[src]
  {
    ForwardAt(m, dst, src, n, 0);
    ForwardAt(m, dst, src, n, d);
  }

  lemma {:induction false} ForwardAt(m: seq<Byte>, dst: nat, src: nat, n: nat, i: nat)
    requires dst + n <= |m| && src + n <= |m| && i < n && src < dst
    ensures Forward(m, dst, src, n)[dst + i] == if i < dst - src then m[src + i] else Forward(m, dst, src, n)[src + i]
  {
    if i < n - 1 {
      ForwardAt(m, dst, src, n - 1, i);
    } else if src + i < dst {
      ForwardOutside(m, dst, src, n - 1, src + i);
    }
  }

  lemma {:induction false} ForwardOutside(m: seq<Byte>, dst: nat, src: nat, n: nat, a: nat)
    requires dst + n <= |m| && src + n <= |m| && a < |m| && !(dst <= a < dst + n)
    ensures Forward(m, dst, src, n)[a] == m[a]
  {
    if n > 0 { ForwardOutside(m, dst, src, n - 1, a); }
  }

  /** Copying backwards moves the bytes when the destination is not below the source. */
  lemma {:induction false} BackwardMoves(m: seq<Byte>, dst: nat, src: nat, n: nat, k: nat)
    requires k <= n && dst + n <= |m| && src + n <= |m| && src <= dst
    ensures Backward(m, dst, src, n, k) == Moved(m, dst + n - k, src + n - k, k)
  {
    if k > 0 { BackwardMoves(m, dst, src, n, k - 1); }
  }

  // ---------- word by word ----------

  const LONG := 4

  /** One word's bytes, read before any is written. */
  function WordCopied(m: seq<Byte>, d: nat, s: nat): seq<Byte>
    requires d + 4 <= |m| && s + 4 <= |m|
  {
    m[d := m[s]][d + 1 := m[s + 1]][d + 2 := m[s + 2]][d + 3 := m[s + 3]]
  }

  /** Writing one word at once is writing its four bytes in turn, for words that do not straddle. */
  lemma WordForward(m: seq<Byte>, dst: nat, src: nat, n: nat)
    requires dst + n + 4 <= |m| && src + n + 4 <= |m| && (dst == src || dst + 4 <= src || src + 4 <= dst)
    ensures Forward(m, dst, src, n + 4) == WordCopied(Forward(m, dst, src, n), dst + n, src + n)
  {
    var r, d, s := Forward(m, dst, src, n), dst + n, src + n;
    var r1 := Forward(m, dst, src, n + 1);
    var r2 := Forward(m, dst, src, n + 2);
    var r3 := Forward(m, dst, src, n + 3);
    assert r1 == r[d := r[s]];
    assert r2 == r1[d + 1 := r1[s + 1]];
    assert r3 == r2[d + 2 := r2[s + 2]];
  }

  lemma WordBackward(m: seq<Byte>, dst: nat, src: nat, n: nat, k: nat)
    requires k + 4 <= n && dst + n <= |m| && src + n <= |m| && (dst == src || src + 4 <= dst)
    ensures Backward(m, dst, src, n, k + 4) == WordCopied(Backward(m, dst, src, n, k), dst + n - k - 4, src + n - k - 4)
  {
    var r, d, s := Backward(m, dst, src, n, k), dst + n - k - 4, src + n - k - 4;
    var r1 := Backward(m, dst, src, n, k + 1);
    var r2 := Backward(m, dst, src, n, k + 2);
    var r3 := Backward(m, dst, src, n, k + 3);
    assert r1 == r[d + 3 := r[s + 3]];
    assert r2 == r1[d + 2 := r1[s + 2]];
    assert r3 == r2[d + 1 := r2[s + 1]];
  }

  method CopyWord(mem: array<Byte>, d: nat, s: nat)
    requires d + 4 <= mem.Length && s + 4 <= mem.Length
    modifies mem
    ensures mem[..] == WordCopied(old(mem[..]), d, s)
  {
    mem[d], mem[d + 1], mem[d + 2], mem[d + 3] := mem[s], mem[s + 1], mem[s + 2], mem[s + 3];
  }

  /** memcpy: on both paths, the bytes in increasing order. */
  method Memcpy(mem: array<Byte>, dst: nat, src: nat, len: nat)
    requires dst + len <= mem.Length && src + len <= mem.Length
    modifies mem
    ensures mem[..] == Forward(old(mem[..]), dst, src, len)
  {
    if dst % LONG == 0 && src % LONG == 0 && len % LONG == 0 {
      WordsForward(mem, dst, src, len / LONG);
    } else {
      var i := 0;
      while i < len
        invariant 0 <= i <= len && mem[..] == Forward(old(mem[..]), dst, src, i)
      {
        mem[dst + i] := mem[src + i];
        i := i + 1;
      }
    }
  }

  method WordsForward(mem: array<Byte>, dst: nat, src: nat, n: nat)
    requires dst + 4 * n <= mem.Length && src + 4 * n <= mem.Length
    requires dst % LONG == 0 && src % LONG == 0
    modifies mem
    ensures mem[..] == Forward(old(mem[..]), dst, src, 4 * n)
  {
    ghost var m := mem[..];
    assert Forward(m, dst, src, 0) == m;
    hide Forward, WordCopied;
    var i := 0;
    while i < n
      invariant 0 <= i <= n && mem[..] == Forward(m, dst, src, 4 * i)
    {
      WordForward(m, dst, src, 4 * i);
      CopyWord(mem, dst + 4 * i, src + 4 * i);
      i := i + 1;
    }
  }

  /** memmove's own loops: the bytes in decreasing order. */
  method CopyBackward(mem: array<Byte>, dst: nat, src: nat, len: nat)
    requires src <= dst && dst + len <= mem.Length && src + len <= mem.Length
    modifies mem
    ensures mem[..] == Backward(old(mem[..]), dst, src, len, len)
  {
    if dst % LONG == 0 && src % LONG == 0 && len % LONG == 0 {
      WordsBackward(mem, dst, src, len / LONG);
    } else {
      var i := len;
      while i > 0
        invariant 0 <= i <= len && mem[..] == Backward(old(mem[..]), dst, src, len, len - i)
      {
        mem[dst + i - 1] := mem[src + i - 1];
        i := i - 1;
      }
    }
  }

  method WordsBackward(mem: array<Byte>, dst: nat, src: nat, n: nat)
    requires src <= dst && dst + 4 * n <= mem.Length && src + 4 * n <= mem.Length
    requires dst % LONG == 0 && src % LONG == 0
    modifies mem
    ensures mem[..] == Backward(old(mem[..]), dst, src, 4 * n, 4 * n)
  {
    ghost var m := mem[..];
    assert Backward(m, dst, src, 4 * n, 0) == m;
    hide Backward, WordCopied;
    var i := n;
    while i > 0
      invariant 0 <= i <= n && mem[..] == Backward(m, dst, src, 4 * n, 4 * (n - i))
    {
      WordBackward(m, dst, src, 4 * n, 4 * (n - i));
      CopyWord(mem, dst + 4 * (i - 1), src + 4 * (i - 1));
      i := i - 1;
    }
  }

  /** memmove moves the bytes however the regions lie. */
  method Memmove(mem: array<Byte>, dst: nat, src: nat, len: nat)
    requires dst + len <= mem.Length && src + len <= mem.Length
    modifies mem
    ensures mem[..] == Moved(old(mem[..]), dst, src, len)
  {
    ghost var m := mem[..];
    if dst < src {
      Memcpy(mem, dst, src, len);
      ForwardMoves(m, dst, src, len);
      return;
    }
    CopyBackward(mem, dst, src, len);
    BackwardMoves(m, dst, src, len, len);
  }

  /** What it means for a memory `r` to be `m` with `n` bytes moved. */
  lemma MovedIff(m: seq<Byte>, r: seq<Byte>, dst: nat, src: nat, n: nat)
    requires dst + n <= |m| && src + n <= |m|
    ensures r == Moved(m, dst, src, n) <==> r == m[..dst] + m[src..src + n] + m[dst + n..]
  {
    assert Moved(m, dst, src, n) == m[..dst] + m[src..src + n] + m[dst + n..];
  }
}
