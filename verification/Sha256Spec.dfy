/**
  SHA-256 as the Secure Hash Standard states it (FIPS 180-4): the functions of section 4.1.2,
  the constants of sections 4.2.2, 5.3.2 and 5.3.3, the padding of section 5.1.1 and the
  computation of section 6.2.2. Words are 32-bit vectors, so addition is modulo 2^32.
*/
module Sha256Spec {
  import opened Basics
  import Words

  type Word = bv32

  // ---------- functions and constants ----------

  /** Addition modulo 2^32. */
  function Add(x: Word, y: Word): Word { x + y }

  function Ch(x: Word, y: Word, z: Word): Word { (x & y) ^ (!x & z) }

  function Maj(x: Word, y: Word, z: Word): Word { (x & y) ^ (x & z) ^ (y & z) }

  function BigSigma0(x: Word): Word { x.RotateRight(2) ^ x.RotateRight(13) ^ x.RotateRight(22) }

  function BigSigma1(x: Word): Word { x.RotateRight(6) ^ x.RotateRight(11) ^ x.RotateRight(25) }

  function SmallSigma0(x: Word): Word { x.RotateRight(7) ^ x.RotateRight(18) ^ (x >> 3) }

  function SmallSigma1(x: Word): Word { x.RotateRight(17) ^ x.RotateRight(19) ^ (x >> 10) }

  /** The round constants, eight to a row. */
  const K_ROWS: seq<seq<Word>> := [
    [0x428A2F98, 0x71374491, 0xB5C0FBCF, 0xE9B5DBA5, 0x3956C25B, 0x59F111F1, 0x923F82A4, 0xAB1C5ED5],
    [0xD807AA98, 0x12835B01, 0x243185BE, 0x550C7DC3, 0x72BE5D74, 0x80DEB1FE, 0x9BDC06A7, 0xC19BF174],
    [0xE49B69C1, 0xEFBE4786, 0x0FC19DC6, 0x240CA1CC, 0x2DE92C6F, 0x4A7484AA, 0x5CB0A9DC, 0x76F988DA],
    [0x983E5152, 0xA831C66D, 0xB00327C8, 0xBF597FC7, 0xC6E00BF3, 0xD5A79147, 0x06CA6351, 0x14292967],
    [0x27B70A85, 0x2E1B2138, 0x4D2C6DFC, 0x53380D13, 0x650A7354, 0x766A0ABB, 0x81C2C92E, 0x92722C85],
    [0xA2BFE8A1, 0xA81A664B, 0xC24B8B70, 0xC76C51A3, 0xD192E819, 0xD6990624, 0xF40E3585, 0x106AA070],
    [0x19A4C116, 0x1E376C08, 0x2748774C, 0x34B0BCB5, 0x391C0CB3, 0x4ED8AA4A, 0x5B9CCA4F, 0x682E6FF3],
    [0x748F82EE, 0x78A5636F, 0x84C87814, 0x8CC70208, 0x90BEFFFA, 0xA4506CEB, 0xBEF9A3F7, 0xC67178F2]
  ]

  function K(i: nat): Word
    requires i < 64
  {
    K_ROWS[i / 8][i % 8]
  }

  const PRIME_ROWS: seq<seq<nat>> := [
    [2, 3, 5, 7, 11, 13, 17, 19],
    [23, 29, 31, 37, 41, 43, 47, 53],
    [59, 61, 67, 71, 73, 79, 83, 89],
    [97, 101, 103, 107, 109, 113, 127, 131],
    [137, 139, 149, 151, 157, 163, 167, 173],
    [179, 181, 191, 193, 197, 199, 211, 223],
    [227, 229, 233, 239, 241, 251, 257, 263],
    [269, 271, 277, 281, 283, 293, 307, 311]
  ]

  /** The initial hash value. */
  function Initial(is224: bool): (h: seq<Word>)
    ensures |h| == 8
  {
    if is224 then [0xC1059ED8, 0x367CD507, 0x3070DD17, 0xF70E5939, 0xFFC00B31, 0x68581511, 0x64F98FA7, 0xBEFA4FA4]
    else [0x6A09E667, 0xBB67AE85, 0x3C6EF372, 0xA54FF53A, 0x510E527F, 0x9B05688C, 0x1F83D9AB, 0x5BE0CD19]
  }

  function WholeCubeRoot(p: nat): nat {
    if p < 8 then 1 else if p < 27 then 2 else if p < 64 then 3 else if p < 125 then 4 else if p < 216 then 5 else 6
  }

  /** `k` is the first 32 bits of the fraction of the cube root of `p`. */
  predicate CubeRootFraction(p: nat, k: nat) {
    var x := WholeCubeRoot(p) * 0x1_0000_0000 + k;
    x * x * x <= p * 0x1_0000_0000_0000_0000_0000_0000 < (x + 1) * (x + 1) * (x + 1)
  }

  predicate RowOk(ps: seq<nat>, ks: seq<Word>)
    requires |ps| == |ks| == 8
  {
    && CubeRootFraction(ps[0], ks[0] as nat) && CubeRootFraction(ps[1], ks[1] as nat)
    && CubeRootFraction(ps[2], ks[2] as nat) && CubeRootFraction(ps[3], ks[3] as nat)
    && CubeRootFraction(ps[4], ks[4] as nat) && CubeRootFraction(ps[5], ks[5] as nat)
    && CubeRootFraction(ps[6], ks[6] as nat) && CubeRootFraction(ps[7], ks[7] as nat)
  }

  /** Section 4.2.2: the round constants come from the cube roots of the first 64 primes. */
  lemma RoundConstants(r: nat)
    requires r < 8
    ensures RowOk(PRIME_ROWS[r], K_ROWS[r])
  {
    hide RowOk;
    match r
    case 0 => Row0();
    case 1 => Row1();
    case 2 => Row2();
    case 3 => Row3();
    case 4 => Row4();
    case 5 => Row5();
    case 6 => Row6();
    case _ => Row7();
  }

  lemma Row0() ensures RowOk(PRIME_ROWS[0], K_ROWS[0]) { }

  lemma Row1() ensures RowOk(PRIME_ROWS[1], K_ROWS[1]) { }

  lemma Row2() ensures RowOk(PRIME_ROWS[2], K_ROWS[2]) { }

  lemma Row3() ensures RowOk(PRIME_ROWS[3], K_ROWS[3]) { }

  lemma Row4() ensures RowOk(PRIME_ROWS[4], K_ROWS[4]) { }

  lemma Row5() ensures RowOk(PRIME_ROWS[5], K_ROWS[5]) { }

  lemma Row6() ensures RowOk(PRIME_ROWS[6], K_ROWS[6]) { }

  lemma Row7() ensures RowOk(PRIME_ROWS[7], K_ROWS[7]) { }

  /** `x` is the square root of `p`, in units of one `unit`th, cut off to a whole number. */
  predicate SquareRoot(p: nat, x: nat, unit: nat) {
    x * x <= p * unit * unit < (x + 1) * (x + 1)
  }

  /** Section 5.3.3: the first 32 bits of the fractions of the square roots of the first eight primes. */
  lemma InitialValues256(i: nat)
    requires i < 8
    ensures exists x: nat :: SquareRoot(PRIME_ROWS[0][i], x, 0x1_0000_0000) && x % 0x1_0000_0000 == Initial(false)[i] as nat
  {
    var roots: seq<nat> := [1, 1, 2, 2, 3, 3, 4, 4];
    var x: nat := roots[i] * 0x1_0000_0000 + Initial(false)[i] as nat;
    assert SquareRoot(PRIME_ROWS[0][i], x, 0x1_0000_0000);
  }

  /** Section 5.3.2: the second 32 bits of those of the ninth to sixteenth primes. */
  lemma InitialValues224(i: nat)
    requires i < 8
    ensures exists x: nat :: SquareRoot(PRIME_ROWS[1][i], x, 0x1_0000_0000_0000_0000) && x % 0x1_0000_0000 == Initial(true)[i] as nat
  {
    var roots: seq<nat> := [20597939549, 23129106730, 23913365850, 26125266136, 27501209191, 28163984007, 29444812301, 31267833885];
    var x: nat := roots[i] * 0x1_0000_0000 + Initial(true)[i] as nat;
    assert SquareRoot(PRIME_ROWS[1][i], x, 0x1_0000_0000_0000_0000);
  }

  // ---------- section 6.2.2 ----------

  function WordAt(block: seq<Byte>, t: nat): Word
    requires |block| == 64 && t < 16
  {
    Join(block[4 * t], block[4 * t + 1], block[4 * t + 2], block[4 * t + 3])
  }

  /** Four bytes, most significant first, as a word. */
  function Join(b0: Byte, b1: Byte, b2: Byte, b3: Byte): Word {
    ((b0 as Word) << 24) | ((b1 as Word) << 16) | ((b2 as Word) << 8) | (b3 as Word)
  }

  /** The first `t` words of the message schedule. */
  function Schedule(block: seq<Byte>, t: nat): (w: seq<Word>)
    requires |block| == 64 && t <= 64
    ensures |w| == t
  {
    if t == 0 then []
    else
      var w := Schedule(block, t - 1);
      w + [if t <= 16 then WordAt(block, t - 1) else NextWord(w)]
  }

  function NextWord(w: seq<Word>): Word
    requires 16 <= |w|
  {
    var t := |w|;
    Add(Add(Add(SmallSigma1(w[t - 2]), w[t - 7]), SmallSigma0(w[t - 15])), w[t - 16])
  }

  /** One round on the working variables a, b, ..., h. */
  function Round(v: seq<Word>, k: Word, w: Word): (r: seq<Word>)
    requires |v| == 8
    ensures |r| == 8
  {
    var t1, t2 := T1(v[4], v[5], v[6], v[7], k, w), T2(v[0], v[1], v[2]);
    [Add(t1, t2), v[0], v[1], v[2], Add(v[3], t1), v[4], v[5], v[6]]
  }

  function T1(e: Word, f: Word, g: Word, h: Word, k: Word, w: Word): Word {
    Add(Add(Add(Add(h, BigSigma1(e)), Ch(e, f, g)), k), w)
  }

  function T2(a: Word, b: Word, c: Word): Word { Add(BigSigma0(a), Maj(a, b, c)) }

  function Rounds(h: seq<Word>, block: seq<Byte>, n: nat): (v: seq<Word>)
    requires |h| == 8 && |block| == 64 && n <= 64
    ensures |v| == 8
  {
    if n == 0 then h else Round(Rounds(h, block, n - 1), K(n - 1), Schedule(block, n)[n - 1])
  }

  function Compress(h: seq<Word>, block: seq<Byte>): (r: seq<Word>)
    requires |h| == 8 && |block| == 64
    ensures |r| == 8
  {
    var v := Rounds(h, block, 64);
    seq(8, i requires 0 <= i < 8 => Add(h[i], v[i]))
  }

  function FirstBlock(h: seq<Word>, m: seq<Byte>): (r: seq<Word>)
    requires |h| == 8 && 64 <= |m|
    ensures |r| == 8
  {
    Compress(h, m[..64])
  }

  /** The hash value after the blocks of `m`, in order. */
  function Hash(h: seq<Word>, m: seq<Byte>): (r: seq<Word>)
    requires |h| == 8 && |m| % 64 == 0
    ensures |r| == 8
    decreases |m|
  {
    if m == [] then h else Hash(FirstBlock(h, m), m[64..])
  }

  // ---------- section 5.1.1 ----------

  /** The number of zero bytes between the one bit's byte and the length. */
  function ZeroBytes(n: nat): nat { (119 - n % 64) % 64 }

  /** It is the least that leaves the length at the end of a block. */
  lemma ZeroBytesLeast(n: nat, k: nat)
    ensures (n + 1 + ZeroBytes(n) + 8) % 64 == 0
    ensures (n + 1 + k + 8) % 64 == 0 ==> ZeroBytes(n) <= k
  {
  }

  /** Eight bytes, most significant first. */
  function Length64(bits: nat): seq<Byte>
    requires bits < Words.DWORD
  {
    ByteOf(bits / 0x100_0000_0000_0000, bits / 0x1_0000_0000_0000, bits / 0x100_0000_0000, bits / 0x1_0000_0000)
    + ByteOf(bits / 0x100_0000, bits / 0x1_0000, bits / 0x100, bits)
  }

  /** The low bytes of four numbers. */
  function ByteOf(a: nat, b: nat, c: nat, d: nat): seq<Byte> {
    [(a % 256) as Byte, (b % 256) as Byte, (c % 256) as Byte, (d % 256) as Byte]
  }

  /** The number that a string of bytes stands for, most significant first. */
  function BigEndian(s: seq<Byte>): nat {
    if s == [] then 0 else 256 * BigEndian(s[..|s| - 1]) + s[|s| - 1] as nat
  }

  /** Eight bytes hold the whole length. */
  lemma LengthIs(bits: nat)
    requires bits < Words.DWORD
    ensures BigEndian(Length64(bits)) == bits
  {
    hide BigEndian, ByteOf;
    Divisions(bits);
    NoBytes();
    FourBytes([], bits / 0x1_0000_0000);
    var high := ByteOf(bits / 0x100_0000_0000_0000, bits / 0x1_0000_0000_0000, bits / 0x100_0000_0000, bits / 0x1_0000_0000);
    assert [] + high == high;
    FourBytes(high, bits);
  }

  lemma NoBytes()
    ensures BigEndian([]) == 0
  {
  }

  lemma Divisions(bits: nat)
    requires bits < Words.DWORD
    ensures var high := bits / 0x1_0000_0000;
      && bits / 0x100_0000_0000_0000 == high / 0x100_0000 && bits / 0x1_0000_0000_0000 == high / 0x1_0000
      && bits / 0x100_0000_0000 == high / 0x100 && high / 0x1_0000_0000 == 0
  {
  }

  lemma FourBytes(s: seq<Byte>, d: nat)
    requires BigEndian(s) == d / 0x1_0000_0000
    ensures BigEndian(s + ByteOf(d / 0x100_0000, d / 0x1_0000, d / 0x100, d)) == d
  {
    hide BigEndian;
    var b0, b1, b2, b3 := (d / 0x100_0000 % 256) as Byte, (d / 0x1_0000 % 256) as Byte, (d / 0x100 % 256) as Byte, (d % 256) as Byte;
    assert d / 0x1_0000_0000 == d / 0x100_0000 / 0x100 && d / 0x100_0000 == d / 0x1_0000 / 0x100 && d / 0x1_0000 == d / 0x100 / 0x100;
    OneMoreByte(s, d / 0x100_0000);
    OneMoreByte(s + [b0], d / 0x1_0000);
    OneMoreByte(s + [b0] + [b1], d / 0x100);
    OneMoreByte(s + [b0] + [b1] + [b2], d);
    assert s + [b0] + [b1] + [b2] + [b3] == s + [b0, b1, b2, b3];
  }

  lemma OneMoreByte(s: seq<Byte>, q: nat)
    requires BigEndian(s) == q / 0x100
    ensures BigEndian(s + [(q % 256) as Byte]) == q
  {
    ByteBack(q % 256);
    assert (s + [(q % 256) as Byte])[..|s|] == s;
  }

  lemma ByteBack(y: nat)
    requires y < 256
    ensures y as Byte as nat == y
  {
    var b := ByteAt(y);
    assert b as nat as Byte == b;
  }

  lemma {:induction false} ByteAt(y: nat) returns (b: Byte)
    requires y < 256
    ensures b as nat == y
  {
    b := 0;
    if y > 0 {
      b := ByteAt(y - 1);
      NextByte(b);
      b := b + 1;
    }
  }

  lemma NextByte(b: Byte)
    ensures b as nat < 255 ==> (b + 1) as nat == b as nat + 1
  {
  }

  function Pad(m: seq<Byte>): seq<Byte>
    requires |m| < 0x2000_0000_0000_0000
  {
    m + [0x80] + seq(ZeroBytes(|m|), _ => 0) + Length64(8 * |m|)
  }

  /** A word as four bytes, most significant first. */
  function Split(w: Word): seq<Byte> {
    [((w >> 24) & 0xff) as Byte, ((w >> 16) & 0xff) as Byte, ((w >> 8) & 0xff) as Byte, (w & 0xff) as Byte]
  }

  lemma SplitJoin(w: Word)
    ensures var b := Split(w); Join(b[0], b[1], b[2], b[3]) == w
  {
  }

  lemma JoinSplit(b0: Byte, b1: Byte, b2: Byte, b3: Byte)
    ensures Split(Join(b0, b1, b2, b3)) == [b0, b1, b2, b3]
  {
  }

  function Bytes(ws: seq<Word>): seq<Byte> {
    if ws == [] then [] else Split(ws[0]) + Bytes(ws[1..])
  }

  /** The message digest; SHA-224 leaves out the last word. */
  function Digest(m: seq<Byte>, is224: bool): seq<Byte>
    requires |m| < 0x2000_0000_0000_0000
  {
    ZeroBytesLeast(|m|, 0);
    var h := Hash(Initial(is224), Pad(m));
    Bytes(if is224 then h[..7] else h)
  }

  lemma SameFirst(h: seq<Word>, a: seq<Byte>, b: seq<Byte>)
    requires |h| == 8 && 64 <= |a|
    ensures FirstBlock(h, a + b) == FirstBlock(h, a)
  {
    hide Compress;
    assert (a + b)[..64] == a[..64];
  }

  /** Hashing is done block by block, from the left. */
  lemma {:induction false} HashAppend(h: seq<Word>, a: seq<Byte>, b: seq<Byte>)
    requires |h| == 8 && |a| % 64 == 0 && |b| % 64 == 0
    ensures Hash(h, a + b) == Hash(Hash(h, a), b)
    decreases |a|
  {
    hide FirstBlock;
    if a == [] {
      assert a + b == b;
    } else {
      assert (a + b)[64..] == a[64..] + b;
      assert FirstBlock(h, a + b) == FirstBlock(h, a) by { SameFirst(h, a, b); }
      HashAppend(FirstBlock(h, a), a[64..], b);
    }
  }
}
