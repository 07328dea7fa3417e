/**
  The streaming interface of the library (common/libtest161/sha256.c:105-140, 244-339 and
  the one-shot function at the end): a context with the hash of the whole blocks seen so far,
  a buffer for the bytes that do not fill a block, and a two-word byte counter.
*/
module Sha256 {
  import opened Sha256Spec
  import opened Sha256Process
  import opened Basics
  import Words

  /** The part of a message that fills whole blocks, and the rest. */
  function Whole(m: seq<Byte>): (r: seq<Byte>)
    ensures |r| % 64 == 0
  {
    m[..|m| - |m| % 64]
  }

  function Rest(m: seq<Byte>): (r: seq<Byte>)
    ensures |r| == |m| % 64
  {
    m[|m| - |m| % 64..]
  }

  /** The two-word counter holds the message length. */
  predicate Counts(total0: nat, total1: nat, len: nat) {
    && total0 < Words.WORD && total1 < Words.WORD
    && total0 + Words.WORD * total1 == len % Words.DWORD
  }

  /** What the context's fields must be after the message `m`. */
  ghost predicate Represents(total0: nat, total1: nat, state: seq<Word>, buffer: seq<Byte>, is224: bool, m: seq<Byte>) {
    && Counts(total0, total1, |m|)
    && state == Hash(Initial(is224), Whole(m))
    && |buffer| == 64 && buffer[..|m| % 64] == Rest(m)
  }

  // ---------- cutting a message into blocks ----------

  /** A block's worth of bytes moves from the rest to the whole blocks. */
  lemma OneMoreBlock(h: seq<Word>, m: seq<Byte>, block: seq<Byte>)
    requires |h| == 8 && |m| % 64 == 0 && |block| == 64
    ensures Hash(h, m + block) == Compress(Hash(h, m), block)
  {
    HashAppend(h, m, block);
    OneBlock(Hash(h, m), block);
  }

  lemma OneBlock(h: seq<Word>, block: seq<Byte>)
    requires |h| == 8 && |block| == 64
    ensures Hash(h, block) == Compress(h, block)
  {
    hide Compress;
    assert block[..64] == block && block[64..] == [];
    assert Hash(FirstBlock(h, block), block[64..]) == FirstBlock(h, block);
  }

  /** The counter after `n` more bytes; a carry shows as a low word smaller than `n`. */
  method CountUp(total0: nat, total1: nat, n: nat, ghost len: nat) returns (t0: nat, t1: nat)
    requires Counts(total0, total1, len) && n < Words.WORD
    ensures Counts(t0, t1, len + n)
  {
    t0, t1 := (total0 + n) % Words.WORD, total1;
    assert t0 == if total0 + n < Words.WORD then total0 + n else total0 + n - Words.WORD;
    if t0 < n {
      t1 := (total1 + 1) % Words.WORD;
    }
    ghost var total := total0 + Words.WORD * total1;
    assert (len + n) % Words.DWORD
        == if total + n < Words.DWORD then total + n else total + n - Words.DWORD;
  }

  lemma LowBits(total0: nat, total1: nat, len: nat)
    requires Counts(total0, total1, len)
    ensures total0 % 64 == len % 64
  {
  }

  /** The state has absorbed the first `n` bytes of `m`, a whole number of blocks. */
  ghost predicate Absorbed(state: seq<Word>, is224: bool, m: seq<Byte>, n: nat) {
    n <= |m| && n % 64 == 0 && state == Hash(Initial(is224), m[..n])
  }

  lemma AbsorbNext(state: seq<Word>, is224: bool, m: seq<Byte>, n: nat)
    requires Absorbed(state, is224, m, n) && n + 64 <= |m|
    ensures |state| == 8 && Absorbed(Compress(state, m[n..n + 64]), is224, m, n + 64)
  {
    hide Compress, Initial;
    OneMoreBlock(Initial(is224), m[..n], m[n..n + 64]);
    assert m[..n + 64] == m[..n] + m[n..n + 64];
  }

  /** The loop over whole blocks of the input; `m` ends with the input. */
  method Blocks(state: seq<Word>, input: seq<Byte>, is224: bool, ghost m: seq<Byte>) returns (state': seq<Word>, input': seq<Byte>)
    requires |input| <= |m| && input == m[|m| - |input|..] && Absorbed(state, is224, m, |m| - |input|)
    ensures |input'| < 64 && |input'| <= |m| && input' == m[|m| - |input'|..] && Absorbed(state', is224, m, |m| - |input'|)
  {
    hide Absorbed, Compress;
    state', input' := state, input;
    while |input'| >= 64
      invariant |input'| <= |m| && input' == m[|m| - |input'|..] && Absorbed(state', is224, m, |m| - |input'|)
    {
      ghost var n := |m| - |input'|;
      assert input'[..64] == m[n..n + 64];
      AbsorbNext(state', is224, m, n);
      state' := ProcessUnrolled(state', input'[..64]);
      input' := input'[64..];
    }
  }

  /** memcpy into the buffer. */
  method CopyIn(buffer: array<Byte>, off: nat, src: seq<Byte>)
    requires off + |src| <= buffer.Length
    modifies buffer
    ensures buffer[..] == old(buffer[..off]) + src + old(buffer[off + |src|..])
  {
    for i := 0 to |src|
      invariant buffer[..] == old(buffer[..off]) + src[..i] + old(buffer[off + i..])
    {
      buffer[off + i] := src[i];
    }
  }

  lemma FillBlock(buffer: seq<Byte>, m: seq<Byte>, input: seq<Byte>)
    requires |buffer| == 64 && buffer[..|m| % 64] == Rest(m) && 64 - |m| % 64 <= |input|
    ensures var n, fill := |m| - |m| % 64, 64 - |m| % 64;
      buffer[..|m| % 64] + input[..fill] == (m + input)[n..n + 64]
  {
  }

  /** With fewer bytes left than a block, all whole blocks have been absorbed. */
  lemma AllAbsorbed(state: seq<Word>, is224: bool, m: seq<Byte>, n: nat)
    requires Absorbed(state, is224, m, n) && |m| - n < 64
    ensures state == Hash(Initial(is224), Whole(m)) && Rest(m) == m[n..]
  {
    assert |m| - |m| % 64 == n;
  }

  /** Input too short to fill the buffer leaves the whole blocks as they were. */
  lemma StillShort(m: seq<Byte>, input: seq<Byte>)
    requires |m| % 64 + |input| < 64
    ensures Whole(m + input) == Whole(m) && Rest(m + input) == Rest(m) + input
  {
    assert (|m| + |input|) % 64 == |m| % 64 + |input|;
  }

  lemma WholeAbsorbed(is224: bool, m: seq<Byte>, input: seq<Byte>)
    ensures Absorbed(Hash(Initial(is224), Whole(m)), is224, m + input, |m| - |m| % 64)
  {
    hide Initial;
    assert (m + input)[..|m| - |m| % 64] == Whole(m);
  }

  /** mbedtls_sha256_update on the state and the buffer, which hold the message `m`. */
  method Absorb(buffer: array<Byte>, state: seq<Word>, left0: nat, input: seq<Byte>, is224: bool, ghost m: seq<Byte>)
      returns (state': seq<Word>)
    requires buffer.Length == 64 && left0 == |m| % 64
    requires state == Hash(Initial(is224), Whole(m)) && buffer[..left0] == Rest(m)
    modifies buffer
    ensures state' == Hash(Initial(is224), Whole(m + input)) && buffer[..|m + input| % 64] == Rest(m + input)
  {
    hide Compress, Initial, Hash, Whole, Rest, Absorbed;
    ghost var m' := m + input;
    var left, rest := left0, input;
    state' := state;
    WholeAbsorbed(is224, m, input);
    if left != 0 && |rest| >= 64 - left {
      var fill := 64 - left;
      FillBlock(buffer[..], m, input);
      CopyIn(buffer, left, rest[..fill]);
      assert buffer[..] == m'[|m| - left..|m| - left + 64];
      AbsorbNext(state', is224, m', |m| - left);
      state' := ProcessUnrolled(state', buffer[..]);
      rest := rest[fill..];
      left := 0;
    }
    if left == 0 {
      state', rest := Blocks(state', rest, is224, m');
      AllAbsorbed(state', is224, m', |m'| - |rest|);
    } else {
      StillShort(m, input);
    }
    if |rest| > 0 {
      CopyIn(buffer, left, rest);
    }
  }

  // ---------- the end of the message ----------

  const PADDING: seq<Byte> := [0x80] + seq(63, _ => 0)

  lemma PaddingBytes(n: nat, padn: nat)
    requires padn == if n % 64 < 56 then 56 - n % 64 else 120 - n % 64
    ensures padn <= 64 && PADDING[..padn] == [0x80] + seq(ZeroBytes(n), _ => 0)
  {
    assert padn == 1 + ZeroBytes(n);
  }

  /** The shifted counter words are the upper and lower half of the length in bits. */
  lemma BitLength(total0: nat, total1: nat, len: nat)
    requires Counts(total0, total1, len) && len < 0x2000_0000_0000_0000
    ensures var high, low := total0 / 0x2000_0000 + total1 * 8 % Words.WORD, total0 * 8 % Words.WORD;
      high < Words.WORD && low < Words.WORD && 8 * len == high * Words.WORD + low
  {
  }

  /** A 64-bit number's bytes are those of its halves. */
  lemma HalvesBytes(high: nat, low: nat)
    requires high < Words.WORD && low < Words.WORD
    ensures high * Words.WORD + low < Words.DWORD
    ensures Length64(high * Words.WORD + low)
         == ByteOf(high / 0x100_0000, high / 0x1_0000, high / 0x100, high) + ByteOf(low / 0x100_0000, low / 0x1_0000, low / 0x100, low)
  {
    hide ByteOf;
    var bits := high * Words.WORD + low;
    HighDivisions(high, low);
    LowDivisions(high, low);
    SameBytes(bits / 0x100_0000, bits / 0x1_0000, bits / 0x100, bits, low / 0x100_0000, low / 0x1_0000, low / 0x100, low);
  }

  lemma HighDivisions(high: nat, low: nat)
    requires low < Words.WORD
    ensures var bits := high * Words.WORD + low;
      && bits / 0x100_0000_0000_0000 == high / 0x100_0000 && bits / 0x1_0000_0000_0000 == high / 0x1_0000
      && bits / 0x100_0000_0000 == high / 0x100 && bits / 0x1_0000_0000 == high
  {
  }

  lemma LowDivisions(high: nat, low: nat)
    requires low < Words.WORD
    ensures var bits := high * Words.WORD + low;
      && bits / 0x100_0000 % 256 == low / 0x100_0000 % 256 && bits / 0x1_0000 % 256 == low / 0x1_0000 % 256
      && bits / 0x100 % 256 == low / 0x100 % 256 && bits % 256 == low % 256
  {
    var bits := high * Words.WORD + low;
    assert bits / 0x100_0000 == high * 256 + low / 0x100_0000;
    assert bits / 0x1_0000 == high * 256 * 256 + low / 0x1_0000;
    assert bits / 0x100 == high * 0x1_0000 * 256 + low / 0x100;
    Drop256(high, low / 0x100_0000);
    Drop256(high * 256, low / 0x1_0000);
    Drop256(high * 0x1_0000, low / 0x100);
    Drop256(high * 0x100_0000, low);
  }

  lemma Drop256(a: nat, b: nat)
    ensures (a * 256 + b) % 256 == b % 256
  {
  }

  lemma SameBytes(a: nat, b: nat, c: nat, d: nat, a': nat, b': nat, c': nat, d': nat)
    requires a % 256 == a' % 256 && b % 256 == b' % 256 && c % 256 == c' % 256 && d % 256 == d' % 256
    ensures ByteOf(a, b, c, d) == ByteOf(a', b', c', d')
  {
  }

  /** The eight bytes that encode the length. */
  method LengthBytes(total0: nat, total1: nat, ghost len: nat) returns (msglen: seq<Byte>)
    requires Counts(total0, total1, len)
    ensures |msglen| == 8
    ensures len < 0x2000_0000_0000_0000 ==> msglen == Length64(8 * len)
  {
    hide Length64, ByteOf, Counts;
    var high := total0 / 0x2000_0000 + total1 * 8 % Words.WORD;
    var low := total0 * 8 % Words.WORD;
    msglen := PutWord(high) + PutWord(low);
    if len < 0x2000_0000_0000_0000 {
      BitLength(total0, total1, len);
      HalvesBytes(high, low);
    }
  }

  /** PUT_UINT32_BE. */
  function PutWord(n: nat): (b: seq<Byte>)
    ensures |b| == 4
  {
    ByteOf(n / 0x100_0000, n / 0x1_0000, n / 0x100, n)
  }

  method Output(state: seq<Word>, is224: bool) returns (output: seq<Byte>)
    requires |state| == 8
    ensures output == Bytes(if is224 then state[..7] else state)
  {
    hide Split;
    WordByWord(state);
    output := Split(state[0]);
    output := output + Split(state[1]);
    output := output + Split(state[2]);
    output := output + Split(state[3]);
    output := output + Split(state[4]);
    output := output + Split(state[5]);
    output := output + Split(state[6]);
    if !is224 {
      output := output + Split(state[7]);
      assert state[..8] == state;
    }
  }

  lemma WordByWord(w: seq<Word>)
    requires |w| == 8
    ensures Bytes(w[..1]) == Split(w[0])
    ensures forall k :: 1 <= k < 8 ==> Bytes(w[..k + 1]) == Bytes(w[..k]) + Split(w[k])
  {
    hide Split;
    forall k | 0 <= k < 8 ensures Bytes(w[..k + 1]) == Bytes(w[..k]) + Split(w[k]) {
      assert w[..k + 1] == w[..k] + [w[k]];
      BytesConcat(w[..k], [w[k]]);
      assert Bytes([w[k]]) == Split(w[k]) + Bytes([]);
    }
    assert Bytes(w[..0]) == [];
  }

  lemma {:induction false} BytesConcat(a: seq<Word>, b: seq<Word>)
    ensures Bytes(a + b) == Bytes(a) + Bytes(b)
  {
    hide Split;
    if a == [] {
      assert a + b == b;
    } else {
      assert (a + b)[1..] == a[1..] + b;
      BytesConcat(a[1..], b);
    }
  }

  /** Once the padding and the length are in, the state is the hash of the padded message. */
  lemma PaddedState(state: seq<Word>, is224: bool, m: seq<Byte>, m': seq<Byte>)
    requires |m| < 0x2000_0000_0000_0000 && m' == Pad(m) && state == Hash(Initial(is224), Whole(m'))
    ensures Digest(m, is224) == Bytes(if is224 then state[..7] else state)
  {
    hide Initial, Hash, Bytes, Length64;
    ZeroBytesLeast(|m|, 0);
    PadLength(m);
    assert Whole(m') == m';
  }

  lemma PadLength(m: seq<Byte>)
    requires |m| < 0x2000_0000_0000_0000
    ensures |Pad(m)| % 64 == 0
  {
    ZeroBytesLeast(|m|, 0);
    hide ByteOf, ZeroBytes;
  }

  class Context {
    var total0: nat
    var total1: nat
    var state: seq<Word>
    const buffer: array<Byte>
    var is224: bool
    ghost var msg: seq<Byte>

    ghost predicate Valid()
      reads this, buffer
    {
      Represents(total0, total1, state, buffer[..], is224, msg)
    }

    /** mbedtls_sha256_init and mbedtls_sha256_starts. */
    constructor (is224: bool)
      ensures Valid() && msg == [] && this.is224 == is224
      ensures fresh(buffer)
    {
      total0, total1 := 0, 0;
      state := Initial(is224);
      this.is224 := is224;
      buffer := new Byte[64](_ => 0);
      msg := [];
    }

    method Update(input: seq<Byte>)
      requires Valid() && |input| < Words.WORD
      modifies this, buffer
      ensures Valid() && msg == old(msg) + input && is224 == old(is224)
    {
      hide Initial, Hash, Whole, Rest, Counts;
      if |input| == 0 {
        assert msg + input == msg;
        return;
      }
      var left := total0 % 64;
      LowBits(total0, total1, |msg|);
      total0, total1 := CountUp(total0, total1, |input|, |msg|);
      state := Absorb(buffer, state, left, input, is224, msg);
      msg := msg + input;
    }

    /** The digest of the message, if it is short enough for its length to be encoded. */
    method Finish() returns (output: seq<Byte>)
      requires Valid()
      modifies this, buffer
      ensures Valid() && is224 == old(is224)
      ensures |old(msg)| < 0x2000_0000_0000_0000 ==> output == Digest(old(msg), is224)
    {
      hide Initial, Hash, Whole, Rest, Counts, Length64, Bytes, Pad, Digest;
      ghost var m := msg;
      var msglen := LengthBytes(total0, total1, |msg|);
      var last := total0 % 64;
      var padn := if last < 56 then 56 - last else 120 - last;
      LowBits(total0, total1, |msg|);
      PaddingBytes(|msg|, padn);
      Update(PADDING[..padn]);
      Update(msglen);
      if |m| < 0x2000_0000_0000_0000 {
        PadIs(m, PADDING[..padn], msglen, msg);
        PaddedState(state, is224, m, msg);
      }
      output := Output(state, is224);
    }
  }

  lemma PadIs(m: seq<Byte>, padding: seq<Byte>, msglen: seq<Byte>, m': seq<Byte>)
    requires |m| < 0x2000_0000_0000_0000 && m' == m + padding + msglen
    requires padding == [0x80] + seq(ZeroBytes(|m|), _ => 0) && msglen == Length64(8 * |m|)
    ensures m' == Pad(m)
  {
    hide Length64, ZeroBytes;
  }

  // ---------- whole messages ----------

  function Concat(chunks: seq<seq<Byte>>): seq<Byte> {
    if chunks == [] then [] else Concat(chunks[..|chunks| - 1]) + chunks[|chunks| - 1]
  }

  /** However the message is cut into calls of update, the digest is that of the whole. */
  method HashChunks(chunks: seq<seq<Byte>>, is224: bool) returns (output: seq<Byte>)
    requires forall i :: 0 <= i < |chunks| ==> |chunks[i]| < Words.WORD
    ensures |Concat(chunks)| < 0x2000_0000_0000_0000 ==> output == Digest(Concat(chunks), is224)
  {
    hide Initial, Hash, Whole, Rest, Counts, Digest, Represents;
    var ctx := new Context(is224);
    var i := 0;
    while i < |chunks|
      invariant 0 <= i <= |chunks| && ctx.Valid() && ctx.is224 == is224 && fresh(ctx) && fresh(ctx.buffer)
      invariant ctx.msg == Concat(chunks[..i])
    {
      ctx.Update(chunks[i]);
      assert chunks[..i + 1][..i] == chunks[..i];
      i := i + 1;
    }
    assert chunks[..i] == chunks;
    output := ctx.Finish();
  }

  /** mbedtls_sha256. */
  method OneShot(input: seq<Byte>, is224: bool) returns (output: seq<Byte>)
    requires |input| < Words.WORD
    ensures output == Digest(input, is224)
  {
    hide Digest, Represents;
    var ctx := new Context(is224);
    ctx.Update(input);
    assert [] + input == input;
    output := ctx.Finish();
  }
}
