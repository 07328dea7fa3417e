/**
  Known answers, as the library lists them (common/libtest161/sha256.c:343-390): the digests
  of "abc" are those of the examples of FIPS 180-4. The message schedule is worked out eight
  words at a time and the working variables four rounds at a time.
*/
module Sha256Vectors {
  import opened Basics
  import opened Sha256Spec
  import opened Sha256

  // ---------- the message schedule ----------

  /** Word `t` of the schedule of a block. */
  function W(block: seq<Byte>, t: nat): Word
    requires |block| == 64 && t < 64
  {
    Schedule(block, t + 1)[t]
  }

  lemma {:induction false} SchedulePrefix(block: seq<Byte>, t: nat, n: nat)
    requires |block| == 64 && t < n <= 64
    ensures Schedule(block, n)[t] == W(block, t)
  {
    hide WordAt, NextWord;
    if t + 1 < n { SchedulePrefix(block, t, n - 1); }
  }

  /** A word from those two, seven, fifteen and sixteen places before it. */
  lemma Next(block: seq<Byte>, t: nat, w2: Word, w7: Word, w15: Word, w16: Word, w: Word)
    requires |block| == 64 && 16 <= t < 64
    requires W(block, t - 2) == w2 && W(block, t - 7) == w7 && W(block, t - 15) == w15 && W(block, t - 16) == w16
    requires w == Add(Add(Add(SmallSigma1(w2), w7), SmallSigma0(w15)), w16)
    ensures W(block, t) == w
  {
    hide Add, SmallSigma0, SmallSigma1, WordAt;
    SchedulePrefix(block, t - 2, t);
    SchedulePrefix(block, t - 7, t);
    SchedulePrefix(block, t - 15, t);
    SchedulePrefix(block, t - 16, t);
  }

  predicate Words4(block: seq<Byte>, t: nat, w0: Word, w1: Word, w2: Word, w3: Word) {
    && |block| == 64 && t + 4 <= 64
    && W(block, t) == w0 && W(block, t + 1) == w1 && W(block, t + 2) == w2 && W(block, t + 3) == w3
  }

  const ABC: seq<Byte> := [0x61, 0x62, 0x63]

  /** The block that holds "abc", padded. */
  predicate AbcBlock(block: seq<Byte>) {
    && Words4(block, 0, 0x61626380, 0, 0, 0) && Words4(block, 4, 0, 0, 0, 0)
    && Words4(block, 8, 0, 0, 0, 0) && Words4(block, 12, 0, 0, 0, 0x18)
  }

  lemma AbcWords16(block: seq<Byte>)
    requires AbcBlock(block)
    ensures Words4(block, 16, 0x61626380, 0x000F0000, 0x7DA86405, 0x600003C6)
    ensures Words4(block, 20, 0x3E9D7B78, 0x0183FC00, 0x12DCBFDB, 0xE2E2C38E)
  {
    hide W;
    Next(block, 16, 0x00000000, 0x00000000, 0x00000000, 0x61626380, 0x61626380);
    Next(block, 17, 0x00000018, 0x00000000, 0x00000000, 0x00000000, 0x000F0000);
    Next(block, 18, 0x61626380, 0x00000000, 0x00000000, 0x00000000, 0x7DA86405);
    Next(block, 19, 0x000F0000, 0x00000000, 0x00000000, 0x00000000, 0x600003C6);
    Next(block, 20, 0x7DA86405, 0x00000000, 0x00000000, 0x00000000, 0x3E9D7B78);
    Next(block, 21, 0x600003C6, 0x00000000, 0x00000000, 0x00000000, 0x0183FC00);
    Next(block, 22, 0x3E9D7B78, 0x00000018, 0x00000000, 0x00000000, 0x12DCBFDB);
    Next(block, 23, 0x0183FC00, 0x61626380, 0x00000000, 0x00000000, 0xE2E2C38E);
  }

  lemma AbcWords24(block: seq<Byte>)
    requires AbcBlock(block)
    ensures Words4(block, 24, 0xC8215C1A, 0xB73679A2, 0xE5BC3909, 0x32663C5B)
    ensures Words4(block, 28, 0x9D209D67, 0xEC8726CB, 0x702138A4, 0xD3B7973B)
  {
    hide W;
    AbcWords16(block);
    Next(block, 24, 0x12DCBFDB, 0x000F0000, 0x00000000, 0x00000000, 0xC8215C1A);
    Next(block, 25, 0xE2E2C38E, 0x7DA86405, 0x00000000, 0x00000000, 0xB73679A2);
    Next(block, 26, 0xC8215C1A, 0x600003C6, 0x00000000, 0x00000000, 0xE5BC3909);
    Next(block, 27, 0xB73679A2, 0x3E9D7B78, 0x00000000, 0x00000000, 0x32663C5B);
    Next(block, 28, 0xE5BC3909, 0x0183FC00, 0x00000000, 0x00000000, 0x9D209D67);
    Next(block, 29, 0x32663C5B, 0x12DCBFDB, 0x00000000, 0x00000000, 0xEC8726CB);
    Next(block, 30, 0x9D209D67, 0xE2E2C38E, 0x00000018, 0x00000000, 0x702138A4);
    Next(block, 31, 0xEC8726CB, 0xC8215C1A, 0x61626380, 0x00000018, 0xD3B7973B);
  }

  lemma AbcWords32(block: seq<Byte>)
    requires AbcBlock(block)
    ensures Words4(block, 32, 0x93F5997F, 0x3B68BA73, 0xAFF4FFC1, 0xF10A5C62)
    ensures Words4(block, 36, 0x0A8B3996, 0x72AF830A, 0x9409E33E, 0x24641522)
  {
    hide W;
    AbcWords16(block);
    AbcWords24(block);
    Next(block, 32, 0x702138A4, 0xB73679A2, 0x000F0000, 0x61626380, 0x93F5997F);
    Next(block, 33, 0xD3B7973B, 0xE5BC3909, 0x7DA86405, 0x000F0000, 0x3B68BA73);
    Next(block, 34, 0x93F5997F, 0x32663C5B, 0x600003C6, 0x7DA86405, 0xAFF4FFC1);
    Next(block, 35, 0x3B68BA73, 0x9D209D67, 0x3E9D7B78, 0x600003C6, 0xF10A5C62);
    Next(block, 36, 0xAFF4FFC1, 0xEC8726CB, 0x0183FC00, 0x3E9D7B78, 0x0A8B3996);
    Next(block, 37, 0xF10A5C62, 0x702138A4, 0x12DCBFDB, 0x0183FC00, 0x72AF830A);
    Next(block, 38, 0x0A8B3996, 0xD3B7973B, 0xE2E2C38E, 0x12DCBFDB, 0x9409E33E);
    Next(block, 39, 0x72AF830A, 0x93F5997F, 0xC8215C1A, 0xE2E2C38E, 0x24641522);
  }

  lemma AbcWords40(block: seq<Byte>)
    requires AbcBlock(block)
    ensures Words4(block, 40, 0x9F47BF94, 0xF0A64F5A, 0x3E246A79, 0x27333BA3)
    ensures Words4(block, 44, 0x0C4763F2, 0x840ABF27, 0x7A290D5D, 0x065C43DA)
  {
    hide W;
    AbcWords24(block);
    AbcWords32(block);
    Next(block, 40, 0x9409E33E, 0x3B68BA73, 0xB73679A2, 0xC8215C1A, 0x9F47BF94);
    Next(block, 41, 0x24641522, 0xAFF4FFC1, 0xE5BC3909, 0xB73679A2, 0xF0A64F5A);
    Next(block, 42, 0x9F47BF94, 0xF10A5C62, 0x32663C5B, 0xE5BC3909, 0x3E246A79);
    Next(block, 43, 0xF0A64F5A, 0x0A8B3996, 0x9D209D67, 0x32663C5B, 0x27333BA3);
    Next(block, 44, 0x3E246A79, 0x72AF830A, 0xEC8726CB, 0x9D209D67, 0x0C4763F2);
    Next(block, 45, 0x27333BA3, 0x9409E33E, 0x702138A4, 0xEC8726CB, 0x840ABF27);
    Next(block, 46, 0x0C4763F2, 0x24641522, 0xD3B7973B, 0x702138A4, 0x7A290D5D);
    Next(block, 47, 0x840ABF27, 0x9F47BF94, 0x93F5997F, 0xD3B7973B, 0x065C43DA);
  }

  lemma AbcWords48(block: seq<Byte>)
    requires AbcBlock(block)
    ensures Words4(block, 48, 0xFB3E89CB, 0xCC7617DB, 0xB9E66C34, 0xA9993667)
    ensures Words4(block, 52, 0x84BADEDD, 0xC21462BC, 0x1487472C, 0xB20F7A99)
  {
    hide W;
    AbcWords32(block);
    AbcWords40(block);
    Next(block, 48, 0x7A290D5D, 0xF0A64F5A, 0x3B68BA73, 0x93F5997F, 0xFB3E89CB);
    Next(block, 49, 0x065C43DA, 0x3E246A79, 0xAFF4FFC1, 0x3B68BA73, 0xCC7617DB);
    Next(block, 50, 0xFB3E89CB, 0x27333BA3, 0xF10A5C62, 0xAFF4FFC1, 0xB9E66C34);
    Next(block, 51, 0xCC7617DB, 0x0C4763F2, 0x0A8B3996, 0xF10A5C62, 0xA9993667);
    Next(block, 52, 0xB9E66C34, 0x840ABF27, 0x72AF830A, 0x0A8B3996, 0x84BADEDD);
    Next(block, 53, 0xA9993667, 0x7A290D5D, 0x9409E33E, 0x72AF830A, 0xC21462BC);
    Next(block, 54, 0x84BADEDD, 0x065C43DA, 0x24641522, 0x9409E33E, 0x1487472C);
    Next(block, 55, 0xC21462BC, 0xFB3E89CB, 0x9F47BF94, 0x24641522, 0xB20F7A99);
  }

  lemma AbcWords56(block: seq<Byte>)
    requires AbcBlock(block)
    ensures Words4(block, 56, 0xEF57B9CD, 0xEBE6B238, 0x9FE3095E, 0x78BC8D4B)
    ensures Words4(block, 60, 0xA43FCF15, 0x668B2FF8, 0xEEABA2CC, 0x12B1EDEB)
  {
    hide W;
    AbcWords40(block);
    AbcWords48(block);
    Next(block, 56, 0x1487472C, 0xCC7617DB, 0xF0A64F5A, 0x9F47BF94, 0xEF57B9CD);
    Next(block, 57, 0xB20F7A99, 0xB9E66C34, 0x3E246A79, 0xF0A64F5A, 0xEBE6B238);
    Next(block, 58, 0xEF57B9CD, 0xA9993667, 0x27333BA3, 0x3E246A79, 0x9FE3095E);
    Next(block, 59, 0xEBE6B238, 0x84BADEDD, 0x0C4763F2, 0x27333BA3, 0x78BC8D4B);
    Next(block, 60, 0x9FE3095E, 0xC21462BC, 0x840ABF27, 0x0C4763F2, 0xA43FCF15);
    Next(block, 61, 0x78BC8D4B, 0x1487472C, 0x7A290D5D, 0x840ABF27, 0x668B2FF8);
    Next(block, 62, 0xA43FCF15, 0xB20F7A99, 0x065C43DA, 0x7A290D5D, 0xEEABA2CC);
    Next(block, 63, 0x668B2FF8, 0xEF57B9CD, 0xFB3E89CB, 0x065C43DA, 0x12B1EDEB);
  }

  // ---------- the rounds ----------

  predicate K4(t: nat, k0: Word, k1: Word, k2: Word, k3: Word) {
    t + 4 <= 64 && K(t) == k0 && K(t + 1) == k1 && K(t + 2) == k2 && K(t + 3) == k3
  }

  /** The working variables after `n` rounds. */
  predicate After(s: seq<Word>, block: seq<Byte>, n: nat,
                  a: Word, b: Word, c: Word, d: Word, e: Word, f: Word, g: Word, h: Word) {
    |s| == 8 && |block| == 64 && n <= 64 && Rounds(s, block, n) == [a, b, c, d, e, f, g, h]
  }

  predicate Step(a: Word, b: Word, c: Word, d: Word, e: Word, f: Word, g: Word, h: Word, k: Word, w: Word, a': Word, e': Word) {
    var t1 := T1(e, f, g, h, k, w);
    a' == Add(t1, T2(a, b, c)) && e' == Add(d, t1)
  }

  lemma Round1(s: seq<Word>, block: seq<Byte>, n: nat,
               a: Word, b: Word, c: Word, d: Word, e: Word, f: Word, g: Word, h: Word,
               k: Word, w: Word, a': Word, e': Word)
    requires After(s, block, n, a, b, c, d, e, f, g, h) && n < 64 && K(n) == k && W(block, n) == w
    requires Step(a, b, c, d, e, f, g, h, k, w, a', e')
    ensures After(s, block, n + 1, a', a, b, c, e', e, f, g)
  {
    hide T1, T2, Add, Schedule, K;
  }

  lemma Round4(s: seq<Word>, block: seq<Byte>, n: nat,
               a: Word, b: Word, c: Word, d: Word, e: Word, f: Word, g: Word, h: Word,
               k0: Word, k1: Word, k2: Word, k3: Word, w0: Word, w1: Word, w2: Word, w3: Word,
               a0: Word, a1: Word, a2: Word, a3: Word, e0: Word, e1: Word, e2: Word, e3: Word)
    requires After(s, block, n, a, b, c, d, e, f, g, h) && K4(n, k0, k1, k2, k3) && Words4(block, n, w0, w1, w2, w3)
    requires Step(a, b, c, d, e, f, g, h, k0, w0, a0, e0) && Step(a0, a, b, c, e0, e, f, g, k1, w1, a1, e1)
    requires Step(a1, a0, a, b, e1, e0, e, f, k2, w2, a2, e2) && Step(a2, a1, a0, a, e2, e1, e0, e, k3, w3, a3, e3)
    ensures After(s, block, n + 4, a3, a2, a1, a0, e3, e2, e1, e0)
  {
    hide Step, After, W, K;
    Round1(s, block, n, a, b, c, d, e, f, g, h, k0, w0, a0, e0);
    Round1(s, block, n + 1, a0, a, b, c, e0, e, f, g, k1, w1, a1, e1);
    Round1(s, block, n + 2, a1, a0, a, b, e1, e0, e, f, k2, w2, a2, e2);
    Round1(s, block, n + 3, a2, a1, a0, a, e2, e1, e0, e, k3, w3, a3, e3);
  }

  lemma FullRounds0(block: seq<Byte>)
    requires |block| == 64
    ensures After(Initial(false), block, 0,
                  0x6A09E667, 0xBB67AE85, 0x3C6EF372, 0xA54FF53A, 0x510E527F, 0x9B05688C, 0x1F83D9AB, 0x5BE0CD19)
  {
  }

  lemma FullRounds8(block: seq<Byte>)
    requires AbcBlock(block)
    ensures After(Initial(false), block, 8,
                  0x85A07B5F, 0xE5030380, 0x2B4209F5, 0x04409A6A, 0x0C657A79, 0x9B27A401, 0x714260AD, 0x43ADA245)
  {
    hide W, After;
    FullRounds0(block);
    Round4(Initial(false), block, 0,
           0x6A09E667, 0xBB67AE85, 0x3C6EF372, 0xA54FF53A, 0x510E527F, 0x9B05688C, 0x1F83D9AB, 0x5BE0CD19,
           0x428A2F98, 0x71374491, 0xB5C0FBCF, 0xE9B5DBA5, 0x61626380, 0x00000000, 0x00000000, 0x00000000,
           0x5D6AEBCD, 0x5A6AD9AD, 0xC8C347A7, 0xD550F666, 0xFA2A4622, 0x78CE7989, 0xF92939EB, 0x24E00850);
    Round4(Initial(false), block, 4,
           0xD550F666, 0xC8C347A7, 0x5A6AD9AD, 0x5D6AEBCD, 0x24E00850, 0xF92939EB, 0x78CE7989, 0xFA2A4622,
           0x3956C25B, 0x59F111F1, 0x923F82A4, 0xAB1C5ED5, 0x00000000, 0x00000000, 0x00000000, 0x00000000,
           0x04409A6A, 0x2B4209F5, 0xE5030380, 0x85A07B5F, 0x43ADA245, 0x714260AD, 0x9B27A401, 0x0C657A79);
  }

  lemma FullRounds16(block: seq<Byte>)
    requires AbcBlock(block)
    ensures After(Initial(false), block, 16,
                  0xB0FA238E, 0xC0645FDE, 0xD932EB16, 0x87912990, 0x07590DCD, 0x0B92F20C, 0x745A48DE, 0x1E578218)
  {
    hide W, After;
    FullRounds8(block);
    Round4(Initial(false), block, 8,
           0x85A07B5F, 0xE5030380, 0x2B4209F5, 0x04409A6A, 0x0C657A79, 0x9B27A401, 0x714260AD, 0x43ADA245,
           0xD807AA98, 0x12835B01, 0x243185BE, 0x550C7DC3, 0x00000000, 0x00000000, 0x00000000, 0x00000000,
           0x8E04ECB9, 0x8C87346B, 0x4798A3F4, 0xF71FC5A9, 0x32CA2D8C, 0x1CC92596, 0x436B23E8, 0x816FD6E9);
    Round4(Initial(false), block, 12,
           0xF71FC5A9, 0x4798A3F4, 0x8C87346B, 0x8E04ECB9, 0x816FD6E9, 0x436B23E8, 0x1CC92596, 0x32CA2D8C,
           0x72BE5D74, 0x80DEB1FE, 0x9BDC06A7, 0xC19BF174, 0x00000000, 0x00000000, 0x00000000, 0x00000018,
           0x87912990, 0xD932EB16, 0xC0645FDE, 0xB0FA238E, 0x1E578218, 0x745A48DE, 0x0B92F20C, 0x07590DCD);
  }

  lemma FullRounds24(block: seq<Byte>)
    requires AbcBlock(block)
    ensures After(Initial(false), block, 24,
                  0xC5D53D8D, 0xA7A3623F, 0xC2606D6D, 0x9DC68B63, 0xAA47C347, 0x49F5114A, 0xE1257970, 0x8ADA8930)
  {
    hide W, After;
    FullRounds16(block);
    AbcWords16(block);
    Round4(Initial(false), block, 16,
           0xB0FA238E, 0xC0645FDE, 0xD932EB16, 0x87912990, 0x07590DCD, 0x0B92F20C, 0x745A48DE, 0x1E578218,
           0xE49B69C1, 0xEFBE4786, 0x0FC19DC6, 0x240CA1CC, 0x61626380, 0x000F0000, 0x7DA86405, 0x600003C6,
           0x21DA9A9B, 0xC2FBD9D1, 0xFE777BBF, 0xE1F20C33, 0x8034229C, 0x846EE454, 0xCC899961, 0xB0638179);
    Round4(Initial(false), block, 20,
           0xE1F20C33, 0xFE777BBF, 0xC2FBD9D1, 0x21DA9A9B, 0xB0638179, 0xCC899961, 0x846EE454, 0x8034229C,
           0x2DE92C6F, 0x4A7484AA, 0x5CB0A9DC, 0x76F988DA, 0x3E9D7B78, 0x0183FC00, 0x12DCBFDB, 0xE2E2C38E,
           0x9DC68B63, 0xC2606D6D, 0xA7A3623F, 0xC5D53D8D, 0x8ADA8930, 0xE1257970, 0x49F5114A, 0xAA47C347);
  }

  lemma FullRounds32(block: seq<Byte>)
    requires AbcBlock(block)
    ensures After(Initial(false), block, 32,
                  0x73B33BF5, 0xEA992A22, 0xA0060B30, 0x363482C9, 0xBA591112, 0x0109AB3A, 0xADE79437, 0x6112A3B7)
  {
    hide W, After;
    FullRounds24(block);
    AbcWords24(block);
    Round4(Initial(false), block, 24,
           0xC5D53D8D, 0xA7A3623F, 0xC2606D6D, 0x9DC68B63, 0xAA47C347, 0x49F5114A, 0xE1257970, 0x8ADA8930,
           0x983E5152, 0xA831C66D, 0xB00327C8, 0xBF597FC7, 0xC8215C1A, 0xB73679A2, 0xE5BC3909, 0x32663C5B,
           0x1C2C2838, 0xCDE8037D, 0xB62EC4BC, 0x77D37528, 0x2823EF91, 0x14383D8E, 0xC74C6516, 0xEDFFBFF8);
    Round4(Initial(false), block, 28,
           0x77D37528, 0xB62EC4BC, 0xCDE8037D, 0x1C2C2838, 0xEDFFBFF8, 0xC74C6516, 0x14383D8E, 0x2823EF91,
           0xC6E00BF3, 0xD5A79147, 0x06CA6351, 0x14292967, 0x9D209D67, 0xEC8726CB, 0x702138A4, 0xD3B7973B,
           0x363482C9, 0xA0060B30, 0xEA992A22, 0x73B33BF5, 0x6112A3B7, 0xADE79437, 0x0109AB3A, 0xBA591112);
  }

  lemma FullRounds40(block: seq<Byte>)
    requires AbcBlock(block)
    ensures After(Initial(false), block, 40,
                  0x79EA687A, 0x6DC57A8A, 0x34DF1604, 0x41A65CB1, 0x1EFBC0A0, 0xF0781BC8, 0xA507A53D, 0x0772A26B)
  {
    hide W, After;
    FullRounds32(block);
    AbcWords32(block);
    Round4(Initial(false), block, 32,
           0x73B33BF5, 0xEA992A22, 0xA0060B30, 0x363482C9, 0xBA591112, 0x0109AB3A, 0xADE79437, 0x6112A3B7,
           0x27B70A85, 0x2E1B2138, 0x4D2C6DFC, 0x53380D13, 0x93F5997F, 0x3B68BA73, 0xAFF4FFC1, 0xF10A5C62,
           0x98E12507, 0xFE604DF5, 0xA9A7738C, 0x65A0CFE4, 0x9CD9F5F6, 0x59249DD3, 0x085F3833, 0xF4B002D6);
    Round4(Initial(false), block, 36,
           0x65A0CFE4, 0xA9A7738C, 0xFE604DF5, 0x98E12507, 0xF4B002D6, 0x085F3833, 0x59249DD3, 0x9CD9F5F6,
           0x650A7354, 0x766A0ABB, 0x81C2C92E, 0x92722C85, 0x0A8B3996, 0x72AF830A, 0x9409E33E, 0x24641522,
           0x41A65CB1, 0x34DF1604, 0x6DC57A8A, 0x79EA687A, 0x0772A26B, 0xA507A53D, 0xF0781BC8, 0x1EFBC0A0);
  }

  lemma FullRounds48(block: seq<Byte>)
    requires AbcBlock(block)
    ensures After(Initial(false), block, 48,
                  0x4172328D, 0xA14C14B0, 0x72AB4B91, 0x26628815, 0xFECF0BC6, 0xD57B94A9, 0xB7755DA1, 0xA80F11F0)
  {
    hide W, After;
    FullRounds40(block);
    AbcWords40(block);
    Round4(Initial(false), block, 40,
           0x79EA687A, 0x6DC57A8A, 0x34DF1604, 0x41A65CB1, 0x1EFBC0A0, 0xF0781BC8, 0xA507A53D, 0x0772A26B,
           0xA2BFE8A1, 0xA81A664B, 0xC24B8B70, 0xC76C51A3, 0x9F47BF94, 0xF0A64F5A, 0x3E246A79, 0x27333BA3,
           0xD6670766, 0xDF46652F, 0x17AA0DFE, 0x9D4BAF93, 0x26352D63, 0x838B2711, 0xDECD4715, 0xFDA24C2E);
    Round4(Initial(false), block, 44,
           0x9D4BAF93, 0x17AA0DFE, 0xDF46652F, 0xD6670766, 0xFDA24C2E, 0xDECD4715, 0x838B2711, 0x26352D63,
           0xD192E819, 0xD6990624, 0xF40E3585, 0x106AA070, 0x0C4763F2, 0x840ABF27, 0x7A290D5D, 0x065C43DA,
           0x26628815, 0x72AB4B91, 0xA14C14B0, 0x4172328D, 0xA80F11F0, 0xB7755DA1, 0xD57B94A9, 0xFECF0BC6);
  }

  lemma FullRounds56(block: seq<Byte>)
    requires AbcBlock(block)
    ensures After(Initial(false), block, 56,
                  0x38CC9913, 0x3EC45CDB, 0xF5702FDB, 0x101FD28F, 0x54CB266B, 0xE50E1B4F, 0x9F4787C3, 0x529E7D00)
  {
    hide W, After;
    FullRounds48(block);
    AbcWords48(block);
    Round4(Initial(false), block, 48,
           0x4172328D, 0xA14C14B0, 0x72AB4B91, 0x26628815, 0xFECF0BC6, 0xD57B94A9, 0xB7755DA1, 0xA80F11F0,
           0x19A4C116, 0x1E376C08, 0x2748774C, 0x34B0BCB5, 0xFB3E89CB, 0xCC7617DB, 0xB9E66C34, 0xA9993667,
           0x05757CEB, 0xF11BFAA8, 0x7A0508A1, 0x886E7A22, 0xBD714038, 0x6E5C390C, 0x52F1CCF7, 0x49231C1E);
    Round4(Initial(false), block, 52,
           0x886E7A22, 0x7A0508A1, 0xF11BFAA8, 0x05757CEB, 0x49231C1E, 0x52F1CCF7, 0x6E5C390C, 0xBD714038,
           0x391C0CB3, 0x4ED8AA4A, 0x5B9CCA4F, 0x682E6FF3, 0x84BADEDD, 0xC21462BC, 0x1487472C, 0xB20F7A99,
           0x101FD28F, 0xF5702FDB, 0x3EC45CDB, 0x38CC9913, 0x529E7D00, 0x9F4787C3, 0xE50E1B4F, 0x54CB266B);
  }

  lemma FullRounds64(block: seq<Byte>)
    requires AbcBlock(block)
    ensures After(Initial(false), block, 64,
                  0x506E3058, 0xD39A2165, 0x04D24D6C, 0xB85E2CE9, 0x5EF50F24, 0xFB121210, 0x948D25B6, 0x961F4894)
  {
    hide W, After;
    FullRounds56(block);
    AbcWords56(block);
    Round4(Initial(false), block, 56,
           0x38CC9913, 0x3EC45CDB, 0xF5702FDB, 0x101FD28F, 0x54CB266B, 0xE50E1B4F, 0x9F4787C3, 0x529E7D00,
           0x748F82EE, 0x78A5636F, 0x84C87814, 0x8CC70208, 0xEF57B9CD, 0xEBE6B238, 0x9FE3095E, 0x78BC8D4B,
           0xFCD1887B, 0xC062D46F, 0xFFB70472, 0xB6AE8FFF, 0x9B5E906C, 0x7E44008E, 0x6D83BFC6, 0xB21BAD3D);
    Round4(Initial(false), block, 60,
           0xB6AE8FFF, 0xFFB70472, 0xC062D46F, 0xFCD1887B, 0xB21BAD3D, 0x6D83BFC6, 0x7E44008E, 0x9B5E906C,
           0x90BEFFFA, 0xA4506CEB, 0xBEF9A3F7, 0xC67178F2, 0xA43FCF15, 0x668B2FF8, 0xEEABA2CC, 0x12B1EDEB,
           0xB85E2CE9, 0x04D24D6C, 0xD39A2165, 0x506E3058, 0x961F4894, 0x948D25B6, 0xFB121210, 0x5EF50F24);
  }

  lemma ShortRounds0(block: seq<Byte>)
    requires |block| == 64
    ensures After(Initial(true), block, 0,
                  0xC1059ED8, 0x367CD507, 0x3070DD17, 0xF70E5939, 0xFFC00B31, 0x68581511, 0x64F98FA7, 0xBEFA4FA4)
  {
  }

  lemma ShortRounds8(block: seq<Byte>)
    requires AbcBlock(block)
    ensures After(Initial(true), block, 8,
                  0xF09D116D, 0x0B6B9023, 0xB2CA3A91, 0x08A0DC0C, 0x7A84120D, 0xA2E49147, 0x898DC7BB, 0x05B557DB)
  {
    hide W, After;
    ShortRounds0(block);
    Round4(Initial(true), block, 0,
           0xC1059ED8, 0x367CD507, 0x3070DD17, 0xF70E5939, 0xFFC00B31, 0x68581511, 0x64F98FA7, 0xBEFA4FA4,
           0x428A2F98, 0x71374491, 0xB5C0FBCF, 0xE9B5DBA5, 0x61626380, 0x00000000, 0x00000000, 0x00000000,
           0x0E96B2DA, 0xC20DAB6B, 0xAB113B7A, 0x8253CC1A, 0x0434225E, 0x9CAB416F, 0x82177FE8, 0x8346B27D);
    Round4(Initial(true), block, 4,
           0x8253CC1A, 0xAB113B7A, 0xC20DAB6B, 0x0E96B2DA, 0x8346B27D, 0x82177FE8, 0x9CAB416F, 0x0434225E,
           0x3956C25B, 0x59F111F1, 0x923F82A4, 0xAB1C5ED5, 0x00000000, 0x00000000, 0x00000000, 0x00000000,
           0x08A0DC0C, 0xB2CA3A91, 0x0B6B9023, 0xF09D116D, 0x05B557DB, 0x898DC7BB, 0xA2E49147, 0x7A84120D);
  }

  lemma ShortRounds16(block: seq<Byte>)
    requires AbcBlock(block)
    ensures After(Initial(true), block, 16,
                  0x9F341A45, 0x1D80D178, 0xBE316902, 0xFC4F023E, 0x6A61C411, 0x4545F53A, 0x65141125, 0x87BEA51A)
  {
    hide W, After;
    ShortRounds8(block);
    Round4(Initial(true), block, 8,
           0xF09D116D, 0x0B6B9023, 0xB2CA3A91, 0x08A0DC0C, 0x7A84120D, 0xA2E49147, 0x898DC7BB, 0x05B557DB,
           0xD807AA98, 0x12835B01, 0x243185BE, 0x550C7DC3, 0x00000000, 0x00000000, 0x00000000, 0x00000000,
           0xED6FA633, 0x55E6A367, 0x0817E82B, 0x17142334, 0xC037FAAD, 0xAAE50091, 0xC8C53A2C, 0xDD4C7BE9);
    Round4(Initial(true), block, 12,
           0x17142334, 0x0817E82B, 0x55E6A367, 0xED6FA633, 0xDD4C7BE9, 0xC8C53A2C, 0xAAE50091, 0xC037FAAD,
           0x72BE5D74, 0x80DEB1FE, 0x9BDC06A7, 0xC19BF174, 0x00000000, 0x00000000, 0x00000000, 0x00000018,
           0xFC4F023E, 0xBE316902, 0x1D80D178, 0x9F341A45, 0x87BEA51A, 0x65141125, 0x4545F53A, 0x6A61C411);
  }

  lemma ShortRounds24(block: seq<Byte>)
    requires AbcBlock(block)
    ensures After(Initial(true), block, 24,
                  0x57206FB8, 0xE62A812E, 0xDECE98A4, 0x07D55CCB, 0xC76084EA, 0x28FE0FD9, 0x293FFB5D, 0x9BA5A6EA)
  {
    hide W, After;
    ShortRounds16(block);
    AbcWords16(block);
    Round4(Initial(true), block, 16,
           0x9F341A45, 0x1D80D178, 0xBE316902, 0xFC4F023E, 0x6A61C411, 0x4545F53A, 0x65141125, 0x87BEA51A,
           0xE49B69C1, 0xEFBE4786, 0x0FC19DC6, 0x240CA1CC, 0x61626380, 0x000F0000, 0x7DA86405, 0x600003C6,
           0x0F324DB9, 0xFFE7012B, 0x62932AB8, 0x5207D867, 0x06C80D6A, 0xB7B601F4, 0x763B627A, 0x7FBBA936);
    Round4(Initial(true), block, 20,
           0x5207D867, 0x62932AB8, 0xFFE7012B, 0x0F324DB9, 0x7FBBA936, 0x763B627A, 0xB7B601F4, 0x06C80D6A,
           0x2DE92C6F, 0x4A7484AA, 0x5CB0A9DC, 0x76F988DA, 0x3E9D7B78, 0x0183FC00, 0x12DCBFDB, 0xE2E2C38E,
           0x07D55CCB, 0xDECE98A4, 0xE62A812E, 0x57206FB8, 0x9BA5A6EA, 0x293FFB5D, 0x28FE0FD9, 0xC76084EA);
  }

  lemma ShortRounds32(block: seq<Byte>)
    requires AbcBlock(block)
    ensures After(Initial(true), block, 32,
                  0xCCE1951D, 0x0D7CCE07, 0xFE3C8658, 0x2D1576C4, 0x4BE9475C, 0xA4A4A3A4, 0xFC4B36C5, 0x01641929)
  {
    hide W, After;
    ShortRounds24(block);
    AbcWords24(block);
    Round4(Initial(true), block, 24,
           0x57206FB8, 0xE62A812E, 0xDECE98A4, 0x07D55CCB, 0xC76084EA, 0x28FE0FD9, 0x293FFB5D, 0x9BA5A6EA,
           0x983E5152, 0xA831C66D, 0xB00327C8, 0xBF597FC7, 0xC8215C1A, 0xB73679A2, 0xE5BC3909, 0x32663C5B,
           0x6A6ABCF0, 0x937514F0, 0x82AF3FFB, 0xECA3BCD5, 0xB2614C5E, 0xB42EC21C, 0xBE6F6760, 0x1DCCBB10);
    Round4(Initial(true), block, 28,
           0xECA3BCD5, 0x82AF3FFB, 0x937514F0, 0x6A6ABCF0, 0x1DCCBB10, 0xBE6F6760, 0xB42EC21C, 0xB2614C5E,
           0xC6E00BF3, 0xD5A79147, 0x06CA6351, 0x14292967, 0x9D209D67, 0xEC8726CB, 0x702138A4, 0xD3B7973B,
           0x2D1576C4, 0xFE3C8658, 0x0D7CCE07, 0xCCE1951D, 0x01641929, 0xFC4B36C5, 0xA4A4A3A4, 0x4BE9475C);
  }

  lemma ShortRounds40(block: seq<Byte>)
    requires AbcBlock(block)
    ensures After(Initial(true), block, 40,
                  0xF3C80288, 0x7902369C, 0x0D275CA8, 0x2A2E32F4, 0x00E3A7BB, 0xD9F8C2E0, 0xF6C39382, 0x22E15C59)
  {
    hide W, After;
    ShortRounds32(block);
    AbcWords32(block);
    Round4(Initial(true), block, 32,
           0xCCE1951D, 0x0D7CCE07, 0xFE3C8658, 0x2D1576C4, 0x4BE9475C, 0xA4A4A3A4, 0xFC4B36C5, 0x01641929,
           0x27B70A85, 0x2E1B2138, 0x4D2C6DFC, 0x53380D13, 0x93F5997F, 0x3B68BA73, 0xAFF4FFC1, 0xF10A5C62,
           0x09B76257, 0xF827767E, 0xE4A0BB48, 0xD8BB1041, 0x0CCDDD86, 0xDB116DB7, 0x994E2BAC, 0x5B730ABB);
    Round4(Initial(true), block, 36,
           0xD8BB1041, 0xE4A0BB48, 0xF827767E, 0x09B76257, 0x5B730ABB, 0x994E2BAC, 0xDB116DB7, 0x0CCDDD86,
           0x650A7354, 0x766A0ABB, 0x81C2C92E, 0x92722C85, 0x0A8B3996, 0x72AF830A, 0x9409E33E, 0x24641522,
           0x2A2E32F4, 0x0D275CA8, 0x7902369C, 0xF3C80288, 0x22E15C59, 0xF6C39382, 0xD9F8C2E0, 0x00E3A7BB);
  }

  lemma ShortRounds48(block: seq<Byte>)
    requires AbcBlock(block)
    ensures After(Initial(true), block, 48,
                  0x847EA00E, 0xFB3777D9, 0x131D4C09, 0xA3701BD9, 0x503A7B95, 0x1D601F44, 0xECB77E1B, 0xAF1BEF5F)
  {
    hide W, After;
    ShortRounds40(block);
    AbcWords40(block);
    Round4(Initial(true), block, 40,
           0xF3C80288, 0x7902369C, 0x0D275CA8, 0x2A2E32F4, 0x00E3A7BB, 0xD9F8C2E0, 0xF6C39382, 0x22E15C59,
           0xA2BFE8A1, 0xA81A664B, 0xC24B8B70, 0xC76C51A3, 0x9F47BF94, 0xF0A64F5A, 0x3E246A79, 0x27333BA3,
           0x483BBA4D, 0xD75D4D26, 0x0744B618, 0x9CCE9F01, 0xF0A8198C, 0xFCECDCD4, 0x03186FAA, 0xA56F6BBF);
    Round4(Initial(true), block, 44,
           0x9CCE9F01, 0x0744B618, 0xD75D4D26, 0x483BBA4D, 0xA56F6BBF, 0x03186FAA, 0xFCECDCD4, 0xF0A8198C,
           0xD192E819, 0xD6990624, 0xF40E3585, 0x106AA070, 0x0C4763F2, 0x840ABF27, 0x7A290D5D, 0x065C43DA,
           0xA3701BD9, 0x131D4C09, 0xFB3777D9, 0x847EA00E, 0xAF1BEF5F, 0xECB77E1B, 0x1D601F44, 0x503A7B95);
  }

  lemma ShortRounds56(block: seq<Byte>)
    requires AbcBlock(block)
    ensures After(Initial(true), block, 56,
                  0x8D25BD94, 0x909CC059, 0x308B8799, 0x0DF9857A, 0x1273C622, 0x6F2A444A, 0x02524F02, 0x2D864D9F)
  {
    hide W, After;
    ShortRounds48(block);
    AbcWords48(block);
    Round4(Initial(true), block, 48,
           0x847EA00E, 0xFB3777D9, 0x131D4C09, 0xA3701BD9, 0x503A7B95, 0x1D601F44, 0xECB77E1B, 0xAF1BEF5F,
           0x19A4C116, 0x1E376C08, 0x2748774C, 0x34B0BCB5, 0xFB3E89CB, 0xCC7617DB, 0xB9E66C34, 0xA9993667,
           0xAAA69347, 0x505CAF28, 0x675E0B02, 0xABD26099, 0x5EEB9930, 0xCE695893, 0xC22DD75F, 0x1409C3F8);
    Round4(Initial(true), block, 52,
           0xABD26099, 0x675E0B02, 0x505CAF28, 0xAAA69347, 0x1409C3F8, 0xC22DD75F, 0xCE695893, 0x5EEB9930,
           0x391C0CB3, 0x4ED8AA4A, 0x5B9CCA4F, 0x682E6FF3, 0x84BADEDD, 0xC21462BC, 0x1487472C, 0xB20F7A99,
           0x0DF9857A, 0x308B8799, 0x909CC059, 0x8D25BD94, 0x2D864D9F, 0x02524F02, 0x6F2A444A, 0x1273C622);
  }

  lemma ShortRounds64(block: seq<Byte>)
    requires AbcBlock(block)
    ensures After(Initial(true), block, 64,
                  0x6203DE4A, 0xFD89031B, 0x55D1C760, 0xC693FC7A, 0x2AEDB1B3, 0x55489EE6, 0x7E730E00, 0x13DFB889)
  {
    hide W, After;
    ShortRounds56(block);
    AbcWords56(block);
    Round4(Initial(true), block, 56,
           0x8D25BD94, 0x909CC059, 0x308B8799, 0x0DF9857A, 0x1273C622, 0x6F2A444A, 0x02524F02, 0x2D864D9F,
           0x748F82EE, 0x78A5636F, 0x84C87814, 0x8CC70208, 0xEF57B9CD, 0xEBE6B238, 0x9FE3095E, 0x78BC8D4B,
           0xF32141DA, 0x8CE24395, 0x07BCD846, 0x622D5E5B, 0x1771ED3F, 0xF52F66A6, 0x149DB547, 0xB6F4C630);
    Round4(Initial(true), block, 60,
           0x622D5E5B, 0x07BCD846, 0x8CE24395, 0xF32141DA, 0xB6F4C630, 0x149DB547, 0xF52F66A6, 0x1771ED3F,
           0x90BEFFFA, 0xA4506CEB, 0xBEF9A3F7, 0xC67178F2, 0xA43FCF15, 0x668B2FF8, 0xEEABA2CC, 0x12B1EDEB,
           0xC693FC7A, 0x55D1C760, 0xFD89031B, 0x6203DE4A, 0x13DFB889, 0x7E730E00, 0x55489EE6, 0x2AEDB1B3);
  }

  // ---------- the digests ----------

  lemma AbcLength()
    ensures Length64(24) == [0, 0, 0, 0, 0, 0, 0, 0x18]
  {
    hide ByteOf;
    LowBytes();
  }

  lemma LowBytes()
    ensures ByteOf(0, 0, 0, 0) == [0, 0, 0, 0] && ByteOf(0, 0, 0, 24) == [0, 0, 0, 0x18]
  {
  }

  lemma AbcBytes(i: nat)
    requires i < 64
    ensures |Pad(ABC)| == 64
    ensures Pad(ABC)[i] == if i < 3 then ABC[i] else if i == 3 then 0x80 else if i == 63 then 0x18 else 0
  {
    hide Length64;
    AbcLength();
    assert Pad(ABC) == ABC + [0x80] + seq(52, _ => 0) + Length64(24);
  }

  lemma AbcWord(t: nat)
    requires t < 16
    ensures |Pad(ABC)| == 64 && W(Pad(ABC), t) == if t == 0 then 0x61626380 else if t == 15 then 0x18 else 0
  {
    hide Pad, Join;
    AbcBytes(4 * t);
    AbcBytes(4 * t + 1);
    AbcBytes(4 * t + 2);
    AbcBytes(4 * t + 3);
    Joined();
  }

  lemma Joined()
    ensures Join(0x61, 0x62, 0x63, 0x80) == 0x61626380 && Join(0, 0, 0, 0x18) == 0x18 && Join(0, 0, 0, 0) == 0
  {
  }

  lemma AbcPadded()
    ensures AbcBlock(Pad(ABC))
  {
    hide Pad, W;
    forall t | 0 <= t < 16
      ensures |Pad(ABC)| == 64 && W(Pad(ABC), t) == if t == 0 then 0x61626380 else if t == 15 then 0x18 else 0
    {
      AbcWord(t);
    }
    assert |Pad(ABC)| == 64 by { AbcWord(0); }
  }

  lemma Bytes2(a: Word, b: Word, ws: seq<Word>)
    ensures Bytes([a, b] + ws) == Split(a) + Split(b) + Bytes(ws)
  {
    hide Split;
    assert ([a, b] + ws)[1..] == [b] + ws && ([b] + ws)[1..] == ws;
    Joins(Split(a), Split(b), Bytes(ws));
  }

  lemma Joins(x: seq<Byte>, y: seq<Byte>, z: seq<Byte>)
    ensures x + (y + z) == x + y + z
  {
  }

  lemma Bytes6(a: Word, b: Word, c: Word, d: Word, e: Word, f: Word, ws: seq<Word>)
    ensures Bytes([a, b, c, d, e, f] + ws) == (Split(a) + Split(b)) + (Split(c) + Split(d)) + (Split(e) + Split(f)) + Bytes(ws)
  {
    var ef, cd := [e, f] + ws, [c, d] + ([e, f] + ws);
    Bytes2(e, f, ws);
    Bytes2(c, d, ef);
    Bytes2(a, b, cd);
    assert [a, b, c, d, e, f] + ws == [a, b] + cd;
    hide Split, Bytes;
    Joins(Split(c) + Split(d), Split(e) + Split(f), Bytes(ws));
    Joins(Split(a) + Split(b), Split(c) + Split(d), (Split(e) + Split(f)) + Bytes(ws));
    Joins((Split(a) + Split(b)) + (Split(c) + Split(d)), Split(e) + Split(f), Bytes(ws));
  }

  lemma LastBytes(g: Word, h: Word)
    ensures Bytes([g]) == Split(g) && Bytes([g, h]) == Split(g) + Split(h)
  {
    hide Split;
    assert [g][1..] == [] && [g, h][1..] == [h] && [h][1..] == [];
  }

  /** The digest is the bytes of the hash value, without those of its last word for SHA-224. */
  lemma DigestIs(is224: bool, a: Word, b: Word, c: Word, d: Word, e: Word, f: Word, g: Word, h: Word)
    requires |Pad(ABC)| == 64 && Hash(Initial(is224), Pad(ABC)) == [a, b, c, d, e, f, g, h]
    ensures Digest(ABC, is224) == (Split(a) + Split(b)) + (Split(c) + Split(d)) + (Split(e) + Split(f))
                                + if is224 then Split(g) else Split(g) + Split(h)
  {
    hide Split, Bytes, Hash, Initial, Pad;
    var last := if is224 then [g] else [g, h];
    assert (if is224 then [a, b, c, d, e, f, g, h][..7] else [a, b, c, d, e, f, g, h]) == [a, b, c, d, e, f] + last;
    Bytes6(a, b, c, d, e, f, last);
    LastBytes(g, h);
  }

  lemma FullHash(block: seq<Byte>)
    requires AbcBlock(block)
    ensures |block| == 64
    ensures Compress(Initial(false), block) == [
      0xBA7816BF, 0x8F01CFEA, 0x414140DE, 0x5DAE2223, 0xB00361A3, 0x96177A9C, 0xB410FF61, 0xF20015AD]
  {
    hide W, Rounds;
    FullRounds64(block);
  }

  lemma FullSplit()
    ensures Split(0xBA7816BF) + Split(0x8F01CFEA) == [0xBA, 0x78, 0x16, 0xBF, 0x8F, 0x01, 0xCF, 0xEA]
    ensures Split(0x414140DE) + Split(0x5DAE2223) == [0x41, 0x41, 0x40, 0xDE, 0x5D, 0xAE, 0x22, 0x23]
    ensures Split(0xB00361A3) + Split(0x96177A9C) == [0xB0, 0x03, 0x61, 0xA3, 0x96, 0x17, 0x7A, 0x9C]
    ensures Split(0xB410FF61) + Split(0xF20015AD) == [0xB4, 0x10, 0xFF, 0x61, 0xF2, 0x00, 0x15, 0xAD]
  {
  }

  /** The digest of "abc" in the SHA-256 example. */
  lemma Abc256()
    ensures Digest([0x61, 0x62, 0x63], false) ==
         [0xBA, 0x78, 0x16, 0xBF, 0x8F, 0x01, 0xCF, 0xEA]
       + [0x41, 0x41, 0x40, 0xDE, 0x5D, 0xAE, 0x22, 0x23]
       + [0xB0, 0x03, 0x61, 0xA3, 0x96, 0x17, 0x7A, 0x9C]
       + [0xB4, 0x10, 0xFF, 0x61, 0xF2, 0x00, 0x15, 0xAD]
  {
    hide Compress, Hash, Split, Digest, Initial, Pad;
    AbcPadded();
    FullHash(Pad(ABC));
    OneBlock(Initial(false), Pad(ABC));
    DigestIs(false, 0xBA7816BF, 0x8F01CFEA, 0x414140DE, 0x5DAE2223, 0xB00361A3, 0x96177A9C, 0xB410FF61, 0xF20015AD);
    FullSplit();
  }

  lemma ShortHash(block: seq<Byte>)
    requires AbcBlock(block)
    ensures |block| == 64
    ensures Compress(Initial(true), block) == [
      0x23097D22, 0x3405D822, 0x8642A477, 0xBDA255B3, 0x2AADBCE4, 0xBDA0B3F7, 0xE36C9DA7, 0xD2DA082D]
  {
    hide W, Rounds;
    ShortRounds64(block);
  }

  lemma ShortSplit()
    ensures Split(0x23097D22) + Split(0x3405D822) == [0x23, 0x09, 0x7D, 0x22, 0x34, 0x05, 0xD8, 0x22]
    ensures Split(0x8642A477) + Split(0xBDA255B3) == [0x86, 0x42, 0xA4, 0x77, 0xBD, 0xA2, 0x55, 0xB3]
    ensures Split(0x2AADBCE4) + Split(0xBDA0B3F7) == [0x2A, 0xAD, 0xBC, 0xE4, 0xBD, 0xA0, 0xB3, 0xF7]
    ensures Split(0xE36C9DA7) == [0xE3, 0x6C, 0x9D, 0xA7]
  {
  }

  /** The digest of "abc" in the SHA-224 example. */
  lemma Abc224()
    ensures Digest([0x61, 0x62, 0x63], true) ==
         [0x23, 0x09, 0x7D, 0x22, 0x34, 0x05, 0xD8, 0x22]
       + [0x86, 0x42, 0xA4, 0x77, 0xBD, 0xA2, 0x55, 0xB3]
       + [0x2A, 0xAD, 0xBC, 0xE4, 0xBD, 0xA0, 0xB3, 0xF7]
       + [0xE3, 0x6C, 0x9D, 0xA7]
  {
    hide Compress, Hash, Split, Digest, Initial, Pad;
    AbcPadded();
    ShortHash(Pad(ABC));
    OneBlock(Initial(true), Pad(ABC));
    DigestIs(true, 0x23097D22, 0x3405D822, 0x8642A477, 0xBDA255B3, 0x2AADBCE4, 0xBDA0B3F7, 0xE36C9DA7, 0xD2DA082D);
    ShortSplit();
  }
}
