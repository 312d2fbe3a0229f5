/**
 The hash context of src/sup/sha256.c.  Its `uint32` is `unsigned long int`, so on the 64-bit
 targets Dowse runs on every word is 64 bits wide and nothing clears the upper halves.
 */
module ShaContext {
  import opened Fips180
  import opened Wrappers

  // ---- wide words ------------------------------------------------------------

  /** The 32-bit word that a wide word stands for. */
  function Lo(x: bv64): bv32 { (x & 0xFFFF_FFFF) as bv32 }

  function Low(a: bv64, b: bv64, c: bv64, d: bv64, e: bv64, f: bv64, g: bv64, h: bv64): Regs {
    Regs(Lo(a), Lo(b), Lo(c), Lo(d), Lo(e), Lo(f), Lo(g), Lo(h))
  }

  function Plus64(x: bv64, y: bv64): bv64 { x + y }
  function Xor64(x: bv64, y: bv64): bv64 { x ^ y }

  // The macros SHR, ROTR, S0 to S3, F0, F1 and GET_UINT32.
  function Shr64(x: bv64, n: bv6): bv64 { (x & 0xFFFF_FFFF) >> n }
  function Rotr64(x: bv64, n: bv6): bv64 requires 0 < n < 32 { Shr64(x, n) | (x << (32 - n)) }
  function S0(x: bv64): bv64 { Xor64(Xor64(Rotr64(x, 7), Rotr64(x, 18)), Shr64(x, 3)) }
  function S1(x: bv64): bv64 { Xor64(Xor64(Rotr64(x, 17), Rotr64(x, 19)), Shr64(x, 10)) }
  function S2(x: bv64): bv64 { Xor64(Xor64(Rotr64(x, 2), Rotr64(x, 13)), Rotr64(x, 22)) }
  function S3(x: bv64): bv64 { Xor64(Xor64(Rotr64(x, 6), Rotr64(x, 11)), Rotr64(x, 25)) }
  function F0(x: bv64, y: bv64, z: bv64): bv64 { (x & y) | (z & (x | y)) }
  function F1(x: bv64, y: bv64, z: bv64): bv64 { z ^ (x & (y ^ z)) }
  function GetUint32(b0: Byte, b1: Byte, b2: Byte, b3: Byte): bv64 {
    ((b0.bits as bv64) << 24) | ((b1.bits as bv64) << 16) | ((b2.bits as bv64) << 8) | (b3.bits as bv64)
  }
  function PutByte(x: bv64, n: bv6): Byte requires n < 32 { Byte(((x >> n) & 0xFF) as bv8) }
  function PutUint32(x: bv64): seq<Byte> { [PutByte(x, 24), PutByte(x, 16), PutByte(x, 8), PutByte(x, 0)] }

  // ---- each wide operation computes the narrow one in its low half -------------

  lemma RawAdd(x: bv64, y: bv64)
    ensures ((x + y) & 0xFFFF_FFFF) as bv32 == (x & 0xFFFF_FFFF) as bv32 + (y & 0xFFFF_FFFF) as bv32
  {}

  lemma RawAddOf(x: bv64, y: bv64, a: bv32, b: bv32)
    requires a == (x & 0xFFFF_FFFF) as bv32 && b == (y & 0xFFFF_FFFF) as bv32
    ensures ((x + y) & 0xFFFF_FFFF) as bv32 == a + b
  {
    RawAdd(x, y);
  }

  lemma LoAdd(x: bv64, y: bv64)
    ensures Lo(x + y) == Lo(x) + Lo(y)
  {
    RawAddOf(x, y, Lo(x), Lo(y));
  }

  lemma LoPlus(x: bv64, y: bv64)
    ensures Lo(Plus64(x, y)) == Plus(Lo(x), Lo(y))
  {
    hide Lo;
    LoAdd(x, y);
  }

  lemma LoWide(k: bv32)
    ensures Lo(k as bv64) == k
  {}

  lemma LoXor(x: bv64, y: bv64)
    ensures Lo(Xor64(x, y)) == Xor(Lo(x), Lo(y))
  {}

  lemma LoXor3(x: bv64, y: bv64, z: bv64)
    ensures Lo(Xor64(Xor64(x, y), z)) == Xor(Xor(Lo(x), Lo(y)), Lo(z))
  {
    hide *;
    LoXor(x, y);
    LoXor(Xor64(x, y), z);
  }

  lemma LoShr(x: bv64, n: bv6)
    requires n < 32
    ensures Lo(Shr64(x, n)) == Shr(Lo(x), n)
  {}

  lemma LoRotr(x: bv64, n: bv6)
    requires 0 < n < 32
    ensures Lo(Rotr64(x, n)) == Rotr(Lo(x), n)
  {}

  lemma LoS0(x: bv64)
    ensures Lo(S0(x)) == SmallSigma0(Lo(x))
  {
    hide Lo, Shr64, Rotr64, Rotr, Shr, Xor, Xor64;
    LoRotr(x, 7);
    LoRotr(x, 18);
    LoShr(x, 3);
    LoXor3(Rotr64(x, 7), Rotr64(x, 18), Shr64(x, 3));
  }

  lemma LoS1(x: bv64)
    ensures Lo(S1(x)) == SmallSigma1(Lo(x))
  {
    hide Lo, Shr64, Rotr64, Rotr, Shr, Xor, Xor64;
    LoRotr(x, 17);
    LoRotr(x, 19);
    LoShr(x, 10);
    LoXor3(Rotr64(x, 17), Rotr64(x, 19), Shr64(x, 10));
  }

  lemma LoS2(x: bv64)
    ensures Lo(S2(x)) == BigSigma0(Lo(x))
  {
    hide Lo, Shr64, Rotr64, Rotr, Shr, Xor, Xor64;
    LoRotr(x, 2);
    LoRotr(x, 13);
    LoRotr(x, 22);
    LoXor3(Rotr64(x, 2), Rotr64(x, 13), Rotr64(x, 22));
  }

  lemma LoS3(x: bv64)
    ensures Lo(S3(x)) == BigSigma1(Lo(x))
  {
    hide Lo, Shr64, Rotr64, Rotr, Shr, Xor, Xor64;
    LoRotr(x, 6);
    LoRotr(x, 11);
    LoRotr(x, 25);
    LoXor3(Rotr64(x, 6), Rotr64(x, 11), Rotr64(x, 25));
  }

  lemma LoF0(x: bv64, y: bv64, z: bv64)
    ensures Lo(F0(x, y, z)) == Maj(Lo(x), Lo(y), Lo(z))
  {}

  lemma LoF1(x: bv64, y: bv64, z: bv64)
    ensures Lo(F1(x, y, z)) == Ch(Lo(x), Lo(y), Lo(z))
  {}

  lemma LoGetUint32(b0: Byte, b1: Byte, b2: Byte, b3: Byte)
    ensures Lo(GetUint32(b0, b1, b2, b3)) == WordOf(b0, b1, b2, b3)
  {}

  lemma LoPutByte(x: bv64, n: bv6)
    requires n <= 24
    ensures PutByte(x, n) == ByteAt(Lo(x), n)
  {}

  lemma LoPutUint32(x: bv64)
    ensures PutUint32(x) == WordBytes(Lo(x))
  {
    hide PutByte, ByteAt, Lo;
    LoPutByte(x, 24);
    LoPutByte(x, 16);
    LoPutByte(x, 8);
    LoPutByte(x, 0);
  }

  // ---- the compression function ------------------------------------------------

  ghost predicate Scheduled(W: seq<bv64>, m: seq<Byte>)
    requires |m| == 64
  {
    forall i :: 0 <= i < |W| ==> Lo(W[i]) == Schedule(m, i)
  }

  /** GET_UINT32( W[t], data, i ). */
  method GetWord(W: seq<bv64>, data: seq<Byte>, i: nat) returns (W': seq<bv64>)
    requires |data| == 64 && |W| < 16 && i == 4 * |W| && Scheduled(W, data)
    ensures |W'| == |W| + 1 && Scheduled(W', data)
  {
    LoGetUint32(data[i], data[i + 1], data[i + 2], data[i + 3]);
    hide Lo, GetUint32, WordOf;
    W' := W + [GetUint32(data[i], data[i + 1], data[i + 2], data[i + 3])];
  }

  /** The sixteen loads that open sha256_process. */
  method LoadWords(data: seq<Byte>) returns (W: seq<bv64>)
    requires |data| == 64
    ensures |W| == 16 && Scheduled(W, data)
  {
    W := GetWord([], data, 0);
    W := GetWord(W, data, 4);
    W := GetWord(W, data, 8);
    W := GetWord(W, data, 12);
    W := GetWord(W, data, 16);
    W := GetWord(W, data, 20);
    W := GetWord(W, data, 24);
    W := GetWord(W, data, 28);
    W := GetWord(W, data, 32);
    W := GetWord(W, data, 36);
    W := GetWord(W, data, 40);
    W := GetWord(W, data, 44);
    W := GetWord(W, data, 48);
    W := GetWord(W, data, 52);
    W := GetWord(W, data, 56);
    W := GetWord(W, data, 60);
  }

  /** The macro R(t), which extends the schedule just before round t needs it. */
  method R(W: seq<bv64>, ghost m: seq<Byte>) returns (W': seq<bv64>)
    requires |m| == 64 && 16 <= |W| < 64 && Scheduled(W, m)
    ensures |W'| == |W| + 1 && Scheduled(W', m) && Lo(W'[|W|]) == Schedule(m, |W|)
  {
    hide Lo, S0, S1, SmallSigma0, SmallSigma1, Word, Plus, Plus64;
    var t := |W|;
    var sum2 := Plus64(S1(W[t - 2]), W[t - 7]);
    var sum3 := Plus64(sum2, S0(W[t - 15]));
    var x := Plus64(sum3, W[t - 16]);
    LoS1(W[t - 2]);
    LoS0(W[t - 15]);
    LoPlus(S1(W[t - 2]), W[t - 7]);
    LoPlus(sum2, S0(W[t - 15]));
    LoPlus(sum3, W[t - 16]);
    assert Lo(x) == Schedule(m, t);
    W' := W + [x];
  }

  /**
   The macro P.  It overwrites only d and h; read with the roles shifted by one register, the
   result is the next round of FIPS 180-2.
   */
  method P(a: bv64, b: bv64, c: bv64, d: bv64, e: bv64, f: bv64, g: bv64, h: bv64, x: bv64, k: bv32,
           ghost s: Regs, ghost m: seq<Byte>, ghost t: nat) returns (d': bv64, h': bv64)
    requires |m| == 64 && t < 64
    requires Low(a, b, c, d, e, f, g, h) == Rounds(s, m, t)
    requires Lo(x) == Schedule(m, t) && k == K(t)
    ensures Low(h', a, b, c, d', e, f, g) == Rounds(s, m, t + 1)
  {
    hide Lo, S2, S3, F0, F1, BigSigma0, BigSigma1, Ch, Maj, K, Schedule, Plus, Plus64;
    var sum2 := Plus64(h, S3(e));
    var sum3 := Plus64(sum2, F1(e, f, g));
    var sum4 := Plus64(sum3, k as bv64);
    var temp1 := Plus64(sum4, x);
    var temp2 := Plus64(S2(a), F0(a, b, c));
    d' := Plus64(d, temp1);
    h' := Plus64(temp1, temp2);
    LoS3(e);
    LoF1(e, f, g);
    LoS2(a);
    LoF0(a, b, c);
    LoWide(k);
    LoPlus(h, S3(e));
    LoPlus(sum2, F1(e, f, g));
    LoPlus(sum3, k as bv64);
    LoPlus(sum4, x);
    LoPlus(S2(a), F0(a, b, c));
    LoPlus(d, temp1);
    LoPlus(temp1, temp2);
  }

  lemma FirstWords(W: seq<bv64>, m: seq<Byte>)
    requires |m| == 64 && |W| == 16 && Scheduled(W, m)
    ensures forall i :: 0 <= i < 16 ==> Lo(W[i]) == Schedule(m, i)
  {
    hide Lo, Schedule;
  }

  /** Rounds 0 to 15 of sha256_process. */
  method Rounds0To15(a: bv64, b: bv64, c: bv64, d: bv64, e: bv64, f: bv64, g: bv64, h: bv64, w: seq<bv64>,
                       ghost s: Regs, ghost data: seq<Byte>)
    returns (A: bv64, B: bv64, C: bv64, D: bv64, E: bv64, F: bv64, G: bv64, H: bv64, W: seq<bv64>)
    requires |data| == 64 && |w| == 16 && Scheduled(w, data)
    requires Low(a, b, c, d, e, f, g, h) == Rounds(s, data, 0)
    ensures |W| == 16 && Scheduled(W, data)
    ensures Low(A, B, C, D, E, F, G, H) == Rounds(s, data, 16)
  {
    hide *;
    FirstWords(w, data);
    RoundConstants0();
    RoundConstants1();
    A, B, C, D, E, F, G, H, W := a, b, c, d, e, f, g, h, w;
    D, H := P(A, B, C, D, E, F, G, H, W[0], 0x428A2F98, s, data, 0);
    C, G := P(H, A, B, C, D, E, F, G, W[1], 0x71374491, s, data, 1);
    B, F := P(G, H, A, B, C, D, E, F, W[2], 0xB5C0FBCF, s, data, 2);
    A, E := P(F, G, H, A, B, C, D, E, W[3], 0xE9B5DBA5, s, data, 3);
    H, D := P(E, F, G, H, A, B, C, D, W[4], 0x3956C25B, s, data, 4);
    G, C := P(D, E, F, G, H, A, B, C, W[5], 0x59F111F1, s, data, 5);
    F, B := P(C, D, E, F, G, H, A, B, W[6], 0x923F82A4, s, data, 6);
    E, A := P(B, C, D, E, F, G, H, A, W[7], 0xAB1C5ED5, s, data, 7);
    D, H := P(A, B, C, D, E, F, G, H, W[8], 0xD807AA98, s, data, 8);
    C, G := P(H, A, B, C, D, E, F, G, W[9], 0x12835B01, s, data, 9);
    B, F := P(G, H, A, B, C, D, E, F, W[10], 0x243185BE, s, data, 10);
    A, E := P(F, G, H, A, B, C, D, E, W[11], 0x550C7DC3, s, data, 11);
    H, D := P(E, F, G, H, A, B, C, D, W[12], 0x72BE5D74, s, data, 12);
    G, C := P(D, E, F, G, H, A, B, C, W[13], 0x80DEB1FE, s, data, 13);
    F, B := P(C, D, E, F, G, H, A, B, W[14], 0x9BDC06A7, s, data, 14);
    E, A := P(B, C, D, E, F, G, H, A, W[15], 0xC19BF174, s, data, 15);
  }

  /** Rounds 16 to 31 of sha256_process. */
  method Rounds16To31(a: bv64, b: bv64, c: bv64, d: bv64, e: bv64, f: bv64, g: bv64, h: bv64, w: seq<bv64>,
                       ghost s: Regs, ghost data: seq<Byte>)
    returns (A: bv64, B: bv64, C: bv64, D: bv64, E: bv64, F: bv64, G: bv64, H: bv64, W: seq<bv64>)
    requires |data| == 64 && |w| == 16 && Scheduled(w, data)
    requires Low(a, b, c, d, e, f, g, h) == Rounds(s, data, 16)
    ensures |W| == 32 && Scheduled(W, data)
    ensures Low(A, B, C, D, E, F, G, H) == Rounds(s, data, 32)
  {
    hide *;
    RoundConstants2();
    RoundConstants3();
    A, B, C, D, E, F, G, H, W := a, b, c, d, e, f, g, h, w;
    W := R(W, data);
    D, H := P(A, B, C, D, E, F, G, H, W[16], 0xE49B69C1, s, data, 16);
    W := R(W, data);
    C, G := P(H, A, B, C, D, E, F, G, W[17], 0xEFBE4786, s, data, 17);
    W := R(W, data);
    B, F := P(G, H, A, B, C, D, E, F, W[18], 0x0FC19DC6, s, data, 18);
    W := R(W, data);
    A, E := P(F, G, H, A, B, C, D, E, W[19], 0x240CA1CC, s, data, 19);
    W := R(W, data);
    H, D := P(E, F, G, H, A, B, C, D, W[20], 0x2DE92C6F, s, data, 20);
    W := R(W, data);
    G, C := P(D, E, F, G, H, A, B, C, W[21], 0x4A7484AA, s, data, 21);
    W := R(W, data);
    F, B := P(C, D, E, F, G, H, A, B, W[22], 0x5CB0A9DC, s, data, 22);
    W := R(W, data);
    E, A := P(B, C, D, E, F, G, H, A, W[23], 0x76F988DA, s, data, 23);
    W := R(W, data);
    D, H := P(A, B, C, D, E, F, G, H, W[24], 0x983E5152, s, data, 24);
    W := R(W, data);
    C, G := P(H, A, B, C, D, E, F, G, W[25], 0xA831C66D, s, data, 25);
    W := R(W, data);
    B, F := P(G, H, A, B, C, D, E, F, W[26], 0xB00327C8, s, data, 26);
    W := R(W, data);
    A, E := P(F, G, H, A, B, C, D, E, W[27], 0xBF597FC7, s, data, 27);
    W := R(W, data);
    H, D := P(E, F, G, H, A, B, C, D, W[28], 0xC6E00BF3, s, data, 28);
    W := R(W, data);
    G, C := P(D, E, F, G, H, A, B, C, W[29], 0xD5A79147, s, data, 29);
    W := R(W, data);
    F, B := P(C, D, E, F, G, H, A, B, W[30], 0x06CA6351, s, data, 30);
    W := R(W, data);
    E, A := P(B, C, D, E, F, G, H, A, W[31], 0x14292967, s, data, 31);
  }

  /** Rounds 32 to 47 of sha256_process. */
  method Rounds32To47(a: bv64, b: bv64, c: bv64, d: bv64, e: bv64, f: bv64, g: bv64, h: bv64, w: seq<bv64>,
                       ghost s: Regs, ghost data: seq<Byte>)
    returns (A: bv64, B: bv64, C: bv64, D: bv64, E: bv64, F: bv64, G: bv64, H: bv64, W: seq<bv64>)
    requires |data| == 64 && |w| == 32 && Scheduled(w, data)
    requires Low(a, b, c, d, e, f, g, h) == Rounds(s, data, 32)
    ensures |W| == 48 && Scheduled(W, data)
    ensures Low(A, B, C, D, E, F, G, H) == Rounds(s, data, 48)
  {
    hide *;
    RoundConstants4();
    RoundConstants5();
    A, B, C, D, E, F, G, H, W := a, b, c, d, e, f, g, h, w;
    W := R(W, data);
    D, H := P(A, B, C, D, E, F, G, H, W[32], 0x27B70A85, s, data, 32);
    W := R(W, data);
    C, G := P(H, A, B, C, D, E, F, G, W[33], 0x2E1B2138, s, data, 33);
    W := R(W, data);
    B, F := P(G, H, A, B, C, D, E, F, W[34], 0x4D2C6DFC, s, data, 34);
    W := R(W, data);
    A, E := P(F, G, H, A, B, C, D, E, W[35], 0x53380D13, s, data, 35);
    W := R(W, data);
    H, D := P(E, F, G, H, A, B, C, D, W[36], 0x650A7354, s, data, 36);
    W := R(W, data);
    G, C := P(D, E, F, G, H, A, B, C, W[37], 0x766A0ABB, s, data, 37);
    W := R(W, data);
    F, B := P(C, D, E, F, G, H, A, B, W[38], 0x81C2C92E, s, data, 38);
    W := R(W, data);
    E, A := P(B, C, D, E, F, G, H, A, W[39], 0x92722C85, s, data, 39);
    W := R(W, data);
    D, H := P(A, B, C, D, E, F, G, H, W[40], 0xA2BFE8A1, s, data, 40);
    W := R(W, data);
    C, G := P(H, A, B, C, D, E, F, G, W[41], 0xA81A664B, s, data, 41);
    W := R(W, data);
    B, F := P(G, H, A, B, C, D, E, F, W[42], 0xC24B8B70, s, data, 42);
    W := R(W, data);
    A, E := P(F, G, H, A, B, C, D, E, W[43], 0xC76C51A3, s, data, 43);
    W := R(W, data);
    H, D := P(E, F, G, H, A, B, C, D, W[44], 0xD192E819, s, data, 44);
    W := R(W, data);
    G, C := P(D, E, F, G, H, A, B, C, W[45], 0xD6990624, s, data, 45);
    W := R(W, data);
    F, B := P(C, D, E, F, G, H, A, B, W[46], 0xF40E3585, s, data, 46);
    W := R(W, data);
    E, A := P(B, C, D, E, F, G, H, A, W[47], 0x106AA070, s, data, 47);
  }

  /** Rounds 48 to 63 of sha256_process. */
  method Rounds48To63(a: bv64, b: bv64, c: bv64, d: bv64, e: bv64, f: bv64, g: bv64, h: bv64, w: seq<bv64>,
                       ghost s: Regs, ghost data: seq<Byte>)
    returns (A: bv64, B: bv64, C: bv64, D: bv64, E: bv64, F: bv64, G: bv64, H: bv64, W: seq<bv64>)
    requires |data| == 64 && |w| == 48 && Scheduled(w, data)
    requires Low(a, b, c, d, e, f, g, h) == Rounds(s, data, 48)
    ensures |W| == 64 && Scheduled(W, data)
    ensures Low(A, B, C, D, E, F, G, H) == Rounds(s, data, 64)
  {
    hide *;
    RoundConstants6();
    RoundConstants7();
    A, B, C, D, E, F, G, H, W := a, b, c, d, e, f, g, h, w;
    W := R(W, data);
    D, H := P(A, B, C, D, E, F, G, H, W[48], 0x19A4C116, s, data, 48);
    W := R(W, data);
    C, G := P(H, A, B, C, D, E, F, G, W[49], 0x1E376C08, s, data, 49);
    W := R(W, data);
    B, F := P(G, H, A, B, C, D, E, F, W[50], 0x2748774C, s, data, 50);
    W := R(W, data);
    A, E := P(F, G, H, A, B, C, D, E, W[51], 0x34B0BCB5, s, data, 51);
    W := R(W, data);
    H, D := P(E, F, G, H, A, B, C, D, W[52], 0x391C0CB3, s, data, 52);
    W := R(W, data);
    G, C := P(D, E, F, G, H, A, B, C, W[53], 0x4ED8AA4A, s, data, 53);
    W := R(W, data);
    F, B := P(C, D, E, F, G, H, A, B, W[54], 0x5B9CCA4F, s, data, 54);
    W := R(W, data);
    E, A := P(B, C, D, E, F, G, H, A, W[55], 0x682E6FF3, s, data, 55);
    W := R(W, data);
    D, H := P(A, B, C, D, E, F, G, H, W[56], 0x748F82EE, s, data, 56);
    W := R(W, data);
    C, G := P(H, A, B, C, D, E, F, G, W[57], 0x78A5636F, s, data, 57);
    W := R(W, data);
    B, F := P(G, H, A, B, C, D, E, F, W[58], 0x84C87814, s, data, 58);
    W := R(W, data);
    A, E := P(F, G, H, A, B, C, D, E, W[59], 0x8CC70208, s, data, 59);
    W := R(W, data);
    H, D := P(E, F, G, H, A, B, C, D, W[60], 0x90BEFFFA, s, data, 60);
    W := R(W, data);
    G, C := P(D, E, F, G, H, A, B, C, W[61], 0xA4506CEB, s, data, 61);
    W := R(W, data);
    F, B := P(C, D, E, F, G, H, A, B, W[62], 0xBEF9A3F7, s, data, 62);
    W := R(W, data);
    E, A := P(B, C, D, E, F, G, H, A, W[63], 0xC67178F2, s, data, 63);
  }

  lemma RoundsStart(s: Regs, m: seq<Byte>)
    requires |m| == 64
    ensures Rounds(s, m, 0) == s
  {}

  // ---- the context ---------------------------------------------------------------


  /**
   How sha256_update advances its two length words: the sum is cut to 32 bits and at most one
   carry goes into the upper word.  All arithmetic is modulo 2^64.
   */
  function Advance(total0: nat, total1: nat, length: nat): (r: (nat, nat)) {
    var low := ((total0 + length) % 0x1_0000_0000_0000_0000) % 0x1_0000_0000;
    (low, if low < length then (total1 + 1) % 0x1_0000_0000_0000_0000 else total1)
  }

  /** Exactly when the pair still counts every byte. */
  lemma CounterExactIff(total0: nat, total1: nat, length: nat)
    requires total0 < 0x1_0000_0000 && total1 < 0x1_0000_0000_0000_0000 - 1 && length < 0x1_0000_0000_0000_0000
    ensures var (low, high) := Advance(total0, total1, length);
      && low < 0x1_0000_0000
      && (low + 0x1_0000_0000 * high == total0 + 0x1_0000_0000 * total1 + length <==>
          total0 + length < 2 * 0x1_0000_0000)
  {
    assert ((total0 + length) % 0x1_0000_0000_0000_0000) % 0x1_0000_0000 == (total0 + length) % 0x1_0000_0000;
  }

  lemma InitialState()
    ensures Low(0x6A09E667, 0xBB67AE85, 0x3C6EF372, 0xA54FF53A, 0x510E527F, 0x9B05688C, 0x1F83D9AB, 0x5BE0CD19) == IV
  {}

  /** The message words that sha256_finish writes are the length in bits. */
  lemma LengthWords(total0: nat, total1: nat)
    requires total0 < 0x1_0000_0000 && 8 * (total0 + 0x1_0000_0000 * total1) < 0x1_0000_0000_0000_0000
    ensures Msglen(total0, total1) == LengthBytes(8 * (total0 + 0x1_0000_0000 * total1))
  {
    hide ByteOf;
    var bits := 8 * (total0 + 0x1_0000_0000 * total1);
    var high, low := total0 / 0x2000_0000 + 8 * total1, 8 * total0;
    HighWord(total0, total1);
    LowWord(low, total1);
    WideMod(high);
    WideMod(low);
  }

  lemma WideMod(x: nat)
    requires x < 0x1_0000_0000_0000_0000
    ensures x % 0x1_0000_0000_0000_0000 == x
  {}

  lemma HighWord(total0: nat, total1: nat)
    requires total0 < 0x1_0000_0000
    ensures var bits, high := 8 * (total0 + 0x1_0000_0000 * total1), total0 / 0x2000_0000 + 8 * total1;
      && bits / 0x100_0000_0000_0000 == high / 0x100_0000 && bits / 0x1_0000_0000_0000 == high / 0x1_0000
      && bits / 0x100_0000_0000 == high / 0x100 && bits / 0x1_0000_0000 == high
  {
    var bits, high := 8 * (total0 + 0x1_0000_0000 * total1), total0 / 0x2000_0000 + 8 * total1;
    assert bits / 0x1_0000_0000 == high;
  }

  /** The upper length word does not reach the low four bytes. */
  lemma LowWord(low: nat, total1: nat)
    ensures var bits := low + 0x8_0000_0000 * total1;
      && ByteOf(bits / 0x100_0000) == ByteOf(low / 0x100_0000) && ByteOf(bits / 0x1_0000) == ByteOf(low / 0x1_0000)
      && ByteOf(bits / 0x100) == ByteOf(low / 0x100) && ByteOf(bits) == ByteOf(low)
  {
    hide ByteOf;
    ByteOfSplit(low / 0x100_0000, 8 * total1);
    ByteOfSplit(low / 0x1_0000, 0x800 * total1);
    ByteOfSplit(low / 0x100, 0x8_0000 * total1);
    ByteOfSplit(low, 0x800_0000 * total1);
  }

  lemma ByteOfSplit(x: nat, y: nat)
    ensures ByteOf(x + 256 * y) == ByteOf(x)
  {
    assert (x + 256 * y) % 256 == x % 256;
  }

  /** The local variable msglen of sha256_finish, from its words high and low. */
  function Msglen(total0: nat, total1: nat): seq<Byte> {
    var high := (total0 / 0x2000_0000 + 8 * total1) % 0x1_0000_0000_0000_0000;
    var low := (8 * total0) % 0x1_0000_0000_0000_0000;
    [ByteOf(high / 0x100_0000), ByteOf(high / 0x1_0000), ByteOf(high / 0x100), ByteOf(high),
     ByteOf(low / 0x100_0000), ByteOf(low / 0x1_0000), ByteOf(low / 0x100), ByteOf(low)]
  }

  lemma HashOfNothing()
    ensures HashBlocks(IV, []) == IV
  {}

  lemma Remainder(whole: nat, left: nat)
    requires whole % 64 == 0 && left < 64
    ensures (whole + left) % 64 == left
  {}

  lemma Regroup(done: seq<Byte>, input: seq<Byte>, n: nat, kept: seq<Byte>)
    requires n <= |input| && (n == 0 || kept == [])
    ensures done + input[..n] + (kept + input[n..]) == done + kept + input
  {}

  class Context {
    var total0: nat
    var total1: nat
    var state: seq<bv64>
    const buffer: array<Byte>
    /** Every byte hashed since Starts. */
    ghost var message: seq<Byte>

    constructor ()
      ensures buffer.Length == 64 && fresh(buffer)
    {
      state := [0, 0, 0, 0, 0, 0, 0, 0];
      buffer := new Byte[64](_ => Byte(0));
      total0, total1, message := 0, 0, [];
    }

    ghost function Hash(): Regs
      requires |state| == 8
      reads this`state
    {
      Low(state[0], state[1], state[2], state[3], state[4], state[5], state[6], state[7])
    }

    /** The state words are the hash value after the whole blocks of `done`. */
    ghost predicate HashedTo(done: seq<Byte>)
      reads this`state
    {
      |state| == 8 && |done| % 64 == 0 && Hash() == HashBlocks(IV, done)
    }

    ghost predicate Valid()
      reads this, buffer
    {
      && total0 < 0x1_0000_0000 && total0 + 0x1_0000_0000 * total1 == |message|
      && buffer.Length == 64
      && HashedTo(message[..|message| - |message| % 64])
      && buffer[..|message| % 64] == message[|message| - |message| % 64..]
    }

    method Starts()
      requires buffer.Length == 64
      modifies this
      ensures Valid() && message == []
    {
      hide Low, HashBlocks, Valid, IV;
      InitialState();
      HashOfNothing();
      total0, total1 := 0, 0;
      state := [0x6A09E667, 0xBB67AE85, 0x3C6EF372, 0xA54FF53A, 0x510E527F, 0x9B05688C, 0x1F83D9AB, 0x5BE0CD19];
      message := [];
      ValidWhen([], 0);
    }

    method Process(data: seq<Byte>)
      requires |state| == 8 && |data| == 64
      modifies this`state
      ensures |state| == 8 && Hash() == Compress(old(Hash()), data)
    {
      hide Lo, Rounds, Plus, Plus64;
      var A, B, C, D := state[0], state[1], state[2], state[3];
      var E, F, G, H := state[4], state[5], state[6], state[7];
      ghost var s := Hash();
      var W := LoadWords(data);
      RoundsStart(s, data);
      A, B, C, D, E, F, G, H, W := Rounds0To15(A, B, C, D, E, F, G, H, W, s, data);
      A, B, C, D, E, F, G, H, W := Rounds16To31(A, B, C, D, E, F, G, H, W, s, data);
      A, B, C, D, E, F, G, H, W := Rounds32To47(A, B, C, D, E, F, G, H, W, s, data);
      A, B, C, D, E, F, G, H, W := Rounds48To63(A, B, C, D, E, F, G, H, W, s, data);
      LoPlus(state[0], A);
      LoPlus(state[1], B);
      LoPlus(state[2], C);
      LoPlus(state[3], D);
      LoPlus(state[4], E);
      LoPlus(state[5], F);
      LoPlus(state[6], G);
      LoPlus(state[7], H);
      state := [Plus64(state[0], A), Plus64(state[1], B), Plus64(state[2], C), Plus64(state[3], D),
                Plus64(state[4], E), Plus64(state[5], F), Plus64(state[6], G), Plus64(state[7], H)];
    }

    /** memcpy( ctx->buffer + left, data, |data| ). */
    method CopyToBuffer(left: nat, data: seq<Byte>)
      requires left + |data| <= buffer.Length
      modifies buffer
      ensures buffer[..left + |data|] == old(buffer[..left]) + data
    {
      forall i | 0 <= i < |data| {
        buffer[left + i] := data[i];
      }
    }

    /** Hash one whole block. */
    method ProcessNext(block: seq<Byte>, ghost done: seq<Byte>)
      requires HashedTo(done) && |block| == 64
      modifies this`state
      ensures HashedTo(done + block)
    {
      hide Compress, Low, HashBlocks;
      HashBlocksSnoc(IV, done, block);
      Process(block);
    }

    /** The while loop of sha256_update: hash the whole blocks of the input where it lies. */
    method ProcessBlocks(input: seq<Byte>, ghost done: seq<Byte>) returns (rest: seq<Byte>, ghost n: nat)
      requires HashedTo(done)
      modifies this`state
      ensures n <= |input| && rest == input[n..] && |rest| < 64 && (|input| < 64 ==> n == 0)
      ensures HashedTo(done + input[..n])
    {
      hide *;
      rest, n := input, 0;
      assert done + input[..0] == done;
      while |rest| >= 64
        invariant n <= |input| && rest == input[n..] && (|input| < 64 ==> n == 0)
        invariant HashedTo(done + input[..n])
      {
        ProcessNext(rest[..64], done + input[..n]);
        assert done + input[..n] + rest[..64] == done + input[..n + 64];
        rest := rest[64..];
        n := n + 64;
      }
    }

    /** The first branch of sha256_update: when the input fills the buffer, hash the buffer. */
    method TopUp(left0: nat, input: seq<Byte>, ghost done: seq<Byte>)
      returns (left: nat, rest: seq<Byte>, ghost now: seq<Byte>)
      requires buffer.Length == 64 && left0 < 64 && HashedTo(done)
      modifies this`state, buffer
      ensures left < 64 && HashedTo(now) && (left == 0 || |rest| < 64 - left)
      ensures now + buffer[..left] + rest == done + old(buffer[..left0]) + input
    {
      hide *;
      left, rest, now := left0, input, done;
      var fill := 64 - left;
      if left != 0 && |rest| >= fill {
        CopyToBuffer(left, rest[..fill]);
        var block := buffer[..];
        assert block == old(buffer[..left0]) + input[..fill];
        ProcessNext(block, done);
        now := done + block;
        rest := rest[fill..];
        left := 0;
      }
    }

    /** The part of sha256_update that moves bytes: top up the buffer, hash whole blocks, keep the rest. */
    method Absorb(left0: nat, input: seq<Byte>, ghost done: seq<Byte>) returns (ghost now: seq<Byte>, left: nat)
      requires buffer.Length == 64 && left0 < 64 && HashedTo(done)
      modifies this`state, buffer
      ensures left < 64 && HashedTo(now)
      ensures now + buffer[..left] == done + old(buffer[..left0]) + input
    {
      hide *;
      var rest;
      left, rest, now := TopUp(left0, input, done);
      ghost var input', done', kept := rest, now, buffer[..left];
      ghost var n;
      rest, n := ProcessBlocks(rest, now);
      now := done' + input'[..n];
      Regroup(done', input', n, kept);
      if |rest| > 0 {
        CopyToBuffer(left, rest);
      }
      left := left + |rest|;
    }

    method Update(input: seq<Byte>)
      requires Valid()
      requires |input| <= 0x1_0000_0000 || total0 + |input| < 2 * 0x1_0000_0000
      requires |message| + |input| < 0x1_0000_0000_0000_0000
      modifies this, buffer
      ensures Valid() && message == old(message) + input
    {
      hide *;
      if |input| == 0 {
        assert message + input == message;
        return;
      }
      var left := total0 % 64;
      ghost var done := HeldBytes();
      CounterExactIff(total0, total1, |input|);
      var totals := Advance(total0, total1, |input|);
      total0, total1 := totals.0, totals.1;
      message := message + input;
      ghost var now;
      now, left := Absorb(left, input, done);
      ValidWhen(now, left);
    }

    /** What a valid context says about the bytes in its buffer. */
    lemma HeldBytes() returns (done: seq<Byte>)
      requires Valid()
      ensures total0 < 0x1_0000_0000 && total0 + 0x1_0000_0000 * total1 == |message|
      ensures buffer.Length == 64 && HashedTo(done) && message == done + buffer[..total0 % 64]
      ensures total0 % 64 == |message| % 64 && (|message| % 64 == 0 ==> done == message)
    {
      hide HashedTo;
      assert total0 % 64 == |message| % 64;
      done := message[..|message| - |message| % 64];
    }

    /** A context that has hashed `done` and holds the remaining bytes in its buffer is valid. */
    lemma ValidWhen(done: seq<Byte>, left: nat)
      requires total0 < 0x1_0000_0000 && total0 + 0x1_0000_0000 * total1 == |message|
      requires buffer.Length == 64 && left < 64 && message == done + buffer[..left] && HashedTo(done)
      ensures Valid()
    {
      Remainder(|done|, left);
      hide HashedTo;
      assert message[..|message| - left] == done;
    }

    /** Write out the state words, most significant byte first. */
    method PutState() returns (digest: seq<Byte>)
      requires |state| == 8
      ensures digest == DigestBytes(Hash())
    {
      hide PutUint32, WordBytes, Lo;
      LoPutUint32(state[0]);
      LoPutUint32(state[1]);
      LoPutUint32(state[2]);
      LoPutUint32(state[3]);
      LoPutUint32(state[4]);
      LoPutUint32(state[5]);
      LoPutUint32(state[6]);
      LoPutUint32(state[7]);
      digest := PutUint32(state[0]) + PutUint32(state[1]) + PutUint32(state[2]) + PutUint32(state[3]) +
                PutUint32(state[4]) + PutUint32(state[5]) + PutUint32(state[6]) + PutUint32(state[7]);
    }

    /** The two updates with which sha256_finish completes the last block. */
    method AppendPadding()
      requires Valid() && |message| < 0x2000_0000_0000_0000
      modifies this, buffer
      ensures Valid() && message == Pad(old(message))
    {
      hide *;
      ghost var held := HeldBytes();
      LengthWords(total0, total1);
      var last := total0 % 64;
      var padn := if last < 56 then 56 - last else 120 - last;
      PaddingIsPad(message, padn);
      var msglen := Msglen(total0, total1);
      Update(PADDING[..padn]);
      Update(msglen);
    }

    method Finish() returns (digest: seq<Byte>)
      requires Valid() && |message| < 0x2000_0000_0000_0000
      modifies this, buffer
      ensures Valid() && digest == Sha256(old(message))
    {
      hide *;
      PadLength(message);
      Sha256Is(message);
      AppendPadding();
      ghost var held := HeldBytes();
      digest := PutDigest(held);
    }

    method PutDigest(ghost done: seq<Byte>) returns (digest: seq<Byte>)
      requires HashedTo(done)
      ensures digest == DigestBytes(HashBlocks(IV, done))
    {
      hide DigestBytes, HashBlocks, Low;
      digest := PutState();
    }
  }

  lemma Sha256Is(m: seq<Byte>)
    ensures Sha256(m) == DigestBytes(HashBlocks(IV, Pad(m)))
  {
    hide DigestBytes, HashBlocks, Pad;
  }

  /** The static table sha256_padding. */
  const PADDING: seq<Byte> := [Byte(0x80)] + Zeros(63)

  lemma PaddingIsPad(m: seq<Byte>, padn: nat)
    requires padn == if |m| % 64 < 56 then 56 - |m| % 64 else 120 - |m| % 64
    ensures |PADDING| == 64 && |LengthBytes(8 * |m|)| == 8
    ensures m + PADDING[..padn] + LengthBytes(8 * |m|) == Pad(m)
  {
    hide LengthBytes, PadZeros;
    LengthOfLength(8 * |m|);
    PaddingPrefix(|m|, padn);
    assert m + ([Byte(0x80)] + Zeros(PadZeros(|m|))) == m + [Byte(0x80)] + Zeros(PadZeros(|m|));
  }

  lemma PaddingPrefix(n: nat, padn: nat)
    requires padn == if n % 64 < 56 then 56 - n % 64 else 120 - n % 64
    ensures |PADDING| == 64 && padn <= 64 && PADDING[..padn] == [Byte(0x80)] + Zeros(PadZeros(n))
  {
    assert padn == 1 + PadZeros(n);
  }
}
