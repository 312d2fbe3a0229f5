/**
 SHA-256 as sections 4 to 6 of FIPS 180-2 define it, on 32-bit words and whole
 messages.  Nothing here knows about contexts, buffers or chunks.
 */
module Fips180 {
  import opened Wrappers

  /** The eight working variables, and also the eight words of a hash value. */
  datatype Regs = Regs(a: bv32, b: bv32, c: bv32, d: bv32, e: bv32, f: bv32, g: bv32, h: bv32)

  // ---- section 4.1.2: operations on words ----------------------------------

  /** Addition modulo 2^32. */
  function Plus(x: bv32, y: bv32): bv32 { x + y }
  function Xor(x: bv32, y: bv32): bv32 { x ^ y }
  function Shr(x: bv32, n: bv6): bv32 requires n < 32 { x >> n }
  function Rotr(x: bv32, n: bv6): bv32 requires 0 < n < 32 { (x >> n) | (x << (32 - n)) }

  function Ch(x: bv32, y: bv32, z: bv32): bv32 { (x & y) ^ (!x & z) }
  function Maj(x: bv32, y: bv32, z: bv32): bv32 { (x & y) ^ (x & z) ^ (y & z) }
  function BigSigma0(x: bv32): bv32 { Xor(Xor(Rotr(x, 2), Rotr(x, 13)), Rotr(x, 22)) }
  function BigSigma1(x: bv32): bv32 { Xor(Xor(Rotr(x, 6), Rotr(x, 11)), Rotr(x, 25)) }
  function SmallSigma0(x: bv32): bv32 { Xor(Xor(Rotr(x, 7), Rotr(x, 18)), Shr(x, 3)) }
  function SmallSigma1(x: bv32): bv32 { Xor(Xor(Rotr(x, 17), Rotr(x, 19)), Shr(x, 10)) }

  // ---- sections 4.2.2 and 5.3.2: constants ---------------------------------

  function K(t: nat): bv32
    requires t < 64
  {
    if t < 16 then K0(t) else if t < 32 then K1(t - 16) else if t < 48 then K2(t - 32) else K3(t - 48)
  }

  function K0(t: nat): bv32
    requires t < 16
  {
    [0x428A2F98, 0x71374491, 0xB5C0FBCF, 0xE9B5DBA5, 0x3956C25B, 0x59F111F1, 0x923F82A4, 0xAB1C5ED5,
     0xD807AA98, 0x12835B01, 0x243185BE, 0x550C7DC3, 0x72BE5D74, 0x80DEB1FE, 0x9BDC06A7, 0xC19BF174][t]
  }

  function K1(t: nat): bv32
    requires t < 16
  {
    [0xE49B69C1, 0xEFBE4786, 0x0FC19DC6, 0x240CA1CC, 0x2DE92C6F, 0x4A7484AA, 0x5CB0A9DC, 0x76F988DA,
     0x983E5152, 0xA831C66D, 0xB00327C8, 0xBF597FC7, 0xC6E00BF3, 0xD5A79147, 0x06CA6351, 0x14292967][t]
  }

  function K2(t: nat): bv32
    requires t < 16
  {
    [0x27B70A85, 0x2E1B2138, 0x4D2C6DFC, 0x53380D13, 0x650A7354, 0x766A0ABB, 0x81C2C92E, 0x92722C85,
     0xA2BFE8A1, 0xA81A664B, 0xC24B8B70, 0xC76C51A3, 0xD192E819, 0xD6990624, 0xF40E3585, 0x106AA070][t]
  }

  function K3(t: nat): bv32
    requires t < 16
  {
    [0x19A4C116, 0x1E376C08, 0x2748774C, 0x34B0BCB5, 0x391C0CB3, 0x4ED8AA4A, 0x5B9CCA4F, 0x682E6FF3,
     0x748F82EE, 0x78A5636F, 0x84C87814, 0x8CC70208, 0x90BEFFFA, 0xA4506CEB, 0xBEF9A3F7, 0xC67178F2][t]
  }

  const IV := Regs(0x6A09E667, 0xBB67AE85, 0x3C6EF372, 0xA54FF53A, 0x510E527F, 0x9B05688C, 0x1F83D9AB, 0x5BE0CD19)

  // ---- sections 5.2.1 and 6.2: message schedule, rounds, hash value --------

  /** Word t of a 64-byte block, most significant byte first. */
  function Word(m: seq<Byte>, t: nat): bv32
    requires |m| == 64 && t < 16
  {
    WordOf(m[4 * t], m[4 * t + 1], m[4 * t + 2], m[4 * t + 3])
  }

  function WordOf(b0: Byte, b1: Byte, b2: Byte, b3: Byte): bv32 {
    ((b0.bits as bv32) << 24) | ((b1.bits as bv32) << 16) | ((b2.bits as bv32) << 8) | (b3.bits as bv32)
  }

  function Schedule(m: seq<Byte>, t: nat): bv32
    requires |m| == 64
  {
    if t < 16 then Word(m, t)
    else Plus(Plus(Plus(SmallSigma1(Schedule(m, t - 2)), Schedule(m, t - 7)), SmallSigma0(Schedule(m, t - 15))),
              Schedule(m, t - 16))
  }

  function Round(s: Regs, k: bv32, w: bv32): Regs {
    var t1 := Plus(Plus(Plus(Plus(s.h, BigSigma1(s.e)), Ch(s.e, s.f, s.g)), k), w);
    var t2 := Plus(BigSigma0(s.a), Maj(s.a, s.b, s.c));
    Regs(Plus(t1, t2), s.a, s.b, s.c, Plus(s.d, t1), s.e, s.f, s.g)
  }

  function Rounds(s: Regs, m: seq<Byte>, t: nat): Regs
    requires |m| == 64 && t <= 64
  {
    if t == 0 then s else Round(Rounds(s, m, t - 1), K(t - 1), Schedule(m, t - 1))
  }

  function AddRegs(x: Regs, y: Regs): Regs {
    Regs(Plus(x.a, y.a), Plus(x.b, y.b), Plus(x.c, y.c), Plus(x.d, y.d),
         Plus(x.e, y.e), Plus(x.f, y.f), Plus(x.g, y.g), Plus(x.h, y.h))
  }

  function Compress(s: Regs, m: seq<Byte>): Regs
    requires |m| == 64
  {
    AddRegs(s, Rounds(s, m, 64))
  }

  /** The hash value after all the blocks of a message of whole blocks. */
  function HashBlocks(s: Regs, m: seq<Byte>): Regs {
    if |m| < 64 then s else Compress(HashBlocks(s, m[..|m| - 64]), m[|m| - 64..])
  }

  lemma HashBlocksSnoc(s: Regs, m: seq<Byte>, block: seq<Byte>)
    requires |block| == 64
    ensures HashBlocks(s, m + block) == Compress(HashBlocks(s, m), block)
  {
    hide Compress;
    assert (m + block)[..|m + block| - 64] == m;
    assert (m + block)[|m + block| - 64..] == block;
  }

  // ---- section 5.1.1: padding ----------------------------------------------

  function Zeros(n: nat): seq<Byte> { seq(n, _ => Byte(0)) }

  /** The number of zero bytes between the 0x80 byte and the length. */
  function PadZeros(n: nat): nat { (119 - n % 64) % 64 }

  /** It is the smallest solution of l + 1 + k = 448 mod 512, counted in bytes. */
  lemma PadZerosIsLeast(n: nat, k: nat)
    ensures (n + 1 + PadZeros(n)) % 64 == 56
    ensures (n + 1 + k) % 64 == 56 ==> PadZeros(n) <= k
  {
    var q := n / 64;
    assert n == 64 * q + n % 64;
  }

  function ByteOf(n: nat): Byte { Byte((n % 256) as bv8) }

  /** A message length in bits as eight bytes, most significant first. */
  function LengthBytes(bits: nat): seq<Byte> {
    [ByteOf(bits / 0x100_0000_0000_0000), ByteOf(bits / 0x1_0000_0000_0000), ByteOf(bits / 0x100_0000_0000),
     ByteOf(bits / 0x1_0000_0000), ByteOf(bits / 0x100_0000), ByteOf(bits / 0x1_0000), ByteOf(bits / 0x100),
     ByteOf(bits)]
  }

  function Pad(m: seq<Byte>): seq<Byte> {
    m + [Byte(0x80)] + Zeros(PadZeros(|m|)) + LengthBytes(8 * |m|)
  }

  /** A padded message is a whole number of blocks. */
  lemma PadLength(m: seq<Byte>)
    ensures |Pad(m)| == |m| + 9 + PadZeros(|m|) && |Pad(m)| % 64 == 0
  {
    hide LengthBytes, PadZeros;
    LengthOfLength(8 * |m|);
    PadZerosIsLeast(|m|, PadZeros(|m|));
    WholeBlocks(|m| + 1 + PadZeros(|m|));
  }

  lemma LengthOfLength(bits: nat)
    ensures |LengthBytes(bits)| == 8
  {
    hide ByteOf;
  }

  lemma WholeBlocks(n: nat)
    requires n % 64 == 56
    ensures (n + 8) % 64 == 0
  {}

  // ---- section 6.2.2: the digest --------------------------------------------

  function ByteAt(w: bv32, n: bv6): Byte requires n < 32 { Byte(((w >> n) & 0xFF) as bv8) }

  function WordBytes(w: bv32): seq<Byte> { [ByteAt(w, 24), ByteAt(w, 16), ByteAt(w, 8), ByteAt(w, 0)] }

  function DigestBytes(s: Regs): seq<Byte> {
    WordBytes(s.a) + WordBytes(s.b) + WordBytes(s.c) + WordBytes(s.d) +
    WordBytes(s.e) + WordBytes(s.f) + WordBytes(s.g) + WordBytes(s.h)
  }

  function Sha256(m: seq<Byte>): seq<Byte> {
    DigestBytes(HashBlocks(IV, Pad(m)))
  }

  // ---- the constants, by the definition in sections 4.2.2 and 5.3.2 ----------

  /** w is the first 32 bits of the fractional part of the cube root of p. */
  ghost predicate CubeRootFraction(p: nat, n: nat, w: bv32) {
    var r := n * 0x1_0000_0000 + (w as nat);
    r * r * r <= p * 0x1_0000_0000_0000_0000_0000_0000 < (r + 1) * (r + 1) * (r + 1)
  }

  /** w is the first 32 bits of the fractional part of the square root of p. */
  ghost predicate SquareRootFraction(p: nat, n: nat, w: bv32) {
    var r := n * 0x1_0000_0000 + (w as nat);
    r * r <= p * 0x1_0000_0000_0000_0000 < (r + 1) * (r + 1)
  }

  lemma RoundConstants0()
    ensures K(0) == 0x428A2F98 && K(1) == 0x71374491 && K(2) == 0xB5C0FBCF && K(3) == 0xE9B5DBA5
    ensures K(4) == 0x3956C25B && K(5) == 0x59F111F1 && K(6) == 0x923F82A4 && K(7) == 0xAB1C5ED5
  {}

  lemma RoundConstants1()
    ensures K(8) == 0xD807AA98 && K(9) == 0x12835B01 && K(10) == 0x243185BE && K(11) == 0x550C7DC3
    ensures K(12) == 0x72BE5D74 && K(13) == 0x80DEB1FE && K(14) == 0x9BDC06A7 && K(15) == 0xC19BF174
  {}

  lemma RoundConstants2()
    ensures K(16) == 0xE49B69C1 && K(17) == 0xEFBE4786 && K(18) == 0x0FC19DC6 && K(19) == 0x240CA1CC
    ensures K(20) == 0x2DE92C6F && K(21) == 0x4A7484AA && K(22) == 0x5CB0A9DC && K(23) == 0x76F988DA
  {}

  lemma RoundConstants3()
    ensures K(24) == 0x983E5152 && K(25) == 0xA831C66D && K(26) == 0xB00327C8 && K(27) == 0xBF597FC7
    ensures K(28) == 0xC6E00BF3 && K(29) == 0xD5A79147 && K(30) == 0x06CA6351 && K(31) == 0x14292967
  {}

  lemma RoundConstants4()
    ensures K(32) == 0x27B70A85 && K(33) == 0x2E1B2138 && K(34) == 0x4D2C6DFC && K(35) == 0x53380D13
    ensures K(36) == 0x650A7354 && K(37) == 0x766A0ABB && K(38) == 0x81C2C92E && K(39) == 0x92722C85
  {}

  lemma RoundConstants5()
    ensures K(40) == 0xA2BFE8A1 && K(41) == 0xA81A664B && K(42) == 0xC24B8B70 && K(43) == 0xC76C51A3
    ensures K(44) == 0xD192E819 && K(45) == 0xD6990624 && K(46) == 0xF40E3585 && K(47) == 0x106AA070
  {}

  lemma RoundConstants6()
    ensures K(48) == 0x19A4C116 && K(49) == 0x1E376C08 && K(50) == 0x2748774C && K(51) == 0x34B0BCB5
    ensures K(52) == 0x391C0CB3 && K(53) == 0x4ED8AA4A && K(54) == 0x5B9CCA4F && K(55) == 0x682E6FF3
  {}

  lemma RoundConstants7()
    ensures K(56) == 0x748F82EE && K(57) == 0x78A5636F && K(58) == 0x84C87814 && K(59) == 0x8CC70208
    ensures K(60) == 0x90BEFFFA && K(61) == 0xA4506CEB && K(62) == 0xBEF9A3F7 && K(63) == 0xC67178F2
  {}

  lemma CubeRoots0()
    ensures CubeRootFraction(2, 1, 0x428A2F98) && CubeRootFraction(3, 1, 0x71374491)
  {}

  lemma CubeRoots1()
    ensures CubeRootFraction(5, 1, 0xB5C0FBCF) && CubeRootFraction(7, 1, 0xE9B5DBA5)
  {}

  lemma CubeRoots2()
    ensures CubeRootFraction(11, 2, 0x3956C25B) && CubeRootFraction(13, 2, 0x59F111F1)
  {}

  lemma CubeRoots3()
    ensures CubeRootFraction(17, 2, 0x923F82A4) && CubeRootFraction(19, 2, 0xAB1C5ED5)
  {}

  lemma CubeRoots4()
    ensures CubeRootFraction(23, 2, 0xD807AA98) && CubeRootFraction(29, 3, 0x12835B01)
  {}

  lemma CubeRoots5()
    ensures CubeRootFraction(31, 3, 0x243185BE) && CubeRootFraction(37, 3, 0x550C7DC3)
  {}

  lemma CubeRoots6()
    ensures CubeRootFraction(41, 3, 0x72BE5D74) && CubeRootFraction(43, 3, 0x80DEB1FE)
  {}

  lemma CubeRoots7()
    ensures CubeRootFraction(47, 3, 0x9BDC06A7) && CubeRootFraction(53, 3, 0xC19BF174)
  {}

  lemma CubeRoots8()
    ensures CubeRootFraction(59, 3, 0xE49B69C1) && CubeRootFraction(61, 3, 0xEFBE4786)
  {}

  lemma CubeRoots9()
    ensures CubeRootFraction(67, 4, 0x0FC19DC6) && CubeRootFraction(71, 4, 0x240CA1CC)
  {}

  lemma CubeRoots10()
    ensures CubeRootFraction(73, 4, 0x2DE92C6F) && CubeRootFraction(79, 4, 0x4A7484AA)
  {}

  lemma CubeRoots11()
    ensures CubeRootFraction(83, 4, 0x5CB0A9DC) && CubeRootFraction(89, 4, 0x76F988DA)
  {}

  lemma CubeRoots12()
    ensures CubeRootFraction(97, 4, 0x983E5152) && CubeRootFraction(101, 4, 0xA831C66D)
  {}

  lemma CubeRoots13()
    ensures CubeRootFraction(103, 4, 0xB00327C8) && CubeRootFraction(107, 4, 0xBF597FC7)
  {}

  lemma CubeRoots14()
    ensures CubeRootFraction(109, 4, 0xC6E00BF3) && CubeRootFraction(113, 4, 0xD5A79147)
  {}

  lemma CubeRoots15()
    ensures CubeRootFraction(127, 5, 0x06CA6351) && CubeRootFraction(131, 5, 0x14292967)
  {}

  lemma CubeRoots16()
    ensures CubeRootFraction(137, 5, 0x27B70A85) && CubeRootFraction(139, 5, 0x2E1B2138)
  {}

  lemma CubeRoots17()
    ensures CubeRootFraction(149, 5, 0x4D2C6DFC) && CubeRootFraction(151, 5, 0x53380D13)
  {}

  lemma CubeRoots18()
    ensures CubeRootFraction(157, 5, 0x650A7354) && CubeRootFraction(163, 5, 0x766A0ABB)
  {}

  lemma CubeRoots19()
    ensures CubeRootFraction(167, 5, 0x81C2C92E) && CubeRootFraction(173, 5, 0x92722C85)
  {}

  lemma CubeRoots20()
    ensures CubeRootFraction(179, 5, 0xA2BFE8A1) && CubeRootFraction(181, 5, 0xA81A664B)
  {}

  lemma CubeRoots21()
    ensures CubeRootFraction(191, 5, 0xC24B8B70) && CubeRootFraction(193, 5, 0xC76C51A3)
  {}

  lemma CubeRoots22()
    ensures CubeRootFraction(197, 5, 0xD192E819) && CubeRootFraction(199, 5, 0xD6990624)
  {}

  lemma CubeRoots23()
    ensures CubeRootFraction(211, 5, 0xF40E3585) && CubeRootFraction(223, 6, 0x106AA070)
  {}

  lemma CubeRoots24()
    ensures CubeRootFraction(227, 6, 0x19A4C116) && CubeRootFraction(229, 6, 0x1E376C08)
  {}

  lemma CubeRoots25()
    ensures CubeRootFraction(233, 6, 0x2748774C) && CubeRootFraction(239, 6, 0x34B0BCB5)
  {}

  lemma CubeRoots26()
    ensures CubeRootFraction(241, 6, 0x391C0CB3) && CubeRootFraction(251, 6, 0x4ED8AA4A)
  {}

  lemma CubeRoots27()
    ensures CubeRootFraction(257, 6, 0x5B9CCA4F) && CubeRootFraction(263, 6, 0x682E6FF3)
  {}

  lemma CubeRoots28()
    ensures CubeRootFraction(269, 6, 0x748F82EE) && CubeRootFraction(271, 6, 0x78A5636F)
  {}

  lemma CubeRoots29()
    ensures CubeRootFraction(277, 6, 0x84C87814) && CubeRootFraction(281, 6, 0x8CC70208)
  {}

  lemma CubeRoots30()
    ensures CubeRootFraction(283, 6, 0x90BEFFFA) && CubeRootFraction(293, 6, 0xA4506CEB)
  {}

  lemma CubeRoots31()
    ensures CubeRootFraction(307, 6, 0xBEF9A3F7) && CubeRootFraction(311, 6, 0xC67178F2)
  {}

  lemma RoundConstants0AreCubeRoots()
    ensures CubeRootFraction(2, 1, K(0)) && CubeRootFraction(3, 1, K(1))
    ensures CubeRootFraction(5, 1, K(2)) && CubeRootFraction(7, 1, K(3))
    ensures CubeRootFraction(11, 2, K(4)) && CubeRootFraction(13, 2, K(5))
    ensures CubeRootFraction(17, 2, K(6)) && CubeRootFraction(19, 2, K(7))
  {
    hide *;
    RoundConstants0();
    CubeRoots0();
    CubeRoots1();
    CubeRoots2();
    CubeRoots3();
  }

  lemma RoundConstants1AreCubeRoots()
    ensures CubeRootFraction(23, 2, K(8)) && CubeRootFraction(29, 3, K(9))
    ensures CubeRootFraction(31, 3, K(10)) && CubeRootFraction(37, 3, K(11))
    ensures CubeRootFraction(41, 3, K(12)) && CubeRootFraction(43, 3, K(13))
    ensures CubeRootFraction(47, 3, K(14)) && CubeRootFraction(53, 3, K(15))
  {
    hide *;
    RoundConstants1();
    CubeRoots4();
    CubeRoots5();
    CubeRoots6();
    CubeRoots7();
  }

  lemma RoundConstants2AreCubeRoots()
    ensures CubeRootFraction(59, 3, K(16)) && CubeRootFraction(61, 3, K(17))
    ensures CubeRootFraction(67, 4, K(18)) && CubeRootFraction(71, 4, K(19))
    ensures CubeRootFraction(73, 4, K(20)) && CubeRootFraction(79, 4, K(21))
    ensures CubeRootFraction(83, 4, K(22)) && CubeRootFraction(89, 4, K(23))
  {
    hide *;
    RoundConstants2();
    CubeRoots8();
    CubeRoots9();
    CubeRoots10();
    CubeRoots11();
  }

  lemma RoundConstants3AreCubeRoots()
    ensures CubeRootFraction(97, 4, K(24)) && CubeRootFraction(101, 4, K(25))
    ensures CubeRootFraction(103, 4, K(26)) && CubeRootFraction(107, 4, K(27))
    ensures CubeRootFraction(109, 4, K(28)) && CubeRootFraction(113, 4, K(29))
    ensures CubeRootFraction(127, 5, K(30)) && CubeRootFraction(131, 5, K(31))
  {
    hide *;
    RoundConstants3();
    CubeRoots12();
    CubeRoots13();
    CubeRoots14();
    CubeRoots15();
  }

  lemma RoundConstants4AreCubeRoots()
    ensures CubeRootFraction(137, 5, K(32)) && CubeRootFraction(139, 5, K(33))
    ensures CubeRootFraction(149, 5, K(34)) && CubeRootFraction(151, 5, K(35))
    ensures CubeRootFraction(157, 5, K(36)) && CubeRootFraction(163, 5, K(37))
    ensures CubeRootFraction(167, 5, K(38)) && CubeRootFraction(173, 5, K(39))
  {
    hide *;
    RoundConstants4();
    CubeRoots16();
    CubeRoots17();
    CubeRoots18();
    CubeRoots19();
  }

  lemma RoundConstants5AreCubeRoots()
    ensures CubeRootFraction(179, 5, K(40)) && CubeRootFraction(181, 5, K(41))
    ensures CubeRootFraction(191, 5, K(42)) && CubeRootFraction(193, 5, K(43))
    ensures CubeRootFraction(197, 5, K(44)) && CubeRootFraction(199, 5, K(45))
    ensures CubeRootFraction(211, 5, K(46)) && CubeRootFraction(223, 6, K(47))
  {
    hide *;
    RoundConstants5();
    CubeRoots20();
    CubeRoots21();
    CubeRoots22();
    CubeRoots23();
  }

  lemma RoundConstants6AreCubeRoots()
    ensures CubeRootFraction(227, 6, K(48)) && CubeRootFraction(229, 6, K(49))
    ensures CubeRootFraction(233, 6, K(50)) && CubeRootFraction(239, 6, K(51))
    ensures CubeRootFraction(241, 6, K(52)) && CubeRootFraction(251, 6, K(53))
    ensures CubeRootFraction(257, 6, K(54)) && CubeRootFraction(263, 6, K(55))
  {
    hide *;
    RoundConstants6();
    CubeRoots24();
    CubeRoots25();
    CubeRoots26();
    CubeRoots27();
  }

  lemma RoundConstants7AreCubeRoots()
    ensures CubeRootFraction(269, 6, K(56)) && CubeRootFraction(271, 6, K(57))
    ensures CubeRootFraction(277, 6, K(58)) && CubeRootFraction(281, 6, K(59))
    ensures CubeRootFraction(283, 6, K(60)) && CubeRootFraction(293, 6, K(61))
    ensures CubeRootFraction(307, 6, K(62)) && CubeRootFraction(311, 6, K(63))
  {
    hide *;
    RoundConstants7();
    CubeRoots28();
    CubeRoots29();
    CubeRoots30();
    CubeRoots31();
  }

  lemma InitialHashIsSquareRoots()
    ensures SquareRootFraction(2, 1, IV.a) && SquareRootFraction(3, 1, IV.b)
    ensures SquareRootFraction(5, 2, IV.c) && SquareRootFraction(7, 2, IV.d)
    ensures SquareRootFraction(11, 3, IV.e) && SquareRootFraction(13, 3, IV.f)
    ensures SquareRootFraction(17, 4, IV.g) && SquareRootFraction(19, 4, IV.h)
  {}
}
