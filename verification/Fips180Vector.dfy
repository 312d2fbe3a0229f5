/**
 The first test vector of FIPS 180-2, worked through word by word and round by round as in its appendix B.1.
 */
module Fips180Vector {
  import opened Wrappers
  import opened Fips180

  const ABC := [Byte(0x61), Byte(0x62), Byte(0x63)]

  /** The one block of the padded message. */
  const BLOCK := [Byte(0x61), Byte(0x62), Byte(0x63), Byte(0x80)] + (Zeros(52) + LENGTH)

  /** Its length in bits. */
  const LENGTH := [Byte(0), Byte(0), Byte(0), Byte(0), Byte(0), Byte(0), Byte(0), Byte(0x18)]

  lemma PadOfAbc()
    ensures Pad(ABC) == BLOCK && |BLOCK| == 64
  {
    assert PadZeros(3) == 52;
    LengthOfAbc();
    hide LengthBytes, Zeros, LENGTH;
    assert ABC + [Byte(0x80)] == [Byte(0x61), Byte(0x62), Byte(0x63), Byte(0x80)];
  }

  lemma LengthOfAbc()
    ensures LengthBytes(24) == LENGTH
  {
    assert 24 % 256 == 24 && ByteOf(24) == Byte(0x18) && ByteOf(0) == Byte(0);
  }

  // ---- the message schedule ---------------------------------------------------------------------

  lemma OneWord(t: nat, a: bv32, b: bv32, c: bv32, d: bv32, w: bv32)
    requires |BLOCK| == 64 && 16 <= t < 64
    requires Schedule(BLOCK, t - 2) == a && Schedule(BLOCK, t - 7) == b
    requires Schedule(BLOCK, t - 15) == c && Schedule(BLOCK, t - 16) == d
    requires Plus(Plus(Plus(SmallSigma1(a), b), SmallSigma0(c)), d) == w
    ensures Schedule(BLOCK, t) == w
  {
    hide SmallSigma0, SmallSigma1, Plus, Word, BLOCK;
  }

  lemma Words0()
    ensures |BLOCK| == 64
    ensures Schedule(BLOCK, 0) == 0x61626380 && Schedule(BLOCK, 1) == 0x00000000 && Schedule(BLOCK, 2) == 0x00000000
    ensures Schedule(BLOCK, 3) == 0x00000000 && Schedule(BLOCK, 4) == 0x00000000 && Schedule(BLOCK, 5) == 0x00000000
    ensures Schedule(BLOCK, 6) == 0x00000000 && Schedule(BLOCK, 7) == 0x00000000
  {
    hide WordOf, ByteOf;
    PadOfAbc();
    WordsOfBytes();
  }

  lemma Words1()
    ensures |BLOCK| == 64
    ensures Schedule(BLOCK, 8) == 0x00000000 && Schedule(BLOCK, 9) == 0x00000000 && Schedule(BLOCK, 10) == 0x00000000
    ensures Schedule(BLOCK, 11) == 0x00000000 && Schedule(BLOCK, 12) == 0x00000000 && Schedule(BLOCK, 13) == 0x00000000
    ensures Schedule(BLOCK, 14) == 0x00000000 && Schedule(BLOCK, 15) == 0x00000018
  {
    hide WordOf, ByteOf;
    PadOfAbc();
    WordsOfBytes();
  }

  lemma Words2()
    ensures |BLOCK| == 64
    ensures Schedule(BLOCK, 16) == 0x61626380 && Schedule(BLOCK, 17) == 0x000F0000 && Schedule(BLOCK, 18) == 0x7DA86405
    ensures Schedule(BLOCK, 19) == 0x600003C6 && Schedule(BLOCK, 20) == 0x3E9D7B78 && Schedule(BLOCK, 21) == 0x0183FC00
    ensures Schedule(BLOCK, 22) == 0x12DCBFDB && Schedule(BLOCK, 23) == 0xE2E2C38E
  {
    hide Schedule, BLOCK;
    Words0();
    Words1();
    OneWord(16, 0x00000000, 0x00000000, 0x00000000, 0x61626380, 0x61626380);
    OneWord(17, 0x00000018, 0x00000000, 0x00000000, 0x00000000, 0x000F0000);
    OneWord(18, 0x61626380, 0x00000000, 0x00000000, 0x00000000, 0x7DA86405);
    OneWord(19, 0x000F0000, 0x00000000, 0x00000000, 0x00000000, 0x600003C6);
    OneWord(20, 0x7DA86405, 0x00000000, 0x00000000, 0x00000000, 0x3E9D7B78);
    OneWord(21, 0x600003C6, 0x00000000, 0x00000000, 0x00000000, 0x0183FC00);
    OneWord(22, 0x3E9D7B78, 0x00000018, 0x00000000, 0x00000000, 0x12DCBFDB);
    OneWord(23, 0x0183FC00, 0x61626380, 0x00000000, 0x00000000, 0xE2E2C38E);
  }

  lemma Words3()
    ensures |BLOCK| == 64
    ensures Schedule(BLOCK, 24) == 0xC8215C1A && Schedule(BLOCK, 25) == 0xB73679A2 && Schedule(BLOCK, 26) == 0xE5BC3909
    ensures Schedule(BLOCK, 27) == 0x32663C5B && Schedule(BLOCK, 28) == 0x9D209D67 && Schedule(BLOCK, 29) == 0xEC8726CB
    ensures Schedule(BLOCK, 30) == 0x702138A4 && Schedule(BLOCK, 31) == 0xD3B7973B
  {
    hide Schedule, BLOCK;
    Words1();
    Words2();
    OneWord(24, 0x12DCBFDB, 0x000F0000, 0x00000000, 0x00000000, 0xC8215C1A);
    OneWord(25, 0xE2E2C38E, 0x7DA86405, 0x00000000, 0x00000000, 0xB73679A2);
    OneWord(26, 0xC8215C1A, 0x600003C6, 0x00000000, 0x00000000, 0xE5BC3909);
    OneWord(27, 0xB73679A2, 0x3E9D7B78, 0x00000000, 0x00000000, 0x32663C5B);
    OneWord(28, 0xE5BC3909, 0x0183FC00, 0x00000000, 0x00000000, 0x9D209D67);
    OneWord(29, 0x32663C5B, 0x12DCBFDB, 0x00000000, 0x00000000, 0xEC8726CB);
    OneWord(30, 0x9D209D67, 0xE2E2C38E, 0x00000018, 0x00000000, 0x702138A4);
    OneWord(31, 0xEC8726CB, 0xC8215C1A, 0x61626380, 0x00000018, 0xD3B7973B);
  }

  lemma Words4()
    ensures |BLOCK| == 64
    ensures Schedule(BLOCK, 32) == 0x93F5997F && Schedule(BLOCK, 33) == 0x3B68BA73 && Schedule(BLOCK, 34) == 0xAFF4FFC1
    ensures Schedule(BLOCK, 35) == 0xF10A5C62 && Schedule(BLOCK, 36) == 0x0A8B3996 && Schedule(BLOCK, 37) == 0x72AF830A
    ensures Schedule(BLOCK, 38) == 0x9409E33E && Schedule(BLOCK, 39) == 0x24641522
  {
    hide Schedule, BLOCK;
    Words2();
    Words3();
    OneWord(32, 0x702138A4, 0xB73679A2, 0x000F0000, 0x61626380, 0x93F5997F);
    OneWord(33, 0xD3B7973B, 0xE5BC3909, 0x7DA86405, 0x000F0000, 0x3B68BA73);
    OneWord(34, 0x93F5997F, 0x32663C5B, 0x600003C6, 0x7DA86405, 0xAFF4FFC1);
    OneWord(35, 0x3B68BA73, 0x9D209D67, 0x3E9D7B78, 0x600003C6, 0xF10A5C62);
    OneWord(36, 0xAFF4FFC1, 0xEC8726CB, 0x0183FC00, 0x3E9D7B78, 0x0A8B3996);
    OneWord(37, 0xF10A5C62, 0x702138A4, 0x12DCBFDB, 0x0183FC00, 0x72AF830A);
    OneWord(38, 0x0A8B3996, 0xD3B7973B, 0xE2E2C38E, 0x12DCBFDB, 0x9409E33E);
    OneWord(39, 0x72AF830A, 0x93F5997F, 0xC8215C1A, 0xE2E2C38E, 0x24641522);
  }

  lemma Words5()
    ensures |BLOCK| == 64
    ensures Schedule(BLOCK, 40) == 0x9F47BF94 && Schedule(BLOCK, 41) == 0xF0A64F5A && Schedule(BLOCK, 42) == 0x3E246A79
    ensures Schedule(BLOCK, 43) == 0x27333BA3 && Schedule(BLOCK, 44) == 0x0C4763F2 && Schedule(BLOCK, 45) == 0x840ABF27
    ensures Schedule(BLOCK, 46) == 0x7A290D5D && Schedule(BLOCK, 47) == 0x065C43DA
  {
    hide Schedule, BLOCK;
    Words3();
    Words4();
    OneWord(40, 0x9409E33E, 0x3B68BA73, 0xB73679A2, 0xC8215C1A, 0x9F47BF94);
    OneWord(41, 0x24641522, 0xAFF4FFC1, 0xE5BC3909, 0xB73679A2, 0xF0A64F5A);
    OneWord(42, 0x9F47BF94, 0xF10A5C62, 0x32663C5B, 0xE5BC3909, 0x3E246A79);
    OneWord(43, 0xF0A64F5A, 0x0A8B3996, 0x9D209D67, 0x32663C5B, 0x27333BA3);
    OneWord(44, 0x3E246A79, 0x72AF830A, 0xEC8726CB, 0x9D209D67, 0x0C4763F2);
    OneWord(45, 0x27333BA3, 0x9409E33E, 0x702138A4, 0xEC8726CB, 0x840ABF27);
    OneWord(46, 0x0C4763F2, 0x24641522, 0xD3B7973B, 0x702138A4, 0x7A290D5D);
    OneWord(47, 0x840ABF27, 0x9F47BF94, 0x93F5997F, 0xD3B7973B, 0x065C43DA);
  }

  lemma Words6()
    ensures |BLOCK| == 64
    ensures Schedule(BLOCK, 48) == 0xFB3E89CB && Schedule(BLOCK, 49) == 0xCC7617DB && Schedule(BLOCK, 50) == 0xB9E66C34
    ensures Schedule(BLOCK, 51) == 0xA9993667 && Schedule(BLOCK, 52) == 0x84BADEDD && Schedule(BLOCK, 53) == 0xC21462BC
    ensures Schedule(BLOCK, 54) == 0x1487472C && Schedule(BLOCK, 55) == 0xB20F7A99
  {
    hide Schedule, BLOCK;
    Words4();
    Words5();
    OneWord(48, 0x7A290D5D, 0xF0A64F5A, 0x3B68BA73, 0x93F5997F, 0xFB3E89CB);
    OneWord(49, 0x065C43DA, 0x3E246A79, 0xAFF4FFC1, 0x3B68BA73, 0xCC7617DB);
    OneWord(50, 0xFB3E89CB, 0x27333BA3, 0xF10A5C62, 0xAFF4FFC1, 0xB9E66C34);
    OneWord(51, 0xCC7617DB, 0x0C4763F2, 0x0A8B3996, 0xF10A5C62, 0xA9993667);
    OneWord(52, 0xB9E66C34, 0x840ABF27, 0x72AF830A, 0x0A8B3996, 0x84BADEDD);
    OneWord(53, 0xA9993667, 0x7A290D5D, 0x9409E33E, 0x72AF830A, 0xC21462BC);
    OneWord(54, 0x84BADEDD, 0x065C43DA, 0x24641522, 0x9409E33E, 0x1487472C);
    OneWord(55, 0xC21462BC, 0xFB3E89CB, 0x9F47BF94, 0x24641522, 0xB20F7A99);
  }

  lemma Words7()
    ensures |BLOCK| == 64
    ensures Schedule(BLOCK, 56) == 0xEF57B9CD && Schedule(BLOCK, 57) == 0xEBE6B238 && Schedule(BLOCK, 58) == 0x9FE3095E
    ensures Schedule(BLOCK, 59) == 0x78BC8D4B && Schedule(BLOCK, 60) == 0xA43FCF15 && Schedule(BLOCK, 61) == 0x668B2FF8
    ensures Schedule(BLOCK, 62) == 0xEEABA2CC && Schedule(BLOCK, 63) == 0x12B1EDEB
  {
    hide Schedule, BLOCK;
    Words5();
    Words6();
    OneWord(56, 0x1487472C, 0xCC7617DB, 0xF0A64F5A, 0x9F47BF94, 0xEF57B9CD);
    OneWord(57, 0xB20F7A99, 0xB9E66C34, 0x3E246A79, 0xF0A64F5A, 0xEBE6B238);
    OneWord(58, 0xEF57B9CD, 0xA9993667, 0x27333BA3, 0x3E246A79, 0x9FE3095E);
    OneWord(59, 0xEBE6B238, 0x84BADEDD, 0x0C4763F2, 0x27333BA3, 0x78BC8D4B);
    OneWord(60, 0x9FE3095E, 0xC21462BC, 0x840ABF27, 0x0C4763F2, 0xA43FCF15);
    OneWord(61, 0x78BC8D4B, 0x1487472C, 0x7A290D5D, 0x840ABF27, 0x668B2FF8);
    OneWord(62, 0xA43FCF15, 0xB20F7A99, 0x065C43DA, 0x7A290D5D, 0xEEABA2CC);
    OneWord(63, 0x668B2FF8, 0xEF57B9CD, 0xFB3E89CB, 0x065C43DA, 0x12B1EDEB);
  }

  lemma WordsOfBytes()
    ensures WordOf(Byte(0x61), Byte(0x62), Byte(0x63), Byte(0x80)) == 0x61626380
    ensures WordOf(Byte(0), Byte(0), Byte(0), Byte(0)) == 0 && WordOf(Byte(0), Byte(0), Byte(0), Byte(0x18)) == 0x18
  {}

  // ---- the rounds -------------------------------------------------------------------------------

  lemma OneRound(t: nat, s: Regs, k: bv32, w: bv32, a: bv32, e: bv32) returns (r: Regs)
    requires |BLOCK| == 64 && t < 64 && Rounds(IV, BLOCK, t) == s && K(t) == k && Schedule(BLOCK, t) == w
    requires Round(s, k, w).a == a && Round(s, k, w).e == e
    ensures r == Regs(a, s.a, s.b, s.c, e, s.e, s.f, s.g) && Rounds(IV, BLOCK, t + 1) == r
  {
    hide Schedule, K, BLOCK, BigSigma0, BigSigma1, Ch, Maj, Plus;
    r := Round(s, k, w);
  }

  lemma Rounds0() returns (s: Regs)
    ensures |BLOCK| == 64 && Rounds(IV, BLOCK, 8) == s
    ensures s == Regs(0x85A07B5F, 0xE5030380, 0x2B4209F5, 0x04409A6A, 0x0C657A79, 0x9B27A401, 0x714260AD, 0x43ADA245)
  {
    hide Schedule, K, BLOCK, Rounds;
    Words0();
    RoundConstants0();
    NoRound();
    s := IV;
    s := OneRound(0, s, 0x428A2F98, 0x61626380, 0x5D6AEBCD, 0xFA2A4622);
    s := OneRound(1, s, 0x71374491, 0x00000000, 0x5A6AD9AD, 0x78CE7989);
    s := OneRound(2, s, 0xB5C0FBCF, 0x00000000, 0xC8C347A7, 0xF92939EB);
    s := OneRound(3, s, 0xE9B5DBA5, 0x00000000, 0xD550F666, 0x24E00850);
    s := OneRound(4, s, 0x3956C25B, 0x00000000, 0x04409A6A, 0x43ADA245);
    s := OneRound(5, s, 0x59F111F1, 0x00000000, 0x2B4209F5, 0x714260AD);
    s := OneRound(6, s, 0x923F82A4, 0x00000000, 0xE5030380, 0x9B27A401);
    s := OneRound(7, s, 0xAB1C5ED5, 0x00000000, 0x85A07B5F, 0x0C657A79);
  }

  lemma Rounds1() returns (s: Regs)
    ensures |BLOCK| == 64 && Rounds(IV, BLOCK, 16) == s
    ensures s == Regs(0xB0FA238E, 0xC0645FDE, 0xD932EB16, 0x87912990, 0x07590DCD, 0x0B92F20C, 0x745A48DE, 0x1E578218)
  {
    hide Schedule, K, BLOCK, Rounds;
    Words1();
    RoundConstants1();
    s := Rounds0();
    s := OneRound(8, s, 0xD807AA98, 0x00000000, 0x8E04ECB9, 0x32CA2D8C);
    s := OneRound(9, s, 0x12835B01, 0x00000000, 0x8C87346B, 0x1CC92596);
    s := OneRound(10, s, 0x243185BE, 0x00000000, 0x4798A3F4, 0x436B23E8);
    s := OneRound(11, s, 0x550C7DC3, 0x00000000, 0xF71FC5A9, 0x816FD6E9);
    s := OneRound(12, s, 0x72BE5D74, 0x00000000, 0x87912990, 0x1E578218);
    s := OneRound(13, s, 0x80DEB1FE, 0x00000000, 0xD932EB16, 0x745A48DE);
    s := OneRound(14, s, 0x9BDC06A7, 0x00000000, 0xC0645FDE, 0x0B92F20C);
    s := OneRound(15, s, 0xC19BF174, 0x00000018, 0xB0FA238E, 0x07590DCD);
  }

  lemma Rounds2() returns (s: Regs)
    ensures |BLOCK| == 64 && Rounds(IV, BLOCK, 24) == s
    ensures s == Regs(0xC5D53D8D, 0xA7A3623F, 0xC2606D6D, 0x9DC68B63, 0xAA47C347, 0x49F5114A, 0xE1257970, 0x8ADA8930)
  {
    hide Schedule, K, BLOCK, Rounds;
    Words2();
    RoundConstants2();
    s := Rounds1();
    s := OneRound(16, s, 0xE49B69C1, 0x61626380, 0x21DA9A9B, 0x8034229C);
    s := OneRound(17, s, 0xEFBE4786, 0x000F0000, 0xC2FBD9D1, 0x846EE454);
    s := OneRound(18, s, 0x0FC19DC6, 0x7DA86405, 0xFE777BBF, 0xCC899961);
    s := OneRound(19, s, 0x240CA1CC, 0x600003C6, 0xE1F20C33, 0xB0638179);
    s := OneRound(20, s, 0x2DE92C6F, 0x3E9D7B78, 0x9DC68B63, 0x8ADA8930);
    s := OneRound(21, s, 0x4A7484AA, 0x0183FC00, 0xC2606D6D, 0xE1257970);
    s := OneRound(22, s, 0x5CB0A9DC, 0x12DCBFDB, 0xA7A3623F, 0x49F5114A);
    s := OneRound(23, s, 0x76F988DA, 0xE2E2C38E, 0xC5D53D8D, 0xAA47C347);
  }

  lemma Rounds3() returns (s: Regs)
    ensures |BLOCK| == 64 && Rounds(IV, BLOCK, 32) == s
    ensures s == Regs(0x73B33BF5, 0xEA992A22, 0xA0060B30, 0x363482C9, 0xBA591112, 0x0109AB3A, 0xADE79437, 0x6112A3B7)
  {
    hide Schedule, K, BLOCK, Rounds;
    Words3();
    RoundConstants3();
    s := Rounds2();
    s := OneRound(24, s, 0x983E5152, 0xC8215C1A, 0x1C2C2838, 0x2823EF91);
    s := OneRound(25, s, 0xA831C66D, 0xB73679A2, 0xCDE8037D, 0x14383D8E);
    s := OneRound(26, s, 0xB00327C8, 0xE5BC3909, 0xB62EC4BC, 0xC74C6516);
    s := OneRound(27, s, 0xBF597FC7, 0x32663C5B, 0x77D37528, 0xEDFFBFF8);
    s := OneRound(28, s, 0xC6E00BF3, 0x9D209D67, 0x363482C9, 0x6112A3B7);
    s := OneRound(29, s, 0xD5A79147, 0xEC8726CB, 0xA0060B30, 0xADE79437);
    s := OneRound(30, s, 0x06CA6351, 0x702138A4, 0xEA992A22, 0x0109AB3A);
    s := OneRound(31, s, 0x14292967, 0xD3B7973B, 0x73B33BF5, 0xBA591112);
  }

  lemma Rounds4() returns (s: Regs)
    ensures |BLOCK| == 64 && Rounds(IV, BLOCK, 40) == s
    ensures s == Regs(0x79EA687A, 0x6DC57A8A, 0x34DF1604, 0x41A65CB1, 0x1EFBC0A0, 0xF0781BC8, 0xA507A53D, 0x0772A26B)
  {
    hide Schedule, K, BLOCK, Rounds;
    Words4();
    RoundConstants4();
    s := Rounds3();
    s := OneRound(32, s, 0x27B70A85, 0x93F5997F, 0x98E12507, 0x9CD9F5F6);
    s := OneRound(33, s, 0x2E1B2138, 0x3B68BA73, 0xFE604DF5, 0x59249DD3);
    s := OneRound(34, s, 0x4D2C6DFC, 0xAFF4FFC1, 0xA9A7738C, 0x085F3833);
    s := OneRound(35, s, 0x53380D13, 0xF10A5C62, 0x65A0CFE4, 0xF4B002D6);
    s := OneRound(36, s, 0x650A7354, 0x0A8B3996, 0x41A65CB1, 0x0772A26B);
    s := OneRound(37, s, 0x766A0ABB, 0x72AF830A, 0x34DF1604, 0xA507A53D);
    s := OneRound(38, s, 0x81C2C92E, 0x9409E33E, 0x6DC57A8A, 0xF0781BC8);
    s := OneRound(39, s, 0x92722C85, 0x24641522, 0x79EA687A, 0x1EFBC0A0);
  }

  lemma Rounds5() returns (s: Regs)
    ensures |BLOCK| == 64 && Rounds(IV, BLOCK, 48) == s
    ensures s == Regs(0x4172328D, 0xA14C14B0, 0x72AB4B91, 0x26628815, 0xFECF0BC6, 0xD57B94A9, 0xB7755DA1, 0xA80F11F0)
  {
    hide Schedule, K, BLOCK, Rounds;
    Words5();
    RoundConstants5();
    s := Rounds4();
    s := OneRound(40, s, 0xA2BFE8A1, 0x9F47BF94, 0xD6670766, 0x26352D63);
    s := OneRound(41, s, 0xA81A664B, 0xF0A64F5A, 0xDF46652F, 0x838B2711);
    s := OneRound(42, s, 0xC24B8B70, 0x3E246A79, 0x17AA0DFE, 0xDECD4715);
    s := OneRound(43, s, 0xC76C51A3, 0x27333BA3, 0x9D4BAF93, 0xFDA24C2E);
    s := OneRound(44, s, 0xD192E819, 0x0C4763F2, 0x26628815, 0xA80F11F0);
    s := OneRound(45, s, 0xD6990624, 0x840ABF27, 0x72AB4B91, 0xB7755DA1);
    s := OneRound(46, s, 0xF40E3585, 0x7A290D5D, 0xA14C14B0, 0xD57B94A9);
    s := OneRound(47, s, 0x106AA070, 0x065C43DA, 0x4172328D, 0xFECF0BC6);
  }

  lemma Rounds6() returns (s: Regs)
    ensures |BLOCK| == 64 && Rounds(IV, BLOCK, 56) == s
    ensures s == Regs(0x38CC9913, 0x3EC45CDB, 0xF5702FDB, 0x101FD28F, 0x54CB266B, 0xE50E1B4F, 0x9F4787C3, 0x529E7D00)
  {
    hide Schedule, K, BLOCK, Rounds;
    Words6();
    RoundConstants6();
    s := Rounds5();
    s := OneRound(48, s, 0x19A4C116, 0xFB3E89CB, 0x05757CEB, 0xBD714038);
    s := OneRound(49, s, 0x1E376C08, 0xCC7617DB, 0xF11BFAA8, 0x6E5C390C);
    s := OneRound(50, s, 0x2748774C, 0xB9E66C34, 0x7A0508A1, 0x52F1CCF7);
    s := OneRound(51, s, 0x34B0BCB5, 0xA9993667, 0x886E7A22, 0x49231C1E);
    s := OneRound(52, s, 0x391C0CB3, 0x84BADEDD, 0x101FD28F, 0x529E7D00);
    s := OneRound(53, s, 0x4ED8AA4A, 0xC21462BC, 0xF5702FDB, 0x9F4787C3);
    s := OneRound(54, s, 0x5B9CCA4F, 0x1487472C, 0x3EC45CDB, 0xE50E1B4F);
    s := OneRound(55, s, 0x682E6FF3, 0xB20F7A99, 0x38CC9913, 0x54CB266B);
  }

  lemma Rounds7() returns (s: Regs)
    ensures |BLOCK| == 64 && Rounds(IV, BLOCK, 64) == s
    ensures s == Regs(0x506E3058, 0xD39A2165, 0x04D24D6C, 0xB85E2CE9, 0x5EF50F24, 0xFB121210, 0x948D25B6, 0x961F4894)
  {
    hide Schedule, K, BLOCK, Rounds;
    Words7();
    RoundConstants7();
    s := Rounds6();
    s := OneRound(56, s, 0x748F82EE, 0xEF57B9CD, 0xFCD1887B, 0x9B5E906C);
    s := OneRound(57, s, 0x78A5636F, 0xEBE6B238, 0xC062D46F, 0x7E44008E);
    s := OneRound(58, s, 0x84C87814, 0x9FE3095E, 0xFFB70472, 0x6D83BFC6);
    s := OneRound(59, s, 0x8CC70208, 0x78BC8D4B, 0xB6AE8FFF, 0xB21BAD3D);
    s := OneRound(60, s, 0x90BEFFFA, 0xA43FCF15, 0xB85E2CE9, 0x961F4894);
    s := OneRound(61, s, 0xA4506CEB, 0x668B2FF8, 0x04D24D6C, 0x948D25B6);
    s := OneRound(62, s, 0xBEF9A3F7, 0xEEABA2CC, 0xD39A2165, 0xFB121210);
    s := OneRound(63, s, 0xC67178F2, 0x12B1EDEB, 0x506E3058, 0x5EF50F24);
  }

  lemma NoRound()
    ensures |BLOCK| == 64 ==> Rounds(IV, BLOCK, 0) == IV
  {}

  const LAST := Regs(0xBA7816BF, 0x8F01CFEA, 0x414140DE, 0x5DAE2223, 0xB00361A3, 0x96177A9C, 0xB410FF61, 0xF20015AD)

  /** The digest of "abc" is that of the standard. */
  lemma Sha256OfAbc()
    ensures Sha256(ABC) ==
      [Byte(0xBA), Byte(0x78), Byte(0x16), Byte(0xBF), Byte(0x8F), Byte(0x01), Byte(0xCF), Byte(0xEA),
       Byte(0x41), Byte(0x41), Byte(0x40), Byte(0xDE), Byte(0x5D), Byte(0xAE), Byte(0x22), Byte(0x23),
       Byte(0xB0), Byte(0x03), Byte(0x61), Byte(0xA3), Byte(0x96), Byte(0x17), Byte(0x7A), Byte(0x9C),
       Byte(0xB4), Byte(0x10), Byte(0xFF), Byte(0x61), Byte(0xF2), Byte(0x00), Byte(0x15), Byte(0xAD)]
  {
    hide Rounds, BLOCK, Pad, DigestBytes;
    PadOfAbc();
    var s := Rounds7();
    assert BLOCK[..0] == [] && BLOCK[0..] == BLOCK;
    assert HashBlocks(IV, BLOCK) == LAST;
    DigestOfAbc();
  }

  lemma DigestOfAbc()
    ensures DigestBytes(LAST) ==
      [Byte(0xBA), Byte(0x78), Byte(0x16), Byte(0xBF), Byte(0x8F), Byte(0x01), Byte(0xCF), Byte(0xEA),
       Byte(0x41), Byte(0x41), Byte(0x40), Byte(0xDE), Byte(0x5D), Byte(0xAE), Byte(0x22), Byte(0x23),
       Byte(0xB0), Byte(0x03), Byte(0x61), Byte(0xA3), Byte(0x96), Byte(0x17), Byte(0x7A), Byte(0x9C),
       Byte(0xB4), Byte(0x10), Byte(0xFF), Byte(0x61), Byte(0xF2), Byte(0x00), Byte(0x15), Byte(0xAD)]
  {}
}
