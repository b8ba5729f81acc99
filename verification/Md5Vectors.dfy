// A digest that appendix A.5 of RFC 1321 lists, worked out operation by operation.
module Md5Vectors {
  import opened Md5

  // ---- rotations by the amounts of each round ----

  lemma Left1(x: Word) ensures ShiftLeft(x, 1) == x << 1 { assert ShiftLeft(x, 1) == ShiftLeftOne(x); }
  lemma Left2(x: Word) ensures ShiftLeft(x, 2) == x << 2 { Left1(x); }
  lemma Left3(x: Word) ensures ShiftLeft(x, 3) == x << 3 { Left2(x); }
  lemma Left4(x: Word) ensures ShiftLeft(x, 4) == x << 4 { Left3(x); }
  lemma Left5(x: Word) ensures ShiftLeft(x, 5) == x << 5 { Left4(x); }
  lemma Left6(x: Word) ensures ShiftLeft(x, 6) == x << 6 { Left5(x); }
  lemma Left7(x: Word) ensures ShiftLeft(x, 7) == x << 7 { Left6(x); }
  lemma Left8(x: Word) ensures ShiftLeft(x, 8) == x << 8 { Left7(x); }
  lemma Left9(x: Word) ensures ShiftLeft(x, 9) == x << 9 { Left8(x); }
  lemma Left10(x: Word) ensures ShiftLeft(x, 10) == x << 10 { Left9(x); }
  lemma Left11(x: Word) ensures ShiftLeft(x, 11) == x << 11 { Left10(x); }
  lemma Left12(x: Word) ensures ShiftLeft(x, 12) == x << 12 { Left11(x); }
  lemma Left13(x: Word) ensures ShiftLeft(x, 13) == x << 13 { Left12(x); }
  lemma Left14(x: Word) ensures ShiftLeft(x, 14) == x << 14 { Left13(x); }
  lemma Left15(x: Word) ensures ShiftLeft(x, 15) == x << 15 { Left14(x); }
  lemma Left16(x: Word) ensures ShiftLeft(x, 16) == x << 16 { Left15(x); }
  lemma Left17(x: Word) ensures ShiftLeft(x, 17) == x << 17 { Left16(x); }
  lemma Left18(x: Word) ensures ShiftLeft(x, 18) == x << 18 { Left17(x); }
  lemma Left19(x: Word) ensures ShiftLeft(x, 19) == x << 19 { Left18(x); }
  lemma Left20(x: Word) ensures ShiftLeft(x, 20) == x << 20 { Left19(x); }
  lemma Left21(x: Word) ensures ShiftLeft(x, 21) == x << 21 { Left20(x); }
  lemma Left22(x: Word) ensures ShiftLeft(x, 22) == x << 22 { Left21(x); }
  lemma Left23(x: Word) ensures ShiftLeft(x, 23) == x << 23 { Left22(x); }

  lemma Right1(x: Word) ensures ShiftRight(x, 1) == x >> 1 { assert ShiftRight(x, 1) == ShiftRightOne(x); }
  lemma Right2(x: Word) ensures ShiftRight(x, 2) == x >> 2 { Right1(x); }
  lemma Right3(x: Word) ensures ShiftRight(x, 3) == x >> 3 { Right2(x); }
  lemma Right4(x: Word) ensures ShiftRight(x, 4) == x >> 4 { Right3(x); }
  lemma Right5(x: Word) ensures ShiftRight(x, 5) == x >> 5 { Right4(x); }
  lemma Right6(x: Word) ensures ShiftRight(x, 6) == x >> 6 { Right5(x); }
  lemma Right7(x: Word) ensures ShiftRight(x, 7) == x >> 7 { Right6(x); }
  lemma Right8(x: Word) ensures ShiftRight(x, 8) == x >> 8 { Right7(x); }
  lemma Right9(x: Word) ensures ShiftRight(x, 9) == x >> 9 { Right8(x); }
  lemma Right10(x: Word) ensures ShiftRight(x, 10) == x >> 10 { Right9(x); }
  lemma Right11(x: Word) ensures ShiftRight(x, 11) == x >> 11 { Right10(x); }
  lemma Right12(x: Word) ensures ShiftRight(x, 12) == x >> 12 { Right11(x); }
  lemma Right13(x: Word) ensures ShiftRight(x, 13) == x >> 13 { Right12(x); }
  lemma Right14(x: Word) ensures ShiftRight(x, 14) == x >> 14 { Right13(x); }
  lemma Right15(x: Word) ensures ShiftRight(x, 15) == x >> 15 { Right14(x); }
  lemma Right16(x: Word) ensures ShiftRight(x, 16) == x >> 16 { Right15(x); }
  lemma Right17(x: Word) ensures ShiftRight(x, 17) == x >> 17 { Right16(x); }
  lemma Right18(x: Word) ensures ShiftRight(x, 18) == x >> 18 { Right17(x); }
  lemma Right19(x: Word) ensures ShiftRight(x, 19) == x >> 19 { Right18(x); }
  lemma Right20(x: Word) ensures ShiftRight(x, 20) == x >> 20 { Right19(x); }
  lemma Right21(x: Word) ensures ShiftRight(x, 21) == x >> 21 { Right20(x); }
  lemma Right22(x: Word) ensures ShiftRight(x, 22) == x >> 22 { Right21(x); }
  lemma Right23(x: Word) ensures ShiftRight(x, 23) == x >> 23 { Right22(x); }
  lemma Right24(x: Word) ensures ShiftRight(x, 24) == x >> 24 { Right23(x); }
  lemma Right25(x: Word) ensures ShiftRight(x, 25) == x >> 25 { Right24(x); }
  lemma Right26(x: Word) ensures ShiftRight(x, 26) == x >> 26 { Right25(x); }
  lemma Right27(x: Word) ensures ShiftRight(x, 27) == x >> 27 { Right26(x); }
  lemma Right28(x: Word) ensures ShiftRight(x, 28) == x >> 28 { Right27(x); }

  lemma Rotations0()
    ensures forall x: Word :: Rotated(x, 7) == Or(x << 7, x >> 25)
    ensures forall x: Word :: Rotated(x, 12) == Or(x << 12, x >> 20)
    ensures forall x: Word :: Rotated(x, 17) == Or(x << 17, x >> 15)
    ensures forall x: Word :: Rotated(x, 22) == Or(x << 22, x >> 10)
  {
    hide ShiftLeft, ShiftRight;
    forall x: Word
      ensures Rotated(x, 7) == Or(x << 7, x >> 25)
      ensures Rotated(x, 12) == Or(x << 12, x >> 20)
      ensures Rotated(x, 17) == Or(x << 17, x >> 15)
      ensures Rotated(x, 22) == Or(x << 22, x >> 10)
    {
      Left7(x); Right25(x); Left12(x); Right20(x); Left17(x); Right15(x); Left22(x); Right10(x);
    }
  }

  lemma Rotations1()
    ensures forall x: Word :: Rotated(x, 5) == Or(x << 5, x >> 27)
    ensures forall x: Word :: Rotated(x, 9) == Or(x << 9, x >> 23)
    ensures forall x: Word :: Rotated(x, 14) == Or(x << 14, x >> 18)
    ensures forall x: Word :: Rotated(x, 20) == Or(x << 20, x >> 12)
  {
    hide ShiftLeft, ShiftRight;
    forall x: Word
      ensures Rotated(x, 5) == Or(x << 5, x >> 27)
      ensures Rotated(x, 9) == Or(x << 9, x >> 23)
      ensures Rotated(x, 14) == Or(x << 14, x >> 18)
      ensures Rotated(x, 20) == Or(x << 20, x >> 12)
    {
      Left5(x); Right27(x); Left9(x); Right23(x); Left14(x); Right18(x); Left20(x); Right12(x);
    }
  }

  lemma Rotations2()
    ensures forall x: Word :: Rotated(x, 4) == Or(x << 4, x >> 28)
    ensures forall x: Word :: Rotated(x, 11) == Or(x << 11, x >> 21)
    ensures forall x: Word :: Rotated(x, 16) == Or(x << 16, x >> 16)
    ensures forall x: Word :: Rotated(x, 23) == Or(x << 23, x >> 9)
  {
    hide ShiftLeft, ShiftRight;
    forall x: Word
      ensures Rotated(x, 4) == Or(x << 4, x >> 28)
      ensures Rotated(x, 11) == Or(x << 11, x >> 21)
      ensures Rotated(x, 16) == Or(x << 16, x >> 16)
      ensures Rotated(x, 23) == Or(x << 23, x >> 9)
    {
      Left4(x); Right28(x); Left11(x); Right21(x); Left16(x); Right16(x); Left23(x); Right9(x);
    }
  }

  lemma Rotations3()
    ensures forall x: Word :: Rotated(x, 6) == Or(x << 6, x >> 26)
    ensures forall x: Word :: Rotated(x, 10) == Or(x << 10, x >> 22)
    ensures forall x: Word :: Rotated(x, 15) == Or(x << 15, x >> 17)
    ensures forall x: Word :: Rotated(x, 21) == Or(x << 21, x >> 11)
  {
    hide ShiftLeft, ShiftRight;
    forall x: Word
      ensures Rotated(x, 6) == Or(x << 6, x >> 26)
      ensures Rotated(x, 10) == Or(x << 10, x >> 22)
      ensures Rotated(x, 15) == Or(x << 15, x >> 17)
      ensures Rotated(x, 21) == Or(x << 21, x >> 11)
    {
      Left6(x); Right26(x); Left10(x); Right22(x); Left15(x); Right17(x); Left21(x); Right11(x);
    }
  }

  // ---- the registers after every fourth operation ----

  /** The words of the only block: the letters, a one bit, zeros and the length of 208 bits. */
  function Letters(): (x: seq<Word>)
    ensures |x| == 16
  {
    [0x64636261, 0x68676665, 0x6c6b6a69, 0x706f6e6d, 0x74737271, 0x78777675, 0x00807a79, 0, 0, 0, 0, 0, 0, 0, 0x000000d0, 0]
  }

  function Trace(row: nat): Regs {
    match row
    case 0 => Regs(0x67452301, 0xefcdab89, 0x98badcfe, 0x10325476)
    case 1 => Regs(0xd6d117a6, 0x4503b812, 0x227d8cf1, 0xaab1aaaa)
    case 2 => Regs(0xfe15f787, 0xda9bbb0d, 0xb71122fc, 0xa811b278)
    case 3 => Regs(0xae752899, 0x56cfa5cb, 0x7d4bd80b, 0x2bbe757f)
    case 4 => Regs(0x1754a316, 0x608d6b7e, 0x00df74d5, 0x85567d90)
    case 5 => Regs(0x2d8071cc, 0x4c2145b3, 0xedfe7e4b, 0x5dcee119)
    case 6 => Regs(0x570c43e0, 0xc9f162d4, 0xc28ab49d, 0x977efd2a)
    case 7 => Regs(0x25bfae3b, 0xe6d3b398, 0xf8c8365f, 0x89980104)
    case 8 => Regs(0xf54d8710, 0xaeb35766, 0x2e69afc7, 0x927b72e2)
    case 9 => Regs(0xb4bf680e, 0x06a5e211, 0x2361ed0a, 0x4c8ffa80)
    case 10 => Regs(0xb9c0c733, 0x8d41bf99, 0x23a9451b, 0xf1e6dc7a)
    case 11 => Regs(0xa3e88ead, 0x90a35af5, 0x66f6468d, 0x02c0b11c)
    case 12 => Regs(0xb5d41f9c, 0x71d10367, 0x703d54d8, 0xa04b4904)
    case 13 => Regs(0xfc32dd6e, 0x33edb197, 0xb35602cb, 0x65456b34)
    case 14 => Regs(0xc1e942f1, 0x83877d1b, 0x23a68048, 0xd9bb987c)
    case 15 => Regs(0x0077c208, 0x5e6bc930, 0xa3e2247f, 0x847fc2e7)
    case _ => Regs(0x708ed9c2, 0x1116e6d8, 0xd38f1e7f, 0x2baf1354)
  }

  lemma Op0() ensures Operation(0, 0x67452301, 0xefcdab89, 0x98badcfe, 0x10325476, 0x64636261, 7, 0xd76aa478) == 0xd6d117a6 { Rotations0(); hide Rotated; }
  lemma Op1() ensures Operation(0, 0x10325476, 0xd6d117a6, 0xefcdab89, 0x98badcfe, 0x68676665, 12, 0xe8c7b756) == 0xaab1aaaa { Rotations0(); hide Rotated; }
  lemma Op2() ensures Operation(0, 0x98badcfe, 0xaab1aaaa, 0xd6d117a6, 0xefcdab89, 0x6c6b6a69, 17, 0x242070db) == 0x227d8cf1 { Rotations0(); hide Rotated; }
  lemma Op3() ensures Operation(0, 0xefcdab89, 0x227d8cf1, 0xaab1aaaa, 0xd6d117a6, 0x706f6e6d, 22, 0xc1bdceee) == 0x4503b812 { Rotations0(); hide Rotated; }
  lemma Op4() ensures Operation(0, 0xd6d117a6, 0x4503b812, 0x227d8cf1, 0xaab1aaaa, 0x74737271, 7, 0xf57c0faf) == 0xfe15f787 { Rotations0(); hide Rotated; }
  lemma Op5() ensures Operation(0, 0xaab1aaaa, 0xfe15f787, 0x4503b812, 0x227d8cf1, 0x78777675, 12, 0x4787c62a) == 0xa811b278 { Rotations0(); hide Rotated; }
  lemma Op6() ensures Operation(0, 0x227d8cf1, 0xa811b278, 0xfe15f787, 0x4503b812, 0x00807a79, 17, 0xa8304613) == 0xb71122fc { Rotations0(); hide Rotated; }
  lemma Op7() ensures Operation(0, 0x4503b812, 0xb71122fc, 0xa811b278, 0xfe15f787, 0x00000000, 22, 0xfd469501) == 0xda9bbb0d { Rotations0(); hide Rotated; }
  lemma Op8() ensures Operation(0, 0xfe15f787, 0xda9bbb0d, 0xb71122fc, 0xa811b278, 0x00000000, 7, 0x698098d8) == 0xae752899 { Rotations0(); hide Rotated; }
  lemma Op9() ensures Operation(0, 0xa811b278, 0xae752899, 0xda9bbb0d, 0xb71122fc, 0x00000000, 12, 0x8b44f7af) == 0x2bbe757f { Rotations0(); hide Rotated; }
  lemma Op10() ensures Operation(0, 0xb71122fc, 0x2bbe757f, 0xae752899, 0xda9bbb0d, 0x00000000, 17, 0xffff5bb1) == 0x7d4bd80b { Rotations0(); hide Rotated; }
  lemma Op11() ensures Operation(0, 0xda9bbb0d, 0x7d4bd80b, 0x2bbe757f, 0xae752899, 0x00000000, 22, 0x895cd7be) == 0x56cfa5cb { Rotations0(); hide Rotated; }
  lemma Op12() ensures Operation(0, 0xae752899, 0x56cfa5cb, 0x7d4bd80b, 0x2bbe757f, 0x00000000, 7, 0x6b901122) == 0x1754a316 { Rotations0(); hide Rotated; }
  lemma Op13() ensures Operation(0, 0x2bbe757f, 0x1754a316, 0x56cfa5cb, 0x7d4bd80b, 0x00000000, 12, 0xfd987193) == 0x85567d90 { Rotations0(); hide Rotated; }
  lemma Op14() ensures Operation(0, 0x7d4bd80b, 0x85567d90, 0x1754a316, 0x56cfa5cb, 0x000000d0, 17, 0xa679438e) == 0x00df74d5 { Rotations0(); hide Rotated; }
  lemma Op15() ensures Operation(0, 0x56cfa5cb, 0x00df74d5, 0x85567d90, 0x1754a316, 0x00000000, 22, 0x49b40821) == 0x608d6b7e { Rotations0(); hide Rotated; }
  lemma Op16() ensures Operation(1, 0x1754a316, 0x608d6b7e, 0x00df74d5, 0x85567d90, 0x68676665, 5, 0xf61e2562) == 0x2d8071cc { Rotations1(); hide Rotated; }
  lemma Op17() ensures Operation(1, 0x85567d90, 0x2d8071cc, 0x608d6b7e, 0x00df74d5, 0x00807a79, 9, 0xc040b340) == 0x5dcee119 { Rotations1(); hide Rotated; }
  lemma Op18() ensures Operation(1, 0x00df74d5, 0x5dcee119, 0x2d8071cc, 0x608d6b7e, 0x00000000, 14, 0x265e5a51) == 0xedfe7e4b { Rotations1(); hide Rotated; }
  lemma Op19() ensures Operation(1, 0x608d6b7e, 0xedfe7e4b, 0x5dcee119, 0x2d8071cc, 0x64636261, 20, 0xe9b6c7aa) == 0x4c2145b3 { Rotations1(); hide Rotated; }
  lemma Op20() ensures Operation(1, 0x2d8071cc, 0x4c2145b3, 0xedfe7e4b, 0x5dcee119, 0x78777675, 5, 0xd62f105d) == 0x570c43e0 { Rotations1(); hide Rotated; }
  lemma Op21() ensures Operation(1, 0x5dcee119, 0x570c43e0, 0x4c2145b3, 0xedfe7e4b, 0x00000000, 9, 0x02441453) == 0x977efd2a { Rotations1(); hide Rotated; }
  lemma Op22() ensures Operation(1, 0xedfe7e4b, 0x977efd2a, 0x570c43e0, 0x4c2145b3, 0x00000000, 14, 0xd8a1e681) == 0xc28ab49d { Rotations1(); hide Rotated; }
  lemma Op23() ensures Operation(1, 0x4c2145b3, 0xc28ab49d, 0x977efd2a, 0x570c43e0, 0x74737271, 20, 0xe7d3fbc8) == 0xc9f162d4 { Rotations1(); hide Rotated; }
  lemma Op24() ensures Operation(1, 0x570c43e0, 0xc9f162d4, 0xc28ab49d, 0x977efd2a, 0x00000000, 5, 0x21e1cde6) == 0x25bfae3b { Rotations1(); hide Rotated; }
  lemma Op25() ensures Operation(1, 0x977efd2a, 0x25bfae3b, 0xc9f162d4, 0xc28ab49d, 0x000000d0, 9, 0xc33707d6) == 0x89980104 { Rotations1(); hide Rotated; }
  lemma Op26() ensures Operation(1, 0xc28ab49d, 0x89980104, 0x25bfae3b, 0xc9f162d4, 0x706f6e6d, 14, 0xf4d50d87) == 0xf8c8365f { Rotations1(); hide Rotated; }
  lemma Op27() ensures Operation(1, 0xc9f162d4, 0xf8c8365f, 0x89980104, 0x25bfae3b, 0x00000000, 20, 0x455a14ed) == 0xe6d3b398 { Rotations1(); hide Rotated; }
  lemma Op28() ensures Operation(1, 0x25bfae3b, 0xe6d3b398, 0xf8c8365f, 0x89980104, 0x00000000, 5, 0xa9e3e905) == 0xf54d8710 { Rotations1(); hide Rotated; }
  lemma Op29() ensures Operation(1, 0x89980104, 0xf54d8710, 0xe6d3b398, 0xf8c8365f, 0x6c6b6a69, 9, 0xfcefa3f8) == 0x927b72e2 { Rotations1(); hide Rotated; }
  lemma Op30() ensures Operation(1, 0xf8c8365f, 0x927b72e2, 0xf54d8710, 0xe6d3b398, 0x00000000, 14, 0x676f02d9) == 0x2e69afc7 { Rotations1(); hide Rotated; }
  lemma Op31() ensures Operation(1, 0xe6d3b398, 0x2e69afc7, 0x927b72e2, 0xf54d8710, 0x00000000, 20, 0x8d2a4c8a) == 0xaeb35766 { Rotations1(); hide Rotated; }
  lemma Op32() ensures Operation(2, 0xf54d8710, 0xaeb35766, 0x2e69afc7, 0x927b72e2, 0x78777675, 4, 0xfffa3942) == 0xb4bf680e { Rotations2(); hide Rotated; }
  lemma Op33() ensures Operation(2, 0x927b72e2, 0xb4bf680e, 0xaeb35766, 0x2e69afc7, 0x00000000, 11, 0x8771f681) == 0x4c8ffa80 { Rotations2(); hide Rotated; }
  lemma Op34() ensures Operation(2, 0x2e69afc7, 0x4c8ffa80, 0xb4bf680e, 0xaeb35766, 0x00000000, 16, 0x6d9d6122) == 0x2361ed0a { Rotations2(); hide Rotated; }
  lemma Op35() ensures Operation(2, 0xaeb35766, 0x2361ed0a, 0x4c8ffa80, 0xb4bf680e, 0x000000d0, 23, 0xfde5380c) == 0x06a5e211 { Rotations2(); hide Rotated; }
  lemma Op36() ensures Operation(2, 0xb4bf680e, 0x06a5e211, 0x2361ed0a, 0x4c8ffa80, 0x68676665, 4, 0xa4beea44) == 0xb9c0c733 { Rotations2(); hide Rotated; }
  lemma Op37() ensures Operation(2, 0x4c8ffa80, 0xb9c0c733, 0x06a5e211, 0x2361ed0a, 0x74737271, 11, 0x4bdecfa9) == 0xf1e6dc7a { Rotations2(); hide Rotated; }
  lemma Op38() ensures Operation(2, 0x2361ed0a, 0xf1e6dc7a, 0xb9c0c733, 0x06a5e211, 0x00000000, 16, 0xf6bb4b60) == 0x23a9451b { Rotations2(); hide Rotated; }
  lemma Op39() ensures Operation(2, 0x06a5e211, 0x23a9451b, 0xf1e6dc7a, 0xb9c0c733, 0x00000000, 23, 0xbebfbc70) == 0x8d41bf99 { Rotations2(); hide Rotated; }
  lemma Op40() ensures Operation(2, 0xb9c0c733, 0x8d41bf99, 0x23a9451b, 0xf1e6dc7a, 0x00000000, 4, 0x289b7ec6) == 0xa3e88ead { Rotations2(); hide Rotated; }
  lemma Op41() ensures Operation(2, 0xf1e6dc7a, 0xa3e88ead, 0x8d41bf99, 0x23a9451b, 0x64636261, 11, 0xeaa127fa) == 0x02c0b11c { Rotations2(); hide Rotated; }
  lemma Op42() ensures Operation(2, 0x23a9451b, 0x02c0b11c, 0xa3e88ead, 0x8d41bf99, 0x706f6e6d, 16, 0xd4ef3085) == 0x66f6468d { Rotations2(); hide Rotated; }
  lemma Op43() ensures Operation(2, 0x8d41bf99, 0x66f6468d, 0x02c0b11c, 0xa3e88ead, 0x00807a79, 23, 0x04881d05) == 0x90a35af5 { Rotations2(); hide Rotated; }
  lemma Op44() ensures Operation(2, 0xa3e88ead, 0x90a35af5, 0x66f6468d, 0x02c0b11c, 0x00000000, 4, 0xd9d4d039) == 0xb5d41f9c { Rotations2(); hide Rotated; }
  lemma Op45() ensures Operation(2, 0x02c0b11c, 0xb5d41f9c, 0x90a35af5, 0x66f6468d, 0x00000000, 11, 0xe6db99e5) == 0xa04b4904 { Rotations2(); hide Rotated; }
  lemma Op46() ensures Operation(2, 0x66f6468d, 0xa04b4904, 0xb5d41f9c, 0x90a35af5, 0x00000000, 16, 0x1fa27cf8) == 0x703d54d8 { Rotations2(); hide Rotated; }
  lemma Op47() ensures Operation(2, 0x90a35af5, 0x703d54d8, 0xa04b4904, 0xb5d41f9c, 0x6c6b6a69, 23, 0xc4ac5665) == 0x71d10367 { Rotations2(); hide Rotated; }
  lemma Op48() ensures Operation(3, 0xb5d41f9c, 0x71d10367, 0x703d54d8, 0xa04b4904, 0x64636261, 6, 0xf4292244) == 0xfc32dd6e { Rotations3(); hide Rotated; }
  lemma Op49() ensures Operation(3, 0xa04b4904, 0xfc32dd6e, 0x71d10367, 0x703d54d8, 0x00000000, 10, 0x432aff97) == 0x65456b34 { Rotations3(); hide Rotated; }
  lemma Op50() ensures Operation(3, 0x703d54d8, 0x65456b34, 0xfc32dd6e, 0x71d10367, 0x000000d0, 15, 0xab9423a7) == 0xb35602cb { Rotations3(); hide Rotated; }
  lemma Op51() ensures Operation(3, 0x71d10367, 0xb35602cb, 0x65456b34, 0xfc32dd6e, 0x78777675, 21, 0xfc93a039) == 0x33edb197 { Rotations3(); hide Rotated; }
  lemma Op52() ensures Operation(3, 0xfc32dd6e, 0x33edb197, 0xb35602cb, 0x65456b34, 0x00000000, 6, 0x655b59c3) == 0xc1e942f1 { Rotations3(); hide Rotated; }
  lemma Op53() ensures Operation(3, 0x65456b34, 0xc1e942f1, 0x33edb197, 0xb35602cb, 0x706f6e6d, 10, 0x8f0ccc92) == 0xd9bb987c { Rotations3(); hide Rotated; }
  lemma Op54() ensures Operation(3, 0xb35602cb, 0xd9bb987c, 0xc1e942f1, 0x33edb197, 0x00000000, 15, 0xffeff47d) == 0x23a68048 { Rotations3(); hide Rotated; }
  lemma Op55() ensures Operation(3, 0x33edb197, 0x23a68048, 0xd9bb987c, 0xc1e942f1, 0x68676665, 21, 0x85845dd1) == 0x83877d1b { Rotations3(); hide Rotated; }
  lemma Op56() ensures Operation(3, 0xc1e942f1, 0x83877d1b, 0x23a68048, 0xd9bb987c, 0x00000000, 6, 0x6fa87e4f) == 0x0077c208 { Rotations3(); hide Rotated; }
  lemma Op57() ensures Operation(3, 0xd9bb987c, 0x0077c208, 0x83877d1b, 0x23a68048, 0x00000000, 10, 0xfe2ce6e0) == 0x847fc2e7 { Rotations3(); hide Rotated; }
  lemma Op58() ensures Operation(3, 0x23a68048, 0x847fc2e7, 0x0077c208, 0x83877d1b, 0x00807a79, 15, 0xa3014314) == 0xa3e2247f { Rotations3(); hide Rotated; }
  lemma Op59() ensures Operation(3, 0x83877d1b, 0xa3e2247f, 0x847fc2e7, 0x0077c208, 0x00000000, 21, 0x4e0811a1) == 0x5e6bc930 { Rotations3(); hide Rotated; }
  lemma Op60() ensures Operation(3, 0x0077c208, 0x5e6bc930, 0xa3e2247f, 0x847fc2e7, 0x74737271, 6, 0xf7537e82) == 0x708ed9c2 { Rotations3(); hide Rotated; }
  lemma Op61() ensures Operation(3, 0x847fc2e7, 0x708ed9c2, 0x5e6bc930, 0xa3e2247f, 0x00000000, 10, 0xbd3af235) == 0x2baf1354 { Rotations3(); hide Rotated; }
  lemma Op62() ensures Operation(3, 0xa3e2247f, 0x2baf1354, 0x708ed9c2, 0x5e6bc930, 0x6c6b6a69, 15, 0x2ad7d2bb) == 0xd38f1e7f { Rotations3(); hide Rotated; }
  lemma Op63() ensures Operation(3, 0x5e6bc930, 0xd38f1e7f, 0x2baf1354, 0x708ed9c2, 0x00000000, 21, 0xeb86d391) == 0x1116e6d8 { Rotations3(); hide Rotated; }

  lemma Row0() ensures Quad(Trace(0), Letters(), 0) == Trace(1) { Op0(); Op1(); Op2(); Op3(); hide Operation; }
  lemma Row1() ensures Quad(Trace(1), Letters(), 1) == Trace(2) { Op4(); Op5(); Op6(); Op7(); hide Operation; }
  lemma Row2() ensures Quad(Trace(2), Letters(), 2) == Trace(3) { Op8(); Op9(); Op10(); Op11(); hide Operation; }
  lemma Row3() ensures Quad(Trace(3), Letters(), 3) == Trace(4) { Op12(); Op13(); Op14(); Op15(); hide Operation; }
  lemma Row4() ensures Quad(Trace(4), Letters(), 4) == Trace(5) { Op16(); Op17(); Op18(); Op19(); hide Operation; }
  lemma Row5() ensures Quad(Trace(5), Letters(), 5) == Trace(6) { Op20(); Op21(); Op22(); Op23(); hide Operation; }
  lemma Row6() ensures Quad(Trace(6), Letters(), 6) == Trace(7) { Op24(); Op25(); Op26(); Op27(); hide Operation; }
  lemma Row7() ensures Quad(Trace(7), Letters(), 7) == Trace(8) { Op28(); Op29(); Op30(); Op31(); hide Operation; }
  lemma Row8() ensures Quad(Trace(8), Letters(), 8) == Trace(9) { Op32(); Op33(); Op34(); Op35(); hide Operation; }
  lemma Row9() ensures Quad(Trace(9), Letters(), 9) == Trace(10) { Op36(); Op37(); Op38(); Op39(); hide Operation; }
  lemma Row10() ensures Quad(Trace(10), Letters(), 10) == Trace(11) { Op40(); Op41(); Op42(); Op43(); hide Operation; }
  lemma Row11() ensures Quad(Trace(11), Letters(), 11) == Trace(12) { Op44(); Op45(); Op46(); Op47(); hide Operation; }
  lemma Row12() ensures Quad(Trace(12), Letters(), 12) == Trace(13) { Op48(); Op49(); Op50(); Op51(); hide Operation; }
  lemma Row13() ensures Quad(Trace(13), Letters(), 13) == Trace(14) { Op52(); Op53(); Op54(); Op55(); hide Operation; }
  lemma Row14() ensures Quad(Trace(14), Letters(), 14) == Trace(15) { Op56(); Op57(); Op58(); Op59(); hide Operation; }
  lemma Row15() ensures Quad(Trace(15), Letters(), 15) == Trace(16) { Op60(); Op61(); Op62(); Op63(); hide Operation; }

  lemma RowOf(row: nat)
    requires row < 16
    ensures Quad(Trace(row), Letters(), row) == Trace(row + 1)
  {
    hide Quad, Trace, Letters;
    match row {
      case 0 => Row0();
      case 1 => Row1();
      case 2 => Row2();
      case 3 => Row3();
      case 4 => Row4();
      case 5 => Row5();
      case 6 => Row6();
      case 7 => Row7();
      case 8 => Row8();
      case 9 => Row9();
      case 10 => Row10();
      case 11 => Row11();
      case 12 => Row12();
      case 13 => Row13();
      case 14 => Row14();
      case _ => Row15();
    }
  }

  lemma {:induction false} Traced(row: nat)
    requires row <= 16
    ensures Steps(INIT, Letters(), 4 * row) == Trace(row)
  {
    hide Quad, Steps;
    if row == 0 {
      NoSteps(INIT, Letters());
    } else {
      hide Trace, Letters;
      Traced(row - 1);
      FourSteps(INIT, Letters(), row - 1);
      RowOf(row - 1);
    }
  }

  // ---- the message ----

  lemma OneBlock(m: seq<Byte>)
    requires |m| == 64
    ensures Fold(INIT, m) == Compress(INIT, m)
  {
    assert m[..64] == m && m[64..] == [];
  }

  lemma PaddingIs()
    ensures Padding(26) == [0x80] + ([0] + Zeros(28)) + ([208, 0, 0, 0] + [0, 0, 0, 0])
  {
    LowLength();
    HighLength();
    hide FourBytes;
    assert Zeros(29) == [0] + Zeros(28);
  }

  lemma LowLength()
    ensures FourBytes(208) == [208, 0, 0, 0]
  {
    LastByte();
    NoByte();
    hide ByteOf;
  }

  lemma LastByte() ensures ByteOf(208) == 208 {}

  lemma NoByte() ensures ByteOf(0) == 0 {}

  lemma HighLength() ensures FourBytes(208 / WORD) == [0, 0, 0, 0] {}

  /** The block, four bytes at a time. */
  function Block(n: nat): (b: seq<Byte>)
    ensures |b| == 4 * n
  {
    if n == 0 then [] else Block(n - 1) + Quarter(n - 1)
  }

  function Quarter(j: nat): (q: seq<Byte>)
    ensures |q| == 4
  {
    match j
    case 0 => [97, 98, 99, 100]
    case 1 => [101, 102, 103, 104]
    case 2 => [105, 106, 107, 108]
    case 3 => [109, 110, 111, 112]
    case 4 => [113, 114, 115, 116]
    case 5 => [117, 118, 119, 120]
    case 6 => [121, 122, 128, 0]
    case 7 => [0, 0, 0, 0]
    case 8 => [0, 0, 0, 0]
    case 9 => [0, 0, 0, 0]
    case 10 => [0, 0, 0, 0]
    case 11 => [0, 0, 0, 0]
    case 12 => [0, 0, 0, 0]
    case 13 => [0, 0, 0, 0]
    case 14 => [208, 0, 0, 0]
    case _ => [0, 0, 0, 0]
  }

  lemma {:induction false} QuarterOf(n: nat, j: nat)
    requires j < n
    ensures Block(n)[4 * j..4 * j + 4] == Quarter(j)
  {
    if j < n - 1 { QuarterOf(n - 1, j); }
  }

  /** The letters a to z. */
  function Alphabet(): (b: seq<Byte>)
    ensures |b| == 26
  {
    Block(6) + [121, 122]
  }

  lemma {:induction false} ZerosBehind(n: nat)
    requires 7 <= n <= 14
    ensures Block(n) == Block(7) + Zeros(4 * (n - 7))
  {
    if n > 7 { ZerosBehind(n - 1); }
  }

  lemma BlockIs()
    ensures Alphabet() + Padding(26) == Block(16)
  {
    PaddingIs();
    ZerosBehind(14);
    BlockEnds();
    hide Block, Alphabet, Padding, Quarter;
    Regrouped(Alphabet(), Zeros(28), [208, 0, 0, 0], [0, 0, 0, 0]);
  }

  lemma Regrouped(a: seq<Byte>, z: seq<Byte>, u: seq<Byte>, v: seq<Byte>)
    ensures a + ([0x80] + ([0] + z) + (u + v)) == a + [0x80, 0] + z + u + v
  {
  }

  lemma BlockEnds()
    ensures Block(7) == Alphabet() + [0x80, 0]
    ensures Block(16) == Block(14) + [208, 0, 0, 0] + [0, 0, 0, 0]
  {
  }

  lemma WordOf(j: nat)
    requires j < 16
    ensures WordAt(Quarter(j)) == Letters()[j]
  {
  }

  lemma WordsAre()
    ensures Words(Block(16)) == Letters()
  {
    hide Block, WordAt, Letters, Quarter;
    forall j | 0 <= j < 16 ensures Words(Block(16))[j] == Letters()[j] {
      QuarterOf(16, j);
      WordOf(j);
    }
  }

  lemma Added()
    ensures Sum(INIT, Trace(16)) == Regs(0xd7d3fcc3, 0x00e49261, 0x6c49fb7d, 0x3be167ca)
  {
  }

  lemma Bytes0() ensures BytesOf(0xd7d3fcc3) == [0xc3, 0xfc, 0xd3, 0xd7] {}
  lemma Bytes1() ensures BytesOf(0x00e49261) == [0x61, 0x92, 0xe4, 0x00] {}
  lemma Bytes2() ensures BytesOf(0x6c49fb7d) == [0x7d, 0xfb, 0x49, 0x6c] {}
  lemma Bytes3() ensures BytesOf(0x3be167ca) == [0xca, 0x67, 0xe1, 0x3b] {}

  /** The digest of the alphabet is c3fcd3d76192e4007dfb496cca67e13b. */
  lemma DigestOfAlphabet()
    ensures Digest(Alphabet()) == [0xc3, 0xfc, 0xd3, 0xd7, 0x61, 0x92, 0xe4, 0x00, 0x7d, 0xfb, 0x49, 0x6c, 0xca, 0x67, 0xe1, 0x3b]
  {
    hide Steps, Words, Letters, Block, Padding, Fold, Trace, BytesOf, Sum;
    BlockIs();
    OneBlock(Block(16));
    WordsAre();
    Traced(16);
    Added();
    Bytes0();
    Bytes1();
    Bytes2();
    Bytes3();
    assert |Alphabet()| == 26;
    hide Alphabet;
  }
}
