/** The values that RFC 1321 prints in appendix A.5, followed through every table row of the
    definitions on literal registers: the digest of the empty message, and that of the 62 letters and
    digits, whose two blocks use every word and every byte position. */
module Md5Vectors {
  import opened Md5Rfc
  import Md5

  /** The rows of a round one after the other. */
  lemma FourRows(r: Regs, x: seq<bv32>, round: nat, e0: Regs, e1: Regs, e2: Regs, e3: Regs)
    requires |x| == 16
    requires Row(r, x, 4 * round) == e0 && Row(e0, x, 4 * round + 1) == e1
    requires Row(e1, x, 4 * round + 2) == e2 && Row(e2, x, 4 * round + 3) == e3
    ensures Round(r, x, round) == e3
  {
    hide Row;
  }

  lemma WordIs(block: seq<Byte>, k: nat, b0: Byte, b1: Byte, b2: Byte, b3: Byte, w: bv32)
    requires |block| == 64 && k < 16
    requires block[4 * k] == b0 && block[4 * k + 1] == b1 && block[4 * k + 2] == b2 && block[4 * k + 3] == b3
    requires WordOf(b0, b1, b2, b3) == w
    ensures Words(block)[k] == w
  {
    hide WordOf;
  }

  lemma WordShift(block: seq<Byte>, i: nat, part: seq<Byte>, j: nat)
    requires |block| == 64 && |part| == 16 && i < 4 && j < 4 && block[16 * i..16 * i + 16] == part
    ensures Words(block)[4 * i + j] == Word(part, j)
  {
    hide WordOf;
    var k := 4 * i + j;
    assert block[4 * k] == part[4 * j] && block[4 * k + 1] == part[4 * j + 1];
    assert block[4 * k + 2] == part[4 * j + 2] && block[4 * k + 3] == part[4 * j + 3];
  }

  lemma QuarterWords(block: seq<Byte>, i: nat, part: seq<Byte>)
    requires |block| == 64 && |part| == 16 && i < 4 && block[16 * i..16 * i + 16] == part
    ensures Words(block)[4 * i..4 * i + 4] == [Word(part, 0), Word(part, 1), Word(part, 2), Word(part, 3)]
  {
    hide Word, Words;
    WordShift(block, i, part, 0);
    WordShift(block, i, part, 1);
    WordShift(block, i, part, 2);
    WordShift(block, i, part, 3);
  }

  lemma Sizes()
    ensures ZerosNeeded(0) == 55 && ZerosNeeded(62) == 57
    ensures LengthBytes(0) == [0x00, 0x00, 0x00, 0x00, 0x00, 0x00, 0x00, 0x00]
    ensures LengthBytes(62) == [0xf0, 0x01, 0x00, 0x00, 0x00, 0x00, 0x00, 0x00]
  {
    LowWords();
    hide Le32;
  }

  lemma LowWords()
    ensures Le32(0) == [0x00, 0x00, 0x00, 0x00] && Le32(496) == [0xf0, 0x01, 0x00, 0x00]
  {
  }

  lemma WordOfThree()
    ensures Le32(3) == [0x03, 0x00, 0x00, 0x00]
  {
  }

  lemma WordOfMany()
    ensures Le32(0x091a2b38) == [0x38, 0x2b, 0x1a, 0x09]
  {
    var n := 0x091a2b38;
    assert n % 0x100 == 0x38 && n / 0x100 % 0x100 == 0x2b;
    assert n / 0x1_0000 % 0x100 == 0x1a && n / 0x100_0000 % 0x100 == 0x09;
  }

  /** The bit length is written low byte first and the low word first, and it is taken mod 2^64. */
  lemma LengthVectors()
    ensures LengthBytes(0x0123_4567) == [0x38, 0x2b, 0x1a, 0x09, 0x00, 0x00, 0x00, 0x00]
    ensures LengthBytes(0x6123_4567) == [0x38, 0x2b, 0x1a, 0x09, 0x03, 0x00, 0x00, 0x00]
    ensures LengthBytes(0x2000_0000_0123_4567) == LengthBytes(0x0123_4567)
  {
    LowWords();
    WordOfThree();
    WordOfMany();
    hide Le32;
  }

  lemma FourRounds(r: Regs, block: seq<Byte>, x: seq<bv32>, e0: Regs, e1: Regs, e2: Regs, e3: Regs)
    requires |block| == 64 && x == Words(block)
    requires Round(r, x, 0) == e0 && Round(e0, x, 1) == e1 && Round(e1, x, 2) == e2 && Round(e2, x, 3) == e3
    ensures Compress(r, block) == Regs(Plus(r.a, e3.a), Plus(r.b, e3.b), Plus(r.c, e3.c), Plus(r.d, e3.d))
  {
    hide Round, Words, Plus;
  }

  const EMPTY_WORDS: seq<bv32> := [
    0x00000080, 0x00000000, 0x00000000, 0x00000000, 0x00000000, 0x00000000, 0x00000000, 0x00000000, 0x00000000,
    0x00000000, 0x00000000, 0x00000000, 0x00000000, 0x00000000, 0x00000000, 0x00000000]

  const EMPTY_BLOCK: seq<Byte> := [0x80] + Zeros(63)

  lemma EmptyRow0()
    ensures Row(Regs(0x67452301, 0xefcdab89, 0x98badcfe, 0x10325476), EMPTY_WORDS, 0)
         == Regs(0xa5202774, 0x1b163203, 0xe7f06b23, 0xf59592dd)
  {
    assert Op(0, 0x67452301, 0xefcdab89, 0x98badcfe, 0x10325476, 0x00000080, 7, 0xd76aa478) == 0xa5202774;
    assert Op(0, 0x10325476, 0xa5202774, 0xefcdab89, 0x98badcfe, 0x00000000, 12, 0xe8c7b756) == 0xf59592dd;
    assert Op(0, 0x98badcfe, 0xf59592dd, 0xa5202774, 0xefcdab89, 0x00000000, 17, 0x242070db) == 0xe7f06b23;
    assert Op(0, 0xefcdab89, 0xe7f06b23, 0xf59592dd, 0xa5202774, 0x00000000, 22, 0xc1bdceee) == 0x1b163203;
    hide Op;
  }

  lemma EmptyRow1()
    ensures Row(Regs(0xa5202774, 0x1b163203, 0xe7f06b23, 0xf59592dd), EMPTY_WORDS, 1)
         == Regs(0x32033344, 0x9bc13ce9, 0xf5b158db, 0x2f35d494)
  {
    assert Op(0, 0xa5202774, 0x1b163203, 0xe7f06b23, 0xf59592dd, 0x00000000, 7, 0xf57c0faf) == 0x32033344;
    assert Op(0, 0xf59592dd, 0x32033344, 0x1b163203, 0xe7f06b23, 0x00000000, 12, 0x4787c62a) == 0x2f35d494;
    assert Op(0, 0xe7f06b23, 0x2f35d494, 0x32033344, 0x1b163203, 0x00000000, 17, 0xa8304613) == 0xf5b158db;
    assert Op(0, 0x1b163203, 0xf5b158db, 0x2f35d494, 0x32033344, 0x00000000, 22, 0xfd469501) == 0x9bc13ce9;
    hide Op;
  }

  lemma EmptyRow2()
    ensures Row(Regs(0x32033344, 0x9bc13ce9, 0xf5b158db, 0x2f35d494), EMPTY_WORDS, 2)
         == Regs(0x3893b991, 0x70768a29, 0xe1ef0576, 0xfce4a312)
  {
    assert Op(0, 0x32033344, 0x9bc13ce9, 0xf5b158db, 0x2f35d494, 0x00000000, 7, 0x698098d8) == 0x3893b991;
    assert Op(0, 0x2f35d494, 0x3893b991, 0x9bc13ce9, 0xf5b158db, 0x00000000, 12, 0x8b44f7af) == 0xfce4a312;
    assert Op(0, 0xf5b158db, 0xfce4a312, 0x3893b991, 0x9bc13ce9, 0x00000000, 17, 0xffff5bb1) == 0xe1ef0576;
    assert Op(0, 0x9bc13ce9, 0xe1ef0576, 0xfce4a312, 0x3893b991, 0x00000000, 22, 0x895cd7be) == 0x70768a29;
    hide Op;
  }

  lemma EmptyRow3()
    ensures Row(Regs(0x3893b991, 0x70768a29, 0xe1ef0576, 0xfce4a312), EMPTY_WORDS, 3)
         == Regs(0xf56c7cf1, 0xd6819c6a, 0x5aa53f75, 0x374943a7)
  {
    assert Op(0, 0x3893b991, 0x70768a29, 0xe1ef0576, 0xfce4a312, 0x00000000, 7, 0x6b901122) == 0xf56c7cf1;
    assert Op(0, 0xfce4a312, 0xf56c7cf1, 0x70768a29, 0xe1ef0576, 0x00000000, 12, 0xfd987193) == 0x374943a7;
    assert Op(0, 0xe1ef0576, 0x374943a7, 0xf56c7cf1, 0x70768a29, 0x00000000, 17, 0xa679438e) == 0x5aa53f75;
    assert Op(0, 0x70768a29, 0x5aa53f75, 0x374943a7, 0xf56c7cf1, 0x00000000, 22, 0x49b40821) == 0xd6819c6a;
    hide Op;
  }

  lemma EmptyRow4()
    ensures Row(Regs(0xf56c7cf1, 0xd6819c6a, 0x5aa53f75, 0x374943a7), EMPTY_WORDS, 4)
         == Regs(0x1c7d7513, 0xbd782e17, 0xc095f13a, 0x7bd57a3a)
  {
    assert Op(1, 0xf56c7cf1, 0xd6819c6a, 0x5aa53f75, 0x374943a7, 0x00000000, 5, 0xf61e2562) == 0x1c7d7513;
    assert Op(1, 0x374943a7, 0x1c7d7513, 0xd6819c6a, 0x5aa53f75, 0x00000000, 9, 0xc040b340) == 0x7bd57a3a;
    assert Op(1, 0x5aa53f75, 0x7bd57a3a, 0x1c7d7513, 0xd6819c6a, 0x00000000, 14, 0x265e5a51) == 0xc095f13a;
    assert Op(1, 0xd6819c6a, 0xc095f13a, 0x7bd57a3a, 0x1c7d7513, 0x00000080, 20, 0xe9b6c7aa) == 0xbd782e17;
    hide Op;
  }

  lemma EmptyRow5()
    ensures Row(Regs(0x1c7d7513, 0xbd782e17, 0xc095f13a, 0x7bd57a3a), EMPTY_WORDS, 5)
         == Regs(0x3d1e3e6c, 0xe422531a, 0xeb41643e, 0x68b7b3e3)
  {
    assert Op(1, 0x1c7d7513, 0xbd782e17, 0xc095f13a, 0x7bd57a3a, 0x00000000, 5, 0xd62f105d) == 0x3d1e3e6c;
    assert Op(1, 0x7bd57a3a, 0x3d1e3e6c, 0xbd782e17, 0xc095f13a, 0x00000000, 9, 0x02441453) == 0x68b7b3e3;
    assert Op(1, 0xc095f13a, 0x68b7b3e3, 0x3d1e3e6c, 0xbd782e17, 0x00000000, 14, 0xd8a1e681) == 0xeb41643e;
    assert Op(1, 0xbd782e17, 0xeb41643e, 0x68b7b3e3, 0x3d1e3e6c, 0x00000000, 20, 0xe7d3fbc8) == 0xe422531a;
    hide Op;
  }

  lemma EmptyRow6()
    ensures Row(Regs(0x3d1e3e6c, 0xe422531a, 0xeb41643e, 0x68b7b3e3), EMPTY_WORDS, 6)
         == Regs(0x306ec122, 0xa0572807, 0xa3c663da, 0xd28c77c2)
  {
    assert Op(1, 0x3d1e3e6c, 0xe422531a, 0xeb41643e, 0x68b7b3e3, 0x00000000, 5, 0x21e1cde6) == 0x306ec122;
    assert Op(1, 0x68b7b3e3, 0x306ec122, 0xe422531a, 0xeb41643e, 0x00000000, 9, 0xc33707d6) == 0xd28c77c2;
    assert Op(1, 0xeb41643e, 0xd28c77c2, 0x306ec122, 0xe422531a, 0x00000000, 14, 0xf4d50d87) == 0xa3c663da;
    assert Op(1, 0xe422531a, 0xa3c663da, 0xd28c77c2, 0x306ec122, 0x00000000, 20, 0x455a14ed) == 0xa0572807;
    hide Op;
  }

  lemma EmptyRow7()
    ensures Row(Regs(0x306ec122, 0xa0572807, 0xa3c663da, 0xd28c77c2), EMPTY_WORDS, 7)
         == Regs(0x13707036, 0xa2205f1f, 0x1c31c384, 0xae7813db)
  {
    assert Op(1, 0x306ec122, 0xa0572807, 0xa3c663da, 0xd28c77c2, 0x00000000, 5, 0xa9e3e905) == 0x13707036;
    assert Op(1, 0xd28c77c2, 0x13707036, 0xa0572807, 0xa3c663da, 0x00000000, 9, 0xfcefa3f8) == 0xae7813db;
    assert Op(1, 0xa3c663da, 0xae7813db, 0x13707036, 0xa0572807, 0x00000000, 14, 0x676f02d9) == 0x1c31c384;
    assert Op(1, 0xa0572807, 0x1c31c384, 0xae7813db, 0x13707036, 0x00000000, 20, 0x8d2a4c8a) == 0xa2205f1f;
    hide Op;
  }

  lemma EmptyRow8()
    ensures Row(Regs(0x13707036, 0xa2205f1f, 0x1c31c384, 0xae7813db), EMPTY_WORDS, 8)
         == Regs(0xdf63eaa1, 0x004b6669, 0x12f3e755, 0xc3689f5b)
  {
    assert Op(2, 0x13707036, 0xa2205f1f, 0x1c31c384, 0xae7813db, 0x00000000, 4, 0xfffa3942) == 0xdf63eaa1;
    assert Op(2, 0xae7813db, 0xdf63eaa1, 0xa2205f1f, 0x1c31c384, 0x00000000, 11, 0x8771f681) == 0xc3689f5b;
    assert Op(2, 0x1c31c384, 0xc3689f5b, 0xdf63eaa1, 0xa2205f1f, 0x00000000, 16, 0x6d9d6122) == 0x12f3e755;
    assert Op(2, 0xa2205f1f, 0x12f3e755, 0xc3689f5b, 0xdf63eaa1, 0x00000000, 23, 0xfde5380c) == 0x004b6669;
    hide Op;
  }

  lemma EmptyRow9()
    ensures Row(Regs(0xdf63eaa1, 0x004b6669, 0x12f3e755, 0xc3689f5b), EMPTY_WORDS, 9)
         == Regs(0x5f7a9b2e, 0xc5dc8c15, 0x91ca4cb7, 0xabc34e16)
  {
    assert Op(2, 0xdf63eaa1, 0x004b6669, 0x12f3e755, 0xc3689f5b, 0x00000000, 4, 0xa4beea44) == 0x5f7a9b2e;
    assert Op(2, 0xc3689f5b, 0x5f7a9b2e, 0x004b6669, 0x12f3e755, 0x00000000, 11, 0x4bdecfa9) == 0xabc34e16;
    assert Op(2, 0x12f3e755, 0xabc34e16, 0x5f7a9b2e, 0x004b6669, 0x00000000, 16, 0xf6bb4b60) == 0x91ca4cb7;
    assert Op(2, 0x004b6669, 0x91ca4cb7, 0xabc34e16, 0x5f7a9b2e, 0x00000000, 23, 0xbebfbc70) == 0xc5dc8c15;
    hide Op;
  }

  lemma EmptyRow10()
    ensures Row(Regs(0x5f7a9b2e, 0xc5dc8c15, 0x91ca4cb7, 0xabc34e16), EMPTY_WORDS, 10)
         == Regs(0x4497169d, 0x0fe32453, 0xfd95f243, 0x76fd93d4)
  {
    assert Op(2, 0x5f7a9b2e, 0xc5dc8c15, 0x91ca4cb7, 0xabc34e16, 0x00000000, 4, 0x289b7ec6) == 0x4497169d;
    assert Op(2, 0xabc34e16, 0x4497169d, 0xc5dc8c15, 0x91ca4cb7, 0x00000080, 11, 0xeaa127fa) == 0x76fd93d4;
    assert Op(2, 0x91ca4cb7, 0x76fd93d4, 0x4497169d, 0xc5dc8c15, 0x00000000, 16, 0xd4ef3085) == 0xfd95f243;
    assert Op(2, 0xc5dc8c15, 0xfd95f243, 0x76fd93d4, 0x4497169d, 0x00000000, 23, 0x04881d05) == 0x0fe32453;
    hide Op;
  }

  lemma EmptyRow11()
    ensures Row(Regs(0x4497169d, 0x0fe32453, 0xfd95f243, 0x76fd93d4), EMPTY_WORDS, 11)
         == Regs(0x3f55edfd, 0xca7d2dbd, 0x68d84ea2, 0x22a31f54)
  {
    assert Op(2, 0x4497169d, 0x0fe32453, 0xfd95f243, 0x76fd93d4, 0x00000000, 4, 0xd9d4d039) == 0x3f55edfd;
    assert Op(2, 0x76fd93d4, 0x3f55edfd, 0x0fe32453, 0xfd95f243, 0x00000000, 11, 0xe6db99e5) == 0x22a31f54;
    assert Op(2, 0xfd95f243, 0x22a31f54, 0x3f55edfd, 0x0fe32453, 0x00000000, 16, 0x1fa27cf8) == 0x68d84ea2;
    assert Op(2, 0x0fe32453, 0x68d84ea2, 0x22a31f54, 0x3f55edfd, 0x00000000, 23, 0xc4ac5665) == 0xca7d2dbd;
    hide Op;
  }

  lemma EmptyRow12()
    ensures Row(Regs(0x3f55edfd, 0xca7d2dbd, 0x68d84ea2, 0x22a31f54), EMPTY_WORDS, 12)
         == Regs(0x93aa2577, 0x561e0689, 0xcd85b8cb, 0x1688dc85)
  {
    assert Op(3, 0x3f55edfd, 0xca7d2dbd, 0x68d84ea2, 0x22a31f54, 0x00000080, 6, 0xf4292244) == 0x93aa2577;
    assert Op(3, 0x22a31f54, 0x93aa2577, 0xca7d2dbd, 0x68d84ea2, 0x00000000, 10, 0x432aff97) == 0x1688dc85;
    assert Op(3, 0x68d84ea2, 0x1688dc85, 0x93aa2577, 0xca7d2dbd, 0x00000000, 15, 0xab9423a7) == 0xcd85b8cb;
    assert Op(3, 0xca7d2dbd, 0xcd85b8cb, 0x1688dc85, 0x93aa2577, 0x00000000, 21, 0xfc93a039) == 0x561e0689;
    hide Op;
  }

  lemma EmptyRow13()
    ensures Row(Regs(0x93aa2577, 0x561e0689, 0xcd85b8cb, 0x1688dc85), EMPTY_WORDS, 13)
         == Regs(0x5625a114, 0x1e77fa61, 0x392ad0d0, 0x3450f42b)
  {
    assert Op(3, 0x93aa2577, 0x561e0689, 0xcd85b8cb, 0x1688dc85, 0x00000000, 6, 0x655b59c3) == 0x5625a114;
    assert Op(3, 0x1688dc85, 0x5625a114, 0x561e0689, 0xcd85b8cb, 0x00000000, 10, 0x8f0ccc92) == 0x3450f42b;
    assert Op(3, 0xcd85b8cb, 0x3450f42b, 0x5625a114, 0x561e0689, 0x00000000, 15, 0xffeff47d) == 0x392ad0d0;
    assert Op(3, 0x561e0689, 0x392ad0d0, 0x3450f42b, 0x5625a114, 0x00000000, 21, 0x85845dd1) == 0x1e77fa61;
    hide Op;
  }

  lemma EmptyRow14()
    ensures Row(Regs(0x5625a114, 0x1e77fa61, 0x392ad0d0, 0x3450f42b), EMPTY_WORDS, 14)
         == Regs(0x474a9c8c, 0x30130182, 0x36594b14, 0xdfce00bc)
  {
    assert Op(3, 0x5625a114, 0x1e77fa61, 0x392ad0d0, 0x3450f42b, 0x00000000, 6, 0x6fa87e4f) == 0x474a9c8c;
    assert Op(3, 0x3450f42b, 0x474a9c8c, 0x1e77fa61, 0x392ad0d0, 0x00000000, 10, 0xfe2ce6e0) == 0xdfce00bc;
    assert Op(3, 0x392ad0d0, 0xdfce00bc, 0x474a9c8c, 0x1e77fa61, 0x00000000, 15, 0xa3014314) == 0x36594b14;
    assert Op(3, 0x1e77fa61, 0x36594b14, 0xdfce00bc, 0x474a9c8c, 0x00000000, 21, 0x4e0811a1) == 0x30130182;
    hide Op;
  }

  lemma EmptyRow15()
    ensures Row(Regs(0x474a9c8c, 0x30130182, 0x36594b14, 0xdfce00bc), EMPTY_WORDS, 15)
         == Regs(0x7246fad3, 0x14e45506, 0xff4ea3eb, 0x6e10a476)
  {
    assert Op(3, 0x474a9c8c, 0x30130182, 0x36594b14, 0xdfce00bc, 0x00000000, 6, 0xf7537e82) == 0x7246fad3;
    assert Op(3, 0xdfce00bc, 0x7246fad3, 0x30130182, 0x36594b14, 0x00000000, 10, 0xbd3af235) == 0x6e10a476;
    assert Op(3, 0x36594b14, 0x6e10a476, 0x7246fad3, 0x30130182, 0x00000000, 15, 0x2ad7d2bb) == 0xff4ea3eb;
    assert Op(3, 0x30130182, 0xff4ea3eb, 0x6e10a476, 0x7246fad3, 0x00000000, 21, 0xeb86d391) == 0x14e45506;
    hide Op;
  }

  lemma EmptyWords()
    ensures |EMPTY_BLOCK| == 64 && Words(EMPTY_BLOCK) == EMPTY_WORDS
  {
    hide Words;
    WordIs(EMPTY_BLOCK, 0, 0x80, 0x00, 0x00, 0x00, 0x00000080);
    forall k | 1 <= k < 16
      ensures Words(EMPTY_BLOCK)[k] == 0
    {
      WordIs(EMPTY_BLOCK, k, 0x00, 0x00, 0x00, 0x00, 0x00000000);
    }
  }

  lemma EmptyCompress()
    ensures |EMPTY_BLOCK| == 64 && Compress(Regs(0x67452301, 0xefcdab89, 0x98badcfe, 0x10325476), EMPTY_BLOCK)
         == Regs(0xd98c1dd4, 0x04b2008f, 0x980980e9, 0x7e42f8ec)
  {
    hide Row, Round;
    EmptyWords();
    EmptyRow0();
    EmptyRow1();
    EmptyRow2();
    EmptyRow3();
    FourRows(Regs(0x67452301, 0xefcdab89, 0x98badcfe, 0x10325476), EMPTY_WORDS, 0,
      Regs(0xa5202774, 0x1b163203, 0xe7f06b23, 0xf59592dd), Regs(0x32033344, 0x9bc13ce9, 0xf5b158db, 0x2f35d494),
      Regs(0x3893b991, 0x70768a29, 0xe1ef0576, 0xfce4a312), Regs(0xf56c7cf1, 0xd6819c6a, 0x5aa53f75, 0x374943a7));
    EmptyRow4();
    EmptyRow5();
    EmptyRow6();
    EmptyRow7();
    FourRows(Regs(0xf56c7cf1, 0xd6819c6a, 0x5aa53f75, 0x374943a7), EMPTY_WORDS, 1,
      Regs(0x1c7d7513, 0xbd782e17, 0xc095f13a, 0x7bd57a3a), Regs(0x3d1e3e6c, 0xe422531a, 0xeb41643e, 0x68b7b3e3),
      Regs(0x306ec122, 0xa0572807, 0xa3c663da, 0xd28c77c2), Regs(0x13707036, 0xa2205f1f, 0x1c31c384, 0xae7813db));
    EmptyRow8();
    EmptyRow9();
    EmptyRow10();
    EmptyRow11();
    FourRows(Regs(0x13707036, 0xa2205f1f, 0x1c31c384, 0xae7813db), EMPTY_WORDS, 2,
      Regs(0xdf63eaa1, 0x004b6669, 0x12f3e755, 0xc3689f5b), Regs(0x5f7a9b2e, 0xc5dc8c15, 0x91ca4cb7, 0xabc34e16),
      Regs(0x4497169d, 0x0fe32453, 0xfd95f243, 0x76fd93d4), Regs(0x3f55edfd, 0xca7d2dbd, 0x68d84ea2, 0x22a31f54));
    EmptyRow12();
    EmptyRow13();
    EmptyRow14();
    EmptyRow15();
    FourRows(Regs(0x3f55edfd, 0xca7d2dbd, 0x68d84ea2, 0x22a31f54), EMPTY_WORDS, 3,
      Regs(0x93aa2577, 0x561e0689, 0xcd85b8cb, 0x1688dc85), Regs(0x5625a114, 0x1e77fa61, 0x392ad0d0, 0x3450f42b),
      Regs(0x474a9c8c, 0x30130182, 0x36594b14, 0xdfce00bc), Regs(0x7246fad3, 0x14e45506, 0xff4ea3eb, 0x6e10a476));
    FourRounds(Regs(0x67452301, 0xefcdab89, 0x98badcfe, 0x10325476), EMPTY_BLOCK, EMPTY_WORDS,
      Regs(0xf56c7cf1, 0xd6819c6a, 0x5aa53f75, 0x374943a7), Regs(0x13707036, 0xa2205f1f, 0x1c31c384, 0xae7813db),
      Regs(0x3f55edfd, 0xca7d2dbd, 0x68d84ea2, 0x22a31f54), Regs(0x7246fad3, 0x14e45506, 0xff4ea3eb, 0x6e10a476));
    hide Compress;
  }

  lemma OutputEmpty()
    ensures Output(Regs(0xd98c1dd4, 0x04b2008f, 0x980980e9, 0x7e42f8ec)) == [
    0xd4, 0x1d, 0x8c, 0xd9, 0x8f, 0x00, 0xb2, 0x04, 0xe9, 0x80, 0x09, 0x98, 0xec, 0xf8, 0x42, 0x7e]
  {
    assert WordBytes(0xd98c1dd4) == [0xd4, 0x1d, 0x8c, 0xd9];
    assert WordBytes(0x04b2008f) == [0x8f, 0x00, 0xb2, 0x04];
    assert WordBytes(0x980980e9) == [0xe9, 0x80, 0x09, 0x98];
    assert WordBytes(0x7e42f8ec) == [0xec, 0xf8, 0x42, 0x7e];
    hide WordBytes;
  }

  lemma EmptyPadded()
    ensures Padded([]) == EMPTY_BLOCK
  {
    hide LengthBytes, ZerosNeeded;
    Sizes();
  }

  /** RFC 1321, appendix A.5: MD5 ("") = d41d8cd98f00b204e9800998ecf8427e. */
  lemma DigestOfEmpty()
    ensures Digest([]) == [
    0xd4, 0x1d, 0x8c, 0xd9, 0x8f, 0x00, 0xb2, 0x04, 0xe9, 0x80, 0x09, 0x98, 0xec, 0xf8, 0x42, 0x7e]
  {
    hide Padded, Compress, Output, Blocks;
    EmptyPadded();
    EmptyCompress();
    OneBlock(INITIAL, EMPTY_BLOCK);
    OutputEmpty();
  }

  const FIRST: seq<Byte> := [
    0x41, 0x42, 0x43, 0x44, 0x45, 0x46, 0x47, 0x48, 0x49, 0x4a, 0x4b, 0x4c, 0x4d, 0x4e, 0x4f, 0x50]

  const SECOND: seq<Byte> := [
    0x51, 0x52, 0x53, 0x54, 0x55, 0x56, 0x57, 0x58, 0x59, 0x5a, 0x61, 0x62, 0x63, 0x64, 0x65, 0x66]

  const THIRD: seq<Byte> := [
    0x67, 0x68, 0x69, 0x6a, 0x6b, 0x6c, 0x6d, 0x6e, 0x6f, 0x70, 0x71, 0x72, 0x73, 0x74, 0x75, 0x76]

  const FOURTH: seq<Byte> := [
    0x77, 0x78, 0x79, 0x7a, 0x30, 0x31, 0x32, 0x33, 0x34, 0x35, 0x36, 0x37, 0x38, 0x39]

  /** The capital letters, the small letters and the digits. */
  const ALNUM: seq<Byte> := FIRST + SECOND + THIRD + FOURTH

  const ALNUM1_WORDS: seq<bv32> := [
    0x44434241, 0x48474645, 0x4c4b4a49, 0x504f4e4d, 0x54535251, 0x58575655, 0x62615a59, 0x66656463, 0x6a696867,
    0x6e6d6c6b, 0x7271706f, 0x76757473, 0x7a797877, 0x33323130, 0x37363534, 0x00803938]

  const ALNUM1_BLOCK: seq<Byte> := ALNUM + [0x80, 0x00]

  lemma Alnum1Row0()
    ensures Row(Regs(0x67452301, 0xefcdab89, 0x98badcfe, 0x10325476), ALNUM1_WORDS, 0)
         == Regs(0xc6c10796, 0x27bce07a, 0x11067980, 0x99a09999)
  {
    assert Op(0, 0x67452301, 0xefcdab89, 0x98badcfe, 0x10325476, 0x44434241, 7, 0xd76aa478) == 0xc6c10796;
    assert Op(0, 0x10325476, 0xc6c10796, 0xefcdab89, 0x98badcfe, 0x48474645, 12, 0xe8c7b756) == 0x99a09999;
    assert Op(0, 0x98badcfe, 0x99a09999, 0xc6c10796, 0xefcdab89, 0x4c4b4a49, 17, 0x242070db) == 0x11067980;
    assert Op(0, 0xefcdab89, 0x11067980, 0x99a09999, 0xc6c10796, 0x504f4e4d, 22, 0xc1bdceee) == 0x27bce07a;
    hide Op;
  }

  lemma Alnum1Row1()
    ensures Row(Regs(0xc6c10796, 0x27bce07a, 0x11067980, 0x99a09999), ALNUM1_WORDS, 1)
         == Regs(0xf22e6c4e, 0xa4799506, 0xa95a2fc0, 0xb4ac9218)
  {
    assert Op(0, 0xc6c10796, 0x27bce07a, 0x11067980, 0x99a09999, 0x54535251, 7, 0xf57c0faf) == 0xf22e6c4e;
    assert Op(0, 0x99a09999, 0xf22e6c4e, 0x27bce07a, 0x11067980, 0x58575655, 12, 0x4787c62a) == 0xb4ac9218;
    assert Op(0, 0x11067980, 0xb4ac9218, 0xf22e6c4e, 0x27bce07a, 0x62615a59, 17, 0xa8304613) == 0xa95a2fc0;
    assert Op(0, 0x27bce07a, 0xa95a2fc0, 0xb4ac9218, 0xf22e6c4e, 0x66656463, 22, 0xfd469501) == 0xa4799506;
    hide Op;
  }

  lemma Alnum1Row2()
    ensures Row(Regs(0xf22e6c4e, 0xa4799506, 0xa95a2fc0, 0xb4ac9218), ALNUM1_WORDS, 2)
         == Regs(0x1eb3e7c1, 0x8a7612ec, 0xca27520b, 0xa6e70cfe)
  {
    assert Op(0, 0xf22e6c4e, 0xa4799506, 0xa95a2fc0, 0xb4ac9218, 0x6a696867, 7, 0x698098d8) == 0x1eb3e7c1;
    assert Op(0, 0xb4ac9218, 0x1eb3e7c1, 0xa4799506, 0xa95a2fc0, 0x6e6d6c6b, 12, 0x8b44f7af) == 0xa6e70cfe;
    assert Op(0, 0xa95a2fc0, 0xa6e70cfe, 0x1eb3e7c1, 0xa4799506, 0x7271706f, 17, 0xffff5bb1) == 0xca27520b;
    assert Op(0, 0xa4799506, 0xca27520b, 0xa6e70cfe, 0x1eb3e7c1, 0x76757473, 22, 0x895cd7be) == 0x8a7612ec;
    hide Op;
  }

  lemma Alnum1Row3()
    ensures Row(Regs(0x1eb3e7c1, 0x8a7612ec, 0xca27520b, 0xa6e70cfe), ALNUM1_WORDS, 3)
         == Regs(0x3cbdcd45, 0x5d38e690, 0xfa148c8a, 0xb8dec763)
  {
    assert Op(0, 0x1eb3e7c1, 0x8a7612ec, 0xca27520b, 0xa6e70cfe, 0x7a797877, 7, 0x6b901122) == 0x3cbdcd45;
    assert Op(0, 0xa6e70cfe, 0x3cbdcd45, 0x8a7612ec, 0xca27520b, 0x33323130, 12, 0xfd987193) == 0xb8dec763;
    assert Op(0, 0xca27520b, 0xb8dec763, 0x3cbdcd45, 0x8a7612ec, 0x37363534, 17, 0xa679438e) == 0xfa148c8a;
    assert Op(0, 0x8a7612ec, 0xfa148c8a, 0xb8dec763, 0x3cbdcd45, 0x00803938, 22, 0x49b40821) == 0x5d38e690;
    hide Op;
  }

  lemma Alnum1Row4()
    ensures Row(Regs(0x3cbdcd45, 0x5d38e690, 0xfa148c8a, 0xb8dec763), ALNUM1_WORDS, 4)
         == Regs(0x04b9d52a, 0x47ae7c81, 0xd3ee3ed1, 0x783002eb)
  {
    assert Op(1, 0x3cbdcd45, 0x5d38e690, 0xfa148c8a, 0xb8dec763, 0x48474645, 5, 0xf61e2562) == 0x04b9d52a;
    assert Op(1, 0xb8dec763, 0x04b9d52a, 0x5d38e690, 0xfa148c8a, 0x62615a59, 9, 0xc040b340) == 0x783002eb;
    assert Op(1, 0xfa148c8a, 0x783002eb, 0x04b9d52a, 0x5d38e690, 0x76757473, 14, 0x265e5a51) == 0xd3ee3ed1;
    assert Op(1, 0x5d38e690, 0xd3ee3ed1, 0x783002eb, 0x04b9d52a, 0x44434241, 20, 0xe9b6c7aa) == 0x47ae7c81;
    hide Op;
  }

  lemma Alnum1Row5()
    ensures Row(Regs(0x04b9d52a, 0x47ae7c81, 0xd3ee3ed1, 0x783002eb), ALNUM1_WORDS, 5)
         == Regs(0x2d7d8a3f, 0x75292030, 0x4b534dc3, 0xd1210823)
  {
    assert Op(1, 0x04b9d52a, 0x47ae7c81, 0xd3ee3ed1, 0x783002eb, 0x58575655, 5, 0xd62f105d) == 0x2d7d8a3f;
    assert Op(1, 0x783002eb, 0x2d7d8a3f, 0x47ae7c81, 0xd3ee3ed1, 0x7271706f, 9, 0x02441453) == 0xd1210823;
    assert Op(1, 0xd3ee3ed1, 0xd1210823, 0x2d7d8a3f, 0x47ae7c81, 0x00803938, 14, 0xd8a1e681) == 0x4b534dc3;
    assert Op(1, 0x47ae7c81, 0x4b534dc3, 0xd1210823, 0x2d7d8a3f, 0x54535251, 20, 0xe7d3fbc8) == 0x75292030;
    hide Op;
  }

  lemma Alnum1Row6()
    ensures Row(Regs(0x2d7d8a3f, 0x75292030, 0x4b534dc3, 0xd1210823), ALNUM1_WORDS, 6)
         == Regs(0x9d2a6e33, 0xf2ff6ea0, 0xd473b564, 0x0e8d2e44)
  {
    assert Op(1, 0x2d7d8a3f, 0x75292030, 0x4b534dc3, 0xd1210823, 0x6e6d6c6b, 5, 0x21e1cde6) == 0x9d2a6e33;
    assert Op(1, 0xd1210823, 0x9d2a6e33, 0x75292030, 0x4b534dc3, 0x37363534, 9, 0xc33707d6) == 0x0e8d2e44;
    assert Op(1, 0x4b534dc3, 0x0e8d2e44, 0x9d2a6e33, 0x75292030, 0x504f4e4d, 14, 0xf4d50d87) == 0xd473b564;
    assert Op(1, 0x75292030, 0xd473b564, 0x0e8d2e44, 0x9d2a6e33, 0x6a696867, 20, 0x455a14ed) == 0xf2ff6ea0;
    hide Op;
  }

  lemma Alnum1Row7()
    ensures Row(Regs(0x9d2a6e33, 0xf2ff6ea0, 0xd473b564, 0x0e8d2e44), ALNUM1_WORDS, 7)
         == Regs(0x9b085fa9, 0xdd789ecc, 0x5993248f, 0x4400a9bd)
  {
    assert Op(1, 0x9d2a6e33, 0xf2ff6ea0, 0xd473b564, 0x0e8d2e44, 0x33323130, 5, 0xa9e3e905) == 0x9b085fa9;
    assert Op(1, 0x0e8d2e44, 0x9b085fa9, 0xf2ff6ea0, 0xd473b564, 0x4c4b4a49, 9, 0xfcefa3f8) == 0x4400a9bd;
    assert Op(1, 0xd473b564, 0x4400a9bd, 0x9b085fa9, 0xf2ff6ea0, 0x66656463, 14, 0x676f02d9) == 0x5993248f;
    assert Op(1, 0xf2ff6ea0, 0x5993248f, 0x4400a9bd, 0x9b085fa9, 0x7a797877, 20, 0x8d2a4c8a) == 0xdd789ecc;
    hide Op;
  }

  lemma Alnum1Row8()
    ensures Row(Regs(0x9b085fa9, 0xdd789ecc, 0x5993248f, 0x4400a9bd), ALNUM1_WORDS, 8)
         == Regs(0x21c8d2b7, 0x1b9504f8, 0x056ec119, 0x1d55a18e)
  {
    assert Op(2, 0x9b085fa9, 0xdd789ecc, 0x5993248f, 0x4400a9bd, 0x58575655, 4, 0xfffa3942) == 0x21c8d2b7;
    assert Op(2, 0x4400a9bd, 0x21c8d2b7, 0xdd789ecc, 0x5993248f, 0x6a696867, 11, 0x8771f681) == 0x1d55a18e;
    assert Op(2, 0x5993248f, 0x1d55a18e, 0x21c8d2b7, 0xdd789ecc, 0x76757473, 16, 0x6d9d6122) == 0x056ec119;
    assert Op(2, 0xdd789ecc, 0x056ec119, 0x1d55a18e, 0x21c8d2b7, 0x37363534, 23, 0xfde5380c) == 0x1b9504f8;
    hide Op;
  }

  lemma Alnum1Row9()
    ensures Row(Regs(0x21c8d2b7, 0x1b9504f8, 0x056ec119, 0x1d55a18e), ALNUM1_WORDS, 9)
         == Regs(0x436b7fe9, 0xcf0341ed, 0xf404c2f6, 0x075800c1)
  {
    assert Op(2, 0x21c8d2b7, 0x1b9504f8, 0x056ec119, 0x1d55a18e, 0x48474645, 4, 0xa4beea44) == 0x436b7fe9;
    assert Op(2, 0x1d55a18e, 0x436b7fe9, 0x1b9504f8, 0x056ec119, 0x54535251, 11, 0x4bdecfa9) == 0x075800c1;
    assert Op(2, 0x056ec119, 0x075800c1, 0x436b7fe9, 0x1b9504f8, 0x66656463, 16, 0xf6bb4b60) == 0xf404c2f6;
    assert Op(2, 0x1b9504f8, 0xf404c2f6, 0x075800c1, 0x436b7fe9, 0x7271706f, 23, 0xbebfbc70) == 0xcf0341ed;
    hide Op;
  }

  lemma Alnum1Row10()
    ensures Row(Regs(0x436b7fe9, 0xcf0341ed, 0xf404c2f6, 0x075800c1), ALNUM1_WORDS, 10)
         == Regs(0x888e7d8a, 0x047b9419, 0xce620273, 0xbbdaecd8)
  {
    assert Op(2, 0x436b7fe9, 0xcf0341ed, 0xf404c2f6, 0x075800c1, 0x33323130, 4, 0x289b7ec6) == 0x888e7d8a;
    assert Op(2, 0x075800c1, 0x888e7d8a, 0xcf0341ed, 0xf404c2f6, 0x44434241, 11, 0xeaa127fa) == 0xbbdaecd8;
    assert Op(2, 0xf404c2f6, 0xbbdaecd8, 0x888e7d8a, 0xcf0341ed, 0x504f4e4d, 16, 0xd4ef3085) == 0xce620273;
    assert Op(2, 0xcf0341ed, 0xce620273, 0xbbdaecd8, 0x888e7d8a, 0x62615a59, 23, 0x04881d05) == 0x047b9419;
    hide Op;
  }

  lemma Alnum1Row11()
    ensures Row(Regs(0x888e7d8a, 0x047b9419, 0xce620273, 0xbbdaecd8), ALNUM1_WORDS, 11)
         == Regs(0x2dbee21d, 0xf166f514, 0xee46e961, 0xe95c3a43)
  {
    assert Op(2, 0x888e7d8a, 0x047b9419, 0xce620273, 0xbbdaecd8, 0x6e6d6c6b, 4, 0xd9d4d039) == 0x2dbee21d;
    assert Op(2, 0xbbdaecd8, 0x2dbee21d, 0x047b9419, 0xce620273, 0x7a797877, 11, 0xe6db99e5) == 0xe95c3a43;
    assert Op(2, 0xce620273, 0xe95c3a43, 0x2dbee21d, 0x047b9419, 0x00803938, 16, 0x1fa27cf8) == 0xee46e961;
    assert Op(2, 0x047b9419, 0xee46e961, 0xe95c3a43, 0x2dbee21d, 0x4c4b4a49, 23, 0xc4ac5665) == 0xf166f514;
    hide Op;
  }

  lemma Alnum1Row12()
    ensures Row(Regs(0x2dbee21d, 0xf166f514, 0xee46e961, 0xe95c3a43), ALNUM1_WORDS, 12)
         == Regs(0xe47fd4f3, 0x7a13bc5c, 0xf22aedcc, 0xfb887751)
  {
    assert Op(3, 0x2dbee21d, 0xf166f514, 0xee46e961, 0xe95c3a43, 0x44434241, 6, 0xf4292244) == 0xe47fd4f3;
    assert Op(3, 0xe95c3a43, 0xe47fd4f3, 0xf166f514, 0xee46e961, 0x66656463, 10, 0x432aff97) == 0xfb887751;
    assert Op(3, 0xee46e961, 0xfb887751, 0xe47fd4f3, 0xf166f514, 0x37363534, 15, 0xab9423a7) == 0xf22aedcc;
    assert Op(3, 0xf166f514, 0xf22aedcc, 0xfb887751, 0xe47fd4f3, 0x58575655, 21, 0xfc93a039) == 0x7a13bc5c;
    hide Op;
  }

  lemma Alnum1Row13()
    ensures Row(Regs(0xe47fd4f3, 0x7a13bc5c, 0xf22aedcc, 0xfb887751), ALNUM1_WORDS, 13)
         == Regs(0xa691d430, 0xefb0e72f, 0x3fc23df6, 0x528452f2)
  {
    assert Op(3, 0xe47fd4f3, 0x7a13bc5c, 0xf22aedcc, 0xfb887751, 0x7a797877, 6, 0x655b59c3) == 0xa691d430;
    assert Op(3, 0xfb887751, 0xa691d430, 0x7a13bc5c, 0xf22aedcc, 0x504f4e4d, 10, 0x8f0ccc92) == 0x528452f2;
    assert Op(3, 0xf22aedcc, 0x528452f2, 0xa691d430, 0x7a13bc5c, 0x7271706f, 15, 0xffeff47d) == 0x3fc23df6;
    assert Op(3, 0x7a13bc5c, 0x3fc23df6, 0x528452f2, 0xa691d430, 0x48474645, 21, 0x85845dd1) == 0xefb0e72f;
    hide Op;
  }

  lemma Alnum1Row14()
    ensures Row(Regs(0xa691d430, 0xefb0e72f, 0x3fc23df6, 0x528452f2), ALNUM1_WORDS, 14)
         == Regs(0x27145703, 0x49d9a5b4, 0x374fbe79, 0x21a11069)
  {
    assert Op(3, 0xa691d430, 0xefb0e72f, 0x3fc23df6, 0x528452f2, 0x6a696867, 6, 0x6fa87e4f) == 0x27145703;
    assert Op(3, 0x528452f2, 0x27145703, 0xefb0e72f, 0x3fc23df6, 0x00803938, 10, 0xfe2ce6e0) == 0x21a11069;
    assert Op(3, 0x3fc23df6, 0x21a11069, 0x27145703, 0xefb0e72f, 0x62615a59, 15, 0xa3014314) == 0x374fbe79;
    assert Op(3, 0xefb0e72f, 0x374fbe79, 0x21a11069, 0x27145703, 0x33323130, 21, 0x4e0811a1) == 0x49d9a5b4;
    hide Op;
  }

  lemma Alnum1Row15()
    ensures Row(Regs(0x27145703, 0x49d9a5b4, 0x374fbe79, 0x21a11069), ALNUM1_WORDS, 15)
         == Regs(0x1cb80f0a, 0xef2e3a46, 0x10f68731, 0xea3d3eb4)
  {
    assert Op(3, 0x27145703, 0x49d9a5b4, 0x374fbe79, 0x21a11069, 0x54535251, 6, 0xf7537e82) == 0x1cb80f0a;
    assert Op(3, 0x21a11069, 0x1cb80f0a, 0x49d9a5b4, 0x374fbe79, 0x76757473, 10, 0xbd3af235) == 0xea3d3eb4;
    assert Op(3, 0x374fbe79, 0xea3d3eb4, 0x1cb80f0a, 0x49d9a5b4, 0x4c4b4a49, 15, 0x2ad7d2bb) == 0x10f68731;
    assert Op(3, 0x49d9a5b4, 0x10f68731, 0xea3d3eb4, 0x1cb80f0a, 0x6e6d6c6b, 21, 0xeb86d391) == 0xef2e3a46;
    hide Op;
  }

  lemma Words0()
    ensures |FIRST| == 16
    ensures Word(FIRST, 0) == 0x44434241 && Word(FIRST, 1) == 0x48474645
    ensures Word(FIRST, 2) == 0x4c4b4a49 && Word(FIRST, 3) == 0x504f4e4d
  {
  }

  lemma Words1()
    ensures |SECOND| == 16
    ensures Word(SECOND, 0) == 0x54535251 && Word(SECOND, 1) == 0x58575655
    ensures Word(SECOND, 2) == 0x62615a59 && Word(SECOND, 3) == 0x66656463
  {
  }

  lemma Words2()
    ensures |THIRD| == 16
    ensures Word(THIRD, 0) == 0x6a696867 && Word(THIRD, 1) == 0x6e6d6c6b
    ensures Word(THIRD, 2) == 0x7271706f && Word(THIRD, 3) == 0x76757473
  {
  }

  lemma Words3()
    ensures |FOURTH + [0x80, 0x00]| == 16
    ensures Word(FOURTH + [0x80, 0x00], 0) == 0x7a797877 && Word(FOURTH + [0x80, 0x00], 1) == 0x33323130
    ensures Word(FOURTH + [0x80, 0x00], 2) == 0x37363534 && Word(FOURTH + [0x80, 0x00], 3) == 0x00803938
  {
  }

  lemma Alnum1Words()
    ensures |ALNUM1_BLOCK| == 64 && Words(ALNUM1_BLOCK) == ALNUM1_WORDS
  {
    Words0();
    Words1();
    Words2();
    Words3();
    hide FIRST, SECOND, THIRD, FOURTH, Word, Words;
    var last := FOURTH + [0x80, 0x00];
    var b := ALNUM1_BLOCK;
    assert b == FIRST + SECOND + THIRD + last;
    QuarterWords(b, 0, FIRST);
    QuarterWords(b, 1, SECOND);
    QuarterWords(b, 2, THIRD);
    QuarterWords(b, 3, last);
    assert Words(b) == Words(b)[0..4] + Words(b)[4..8] + Words(b)[8..12] + Words(b)[12..16];
  }

  lemma Alnum1Compress()
    ensures |ALNUM1_BLOCK| == 64 && Compress(Regs(0x67452301, 0xefcdab89, 0x98badcfe, 0x10325476), ALNUM1_BLOCK)
         == Regs(0x83fd320b, 0xdefbe5cf, 0xa9b1642f, 0xfa6f932a)
  {
    hide Row, Round;
    Alnum1Words();
    Alnum1Row0();
    Alnum1Row1();
    Alnum1Row2();
    Alnum1Row3();
    FourRows(Regs(0x67452301, 0xefcdab89, 0x98badcfe, 0x10325476), ALNUM1_WORDS, 0,
      Regs(0xc6c10796, 0x27bce07a, 0x11067980, 0x99a09999), Regs(0xf22e6c4e, 0xa4799506, 0xa95a2fc0, 0xb4ac9218),
      Regs(0x1eb3e7c1, 0x8a7612ec, 0xca27520b, 0xa6e70cfe), Regs(0x3cbdcd45, 0x5d38e690, 0xfa148c8a, 0xb8dec763));
    Alnum1Row4();
    Alnum1Row5();
    Alnum1Row6();
    Alnum1Row7();
    FourRows(Regs(0x3cbdcd45, 0x5d38e690, 0xfa148c8a, 0xb8dec763), ALNUM1_WORDS, 1,
      Regs(0x04b9d52a, 0x47ae7c81, 0xd3ee3ed1, 0x783002eb), Regs(0x2d7d8a3f, 0x75292030, 0x4b534dc3, 0xd1210823),
      Regs(0x9d2a6e33, 0xf2ff6ea0, 0xd473b564, 0x0e8d2e44), Regs(0x9b085fa9, 0xdd789ecc, 0x5993248f, 0x4400a9bd));
    Alnum1Row8();
    Alnum1Row9();
    Alnum1Row10();
    Alnum1Row11();
    FourRows(Regs(0x9b085fa9, 0xdd789ecc, 0x5993248f, 0x4400a9bd), ALNUM1_WORDS, 2,
      Regs(0x21c8d2b7, 0x1b9504f8, 0x056ec119, 0x1d55a18e), Regs(0x436b7fe9, 0xcf0341ed, 0xf404c2f6, 0x075800c1),
      Regs(0x888e7d8a, 0x047b9419, 0xce620273, 0xbbdaecd8), Regs(0x2dbee21d, 0xf166f514, 0xee46e961, 0xe95c3a43));
    Alnum1Row12();
    Alnum1Row13();
    Alnum1Row14();
    Alnum1Row15();
    FourRows(Regs(0x2dbee21d, 0xf166f514, 0xee46e961, 0xe95c3a43), ALNUM1_WORDS, 3,
      Regs(0xe47fd4f3, 0x7a13bc5c, 0xf22aedcc, 0xfb887751), Regs(0xa691d430, 0xefb0e72f, 0x3fc23df6, 0x528452f2),
      Regs(0x27145703, 0x49d9a5b4, 0x374fbe79, 0x21a11069), Regs(0x1cb80f0a, 0xef2e3a46, 0x10f68731, 0xea3d3eb4));
    FourRounds(Regs(0x67452301, 0xefcdab89, 0x98badcfe, 0x10325476), ALNUM1_BLOCK, ALNUM1_WORDS,
      Regs(0x3cbdcd45, 0x5d38e690, 0xfa148c8a, 0xb8dec763), Regs(0x9b085fa9, 0xdd789ecc, 0x5993248f, 0x4400a9bd),
      Regs(0x2dbee21d, 0xf166f514, 0xee46e961, 0xe95c3a43), Regs(0x1cb80f0a, 0xef2e3a46, 0x10f68731, 0xea3d3eb4));
    hide Compress;
  }

  const ALNUM2_WORDS: seq<bv32> := [
    0x00000000, 0x00000000, 0x00000000, 0x00000000, 0x00000000, 0x00000000, 0x00000000, 0x00000000, 0x00000000,
    0x00000000, 0x00000000, 0x00000000, 0x00000000, 0x00000000, 0x000001f0, 0x00000000]

  const ALNUM2_BLOCK: seq<Byte> := Zeros(56) + [0xf0, 0x01, 0x00, 0x00, 0x00, 0x00, 0x00, 0x00]

  lemma Alnum2Row0()
    ensures Row(Regs(0x83fd320b, 0xdefbe5cf, 0xa9b1642f, 0xfa6f932a), ALNUM2_WORDS, 0)
         == Regs(0xeda23ed1, 0xddcf0634, 0x3c307338, 0x989939cf)
  {
    assert Op(0, 0x83fd320b, 0xdefbe5cf, 0xa9b1642f, 0xfa6f932a, 0x00000000, 7, 0xd76aa478) == 0xeda23ed1;
    assert Op(0, 0xfa6f932a, 0xeda23ed1, 0xdefbe5cf, 0xa9b1642f, 0x00000000, 12, 0xe8c7b756) == 0x989939cf;
    assert Op(0, 0xa9b1642f, 0x989939cf, 0xeda23ed1, 0xdefbe5cf, 0x00000000, 17, 0x242070db) == 0x3c307338;
    assert Op(0, 0xdefbe5cf, 0x3c307338, 0x989939cf, 0xeda23ed1, 0x00000000, 22, 0xc1bdceee) == 0xddcf0634;
    hide Op;
  }

  lemma Alnum2Row1()
    ensures Row(Regs(0xeda23ed1, 0xddcf0634, 0x3c307338, 0x989939cf), ALNUM2_WORDS, 1)
         == Regs(0x75144433, 0x99b6b699, 0xc783cb60, 0xc8875807)
  {
    assert Op(0, 0xeda23ed1, 0xddcf0634, 0x3c307338, 0x989939cf, 0x00000000, 7, 0xf57c0faf) == 0x75144433;
    assert Op(0, 0x989939cf, 0x75144433, 0xddcf0634, 0x3c307338, 0x00000000, 12, 0x4787c62a) == 0xc8875807;
    assert Op(0, 0x3c307338, 0xc8875807, 0x75144433, 0xddcf0634, 0x00000000, 17, 0xa8304613) == 0xc783cb60;
    assert Op(0, 0xddcf0634, 0xc783cb60, 0xc8875807, 0x75144433, 0x00000000, 22, 0xfd469501) == 0x99b6b699;
    hide Op;
  }

  lemma Alnum2Row2()
    ensures Row(Regs(0x75144433, 0x99b6b699, 0xc783cb60, 0xc8875807), ALNUM2_WORDS, 2)
         == Regs(0xa60a3f69, 0x64cc7c5a, 0x64db26e9, 0xaa6630be)
  {
    assert Op(0, 0x75144433, 0x99b6b699, 0xc783cb60, 0xc8875807, 0x00000000, 7, 0x698098d8) == 0xa60a3f69;
    assert Op(0, 0xc8875807, 0xa60a3f69, 0x99b6b699, 0xc783cb60, 0x00000000, 12, 0x8b44f7af) == 0xaa6630be;
    assert Op(0, 0xc783cb60, 0xaa6630be, 0xa60a3f69, 0x99b6b699, 0x00000000, 17, 0xffff5bb1) == 0x64db26e9;
    assert Op(0, 0x99b6b699, 0x64db26e9, 0xaa6630be, 0xa60a3f69, 0x00000000, 22, 0x895cd7be) == 0x64cc7c5a;
    hide Op;
  }

  lemma Alnum2Row3()
    ensures Row(Regs(0xa60a3f69, 0x64cc7c5a, 0x64db26e9, 0xaa6630be), ALNUM2_WORDS, 3)
         == Regs(0xa70737da, 0xa36f556f, 0x96f6586e, 0x5473f8a7)
  {
    assert Op(0, 0xa60a3f69, 0x64cc7c5a, 0x64db26e9, 0xaa6630be, 0x00000000, 7, 0x6b901122) == 0xa70737da;
    assert Op(0, 0xaa6630be, 0xa70737da, 0x64cc7c5a, 0x64db26e9, 0x00000000, 12, 0xfd987193) == 0x5473f8a7;
    assert Op(0, 0x64db26e9, 0x5473f8a7, 0xa70737da, 0x64cc7c5a, 0x000001f0, 17, 0xa679438e) == 0x96f6586e;
    assert Op(0, 0x64cc7c5a, 0x96f6586e, 0x5473f8a7, 0xa70737da, 0x00000000, 22, 0x49b40821) == 0xa36f556f;
    hide Op;
  }

  lemma Alnum2Row4()
    ensures Row(Regs(0xa70737da, 0xa36f556f, 0x96f6586e, 0x5473f8a7), ALNUM2_WORDS, 4)
         == Regs(0xa5050ad3, 0x82b8827c, 0x27dcd8b4, 0x28776046)
  {
    assert Op(1, 0xa70737da, 0xa36f556f, 0x96f6586e, 0x5473f8a7, 0x00000000, 5, 0xf61e2562) == 0xa5050ad3;
    assert Op(1, 0x5473f8a7, 0xa5050ad3, 0xa36f556f, 0x96f6586e, 0x00000000, 9, 0xc040b340) == 0x28776046;
    assert Op(1, 0x96f6586e, 0x28776046, 0xa5050ad3, 0xa36f556f, 0x00000000, 14, 0x265e5a51) == 0x27dcd8b4;
    assert Op(1, 0xa36f556f, 0x27dcd8b4, 0x28776046, 0xa5050ad3, 0x00000000, 20, 0xe9b6c7aa) == 0x82b8827c;
    hide Op;
  }

  lemma Alnum2Row5()
    ensures Row(Regs(0xa5050ad3, 0x82b8827c, 0x27dcd8b4, 0x28776046), ALNUM2_WORDS, 5)
         == Regs(0xe04f070c, 0xdf35cb56, 0xc0d22b61, 0x2f3cd2a2)
  {
    assert Op(1, 0xa5050ad3, 0x82b8827c, 0x27dcd8b4, 0x28776046, 0x00000000, 5, 0xd62f105d) == 0xe04f070c;
    assert Op(1, 0x28776046, 0xe04f070c, 0x82b8827c, 0x27dcd8b4, 0x00000000, 9, 0x02441453) == 0x2f3cd2a2;
    assert Op(1, 0x27dcd8b4, 0x2f3cd2a2, 0xe04f070c, 0x82b8827c, 0x00000000, 14, 0xd8a1e681) == 0xc0d22b61;
    assert Op(1, 0x82b8827c, 0xc0d22b61, 0x2f3cd2a2, 0xe04f070c, 0x00000000, 20, 0xe7d3fbc8) == 0xdf35cb56;
    hide Op;
  }

  lemma Alnum2Row6()
    ensures Row(Regs(0xe04f070c, 0xdf35cb56, 0xc0d22b61, 0x2f3cd2a2), ALNUM2_WORDS, 6)
         == Regs(0x242dd210, 0x2291191a, 0x5c295967, 0x576ace33)
  {
    assert Op(1, 0xe04f070c, 0xdf35cb56, 0xc0d22b61, 0x2f3cd2a2, 0x00000000, 5, 0x21e1cde6) == 0x242dd210;
    assert Op(1, 0x2f3cd2a2, 0x242dd210, 0xdf35cb56, 0xc0d22b61, 0x000001f0, 9, 0xc33707d6) == 0x576ace33;
    assert Op(1, 0xc0d22b61, 0x576ace33, 0x242dd210, 0xdf35cb56, 0x00000000, 14, 0xf4d50d87) == 0x5c295967;
    assert Op(1, 0xdf35cb56, 0x5c295967, 0x576ace33, 0x242dd210, 0x00000000, 20, 0x455a14ed) == 0x2291191a;
    hide Op;
  }

  lemma Alnum2Row7()
    ensures Row(Regs(0x242dd210, 0x2291191a, 0x5c295967, 0x576ace33), ALNUM2_WORDS, 7)
         == Regs(0x24eba695, 0x9c03e2e8, 0x10c42a2f, 0x4bd0378b)
  {
    assert Op(1, 0x242dd210, 0x2291191a, 0x5c295967, 0x576ace33, 0x00000000, 5, 0xa9e3e905) == 0x24eba695;
    assert Op(1, 0x576ace33, 0x24eba695, 0x2291191a, 0x5c295967, 0x00000000, 9, 0xfcefa3f8) == 0x4bd0378b;
    assert Op(1, 0x5c295967, 0x4bd0378b, 0x24eba695, 0x2291191a, 0x00000000, 14, 0x676f02d9) == 0x10c42a2f;
    assert Op(1, 0x2291191a, 0x10c42a2f, 0x4bd0378b, 0x24eba695, 0x00000000, 20, 0x8d2a4c8a) == 0x9c03e2e8;
    hide Op;
  }

  lemma Alnum2Row8()
    ensures Row(Regs(0x24eba695, 0x9c03e2e8, 0x10c42a2f, 0x4bd0378b), ALNUM2_WORDS, 8)
         == Regs(0x5be1d526, 0xa2448453, 0x9f4a1a7e, 0x9e414279)
  {
    assert Op(2, 0x24eba695, 0x9c03e2e8, 0x10c42a2f, 0x4bd0378b, 0x00000000, 4, 0xfffa3942) == 0x5be1d526;
    assert Op(2, 0x4bd0378b, 0x5be1d526, 0x9c03e2e8, 0x10c42a2f, 0x00000000, 11, 0x8771f681) == 0x9e414279;
    assert Op(2, 0x10c42a2f, 0x9e414279, 0x5be1d526, 0x9c03e2e8, 0x00000000, 16, 0x6d9d6122) == 0x9f4a1a7e;
    assert Op(2, 0x9c03e2e8, 0x9f4a1a7e, 0x9e414279, 0x5be1d526, 0x000001f0, 23, 0xfde5380c) == 0xa2448453;
    hide Op;
  }

  lemma Alnum2Row9()
    ensures Row(Regs(0x5be1d526, 0xa2448453, 0x9f4a1a7e, 0x9e414279), ALNUM2_WORDS, 9)
         == Regs(0xe14e403d, 0xfe314121, 0x60cc183a, 0xe8cfd670)
  {
    assert Op(2, 0x5be1d526, 0xa2448453, 0x9f4a1a7e, 0x9e414279, 0x00000000, 4, 0xa4beea44) == 0xe14e403d;
    assert Op(2, 0x9e414279, 0xe14e403d, 0xa2448453, 0x9f4a1a7e, 0x00000000, 11, 0x4bdecfa9) == 0xe8cfd670;
    assert Op(2, 0x9f4a1a7e, 0xe8cfd670, 0xe14e403d, 0xa2448453, 0x00000000, 16, 0xf6bb4b60) == 0x60cc183a;
    assert Op(2, 0xa2448453, 0x60cc183a, 0xe8cfd670, 0xe14e403d, 0x00000000, 23, 0xbebfbc70) == 0xfe314121;
    hide Op;
  }

  lemma Alnum2Row10()
    ensures Row(Regs(0xe14e403d, 0xfe314121, 0x60cc183a, 0xe8cfd670), ALNUM2_WORDS, 10)
         == Regs(0xfff62809, 0x7c7e974c, 0x8cb5221c, 0xe37209ac)
  {
    assert Op(2, 0xe14e403d, 0xfe314121, 0x60cc183a, 0xe8cfd670, 0x00000000, 4, 0x289b7ec6) == 0xfff62809;
    assert Op(2, 0xe8cfd670, 0xfff62809, 0xfe314121, 0x60cc183a, 0x00000000, 11, 0xeaa127fa) == 0xe37209ac;
    assert Op(2, 0x60cc183a, 0xe37209ac, 0xfff62809, 0xfe314121, 0x00000000, 16, 0xd4ef3085) == 0x8cb5221c;
    assert Op(2, 0xfe314121, 0x8cb5221c, 0xe37209ac, 0xfff62809, 0x00000000, 23, 0x04881d05) == 0x7c7e974c;
    hide Op;
  }

  lemma Alnum2Row11()
    ensures Row(Regs(0xfff62809, 0x7c7e974c, 0x8cb5221c, 0xe37209ac), ALNUM2_WORDS, 11)
         == Regs(0x54c9eb3a, 0x79c0710a, 0x2ec86f72, 0xd4d9c6ac)
  {
    assert Op(2, 0xfff62809, 0x7c7e974c, 0x8cb5221c, 0xe37209ac, 0x00000000, 4, 0xd9d4d039) == 0x54c9eb3a;
    assert Op(2, 0xe37209ac, 0x54c9eb3a, 0x7c7e974c, 0x8cb5221c, 0x00000000, 11, 0xe6db99e5) == 0xd4d9c6ac;
    assert Op(2, 0x8cb5221c, 0xd4d9c6ac, 0x54c9eb3a, 0x7c7e974c, 0x00000000, 16, 0x1fa27cf8) == 0x2ec86f72;
    assert Op(2, 0x7c7e974c, 0x2ec86f72, 0xd4d9c6ac, 0x54c9eb3a, 0x00000000, 23, 0xc4ac5665) == 0x79c0710a;
    hide Op;
  }

  lemma Alnum2Row12()
    ensures Row(Regs(0x54c9eb3a, 0x79c0710a, 0x2ec86f72, 0xd4d9c6ac), ALNUM2_WORDS, 12)
         == Regs(0x02095af1, 0x2ba98e3f, 0xa8dcfe26, 0x13d245fd)
  {
    assert Op(3, 0x54c9eb3a, 0x79c0710a, 0x2ec86f72, 0xd4d9c6ac, 0x00000000, 6, 0xf4292244) == 0x02095af1;
    assert Op(3, 0xd4d9c6ac, 0x02095af1, 0x79c0710a, 0x2ec86f72, 0x00000000, 10, 0x432aff97) == 0x13d245fd;
    assert Op(3, 0x2ec86f72, 0x13d245fd, 0x02095af1, 0x79c0710a, 0x000001f0, 15, 0xab9423a7) == 0xa8dcfe26;
    assert Op(3, 0x79c0710a, 0xa8dcfe26, 0x13d245fd, 0x02095af1, 0x00000000, 21, 0xfc93a039) == 0x2ba98e3f;
    hide Op;
  }

  lemma Alnum2Row13()
    ensures Row(Regs(0x02095af1, 0x2ba98e3f, 0xa8dcfe26, 0x13d245fd), ALNUM2_WORDS, 13)
         == Regs(0xe126c1aa, 0xfb7bcee0, 0x6f287ff5, 0x96b00fa7)
  {
    assert Op(3, 0x02095af1, 0x2ba98e3f, 0xa8dcfe26, 0x13d245fd, 0x00000000, 6, 0x655b59c3) == 0xe126c1aa;
    assert Op(3, 0x13d245fd, 0xe126c1aa, 0x2ba98e3f, 0xa8dcfe26, 0x00000000, 10, 0x8f0ccc92) == 0x96b00fa7;
    assert Op(3, 0xa8dcfe26, 0x96b00fa7, 0xe126c1aa, 0x2ba98e3f, 0x00000000, 15, 0xffeff47d) == 0x6f287ff5;
    assert Op(3, 0x2ba98e3f, 0x6f287ff5, 0x96b00fa7, 0xe126c1aa, 0x00000000, 21, 0x85845dd1) == 0xfb7bcee0;
    hide Op;
  }

  lemma Alnum2Row14()
    ensures Row(Regs(0xe126c1aa, 0xfb7bcee0, 0x6f287ff5, 0x96b00fa7), ALNUM2_WORDS, 14)
         == Regs(0x452c1099, 0x5ac74608, 0xc197ea8e, 0xca801ba6)
  {
    assert Op(3, 0xe126c1aa, 0xfb7bcee0, 0x6f287ff5, 0x96b00fa7, 0x00000000, 6, 0x6fa87e4f) == 0x452c1099;
    assert Op(3, 0x96b00fa7, 0x452c1099, 0xfb7bcee0, 0x6f287ff5, 0x00000000, 10, 0xfe2ce6e0) == 0xca801ba6;
    assert Op(3, 0x6f287ff5, 0xca801ba6, 0x452c1099, 0xfb7bcee0, 0x00000000, 15, 0xa3014314) == 0xc197ea8e;
    assert Op(3, 0xfb7bcee0, 0xc197ea8e, 0xca801ba6, 0x452c1099, 0x00000000, 21, 0x4e0811a1) == 0x5ac74608;
    hide Op;
  }

  lemma Alnum2Row15()
    ensures Row(Regs(0x452c1099, 0x5ac74608, 0xc197ea8e, 0xca801ba6), ALNUM2_WORDS, 15)
         == Regs(0x14ae42c6, 0x16dd9203, 0x826afd76, 0xa52dae75)
  {
    assert Op(3, 0x452c1099, 0x5ac74608, 0xc197ea8e, 0xca801ba6, 0x00000000, 6, 0xf7537e82) == 0x14ae42c6;
    assert Op(3, 0xca801ba6, 0x14ae42c6, 0x5ac74608, 0xc197ea8e, 0x00000000, 10, 0xbd3af235) == 0xa52dae75;
    assert Op(3, 0xc197ea8e, 0xa52dae75, 0x14ae42c6, 0x5ac74608, 0x00000000, 15, 0x2ad7d2bb) == 0x826afd76;
    assert Op(3, 0x5ac74608, 0x826afd76, 0xa52dae75, 0x14ae42c6, 0x00000000, 21, 0xeb86d391) == 0x16dd9203;
    hide Op;
  }

  lemma Alnum2Words()
    ensures |ALNUM2_BLOCK| == 64 && Words(ALNUM2_BLOCK) == ALNUM2_WORDS
  {
    hide Words;
    WordIs(ALNUM2_BLOCK, 14, 0xf0, 0x01, 0x00, 0x00, 0x000001f0);
    WordIs(ALNUM2_BLOCK, 15, 0x00, 0x00, 0x00, 0x00, 0x00000000);
    forall k | 0 <= k < 14
      ensures Words(ALNUM2_BLOCK)[k] == 0
    {
      WordIs(ALNUM2_BLOCK, k, 0x00, 0x00, 0x00, 0x00, 0x00000000);
    }
  }

  lemma Alnum2Compress()
    ensures |ALNUM2_BLOCK| == 64 && Compress(Regs(0x83fd320b, 0xdefbe5cf, 0xa9b1642f, 0xfa6f932a), ALNUM2_BLOCK)
         == Regs(0x98ab74d1, 0xf5d977d2, 0x2c1c61a5, 0x9f9d419f)
  {
    hide Row, Round;
    Alnum2Words();
    Alnum2Row0();
    Alnum2Row1();
    Alnum2Row2();
    Alnum2Row3();
    FourRows(Regs(0x83fd320b, 0xdefbe5cf, 0xa9b1642f, 0xfa6f932a), ALNUM2_WORDS, 0,
      Regs(0xeda23ed1, 0xddcf0634, 0x3c307338, 0x989939cf), Regs(0x75144433, 0x99b6b699, 0xc783cb60, 0xc8875807),
      Regs(0xa60a3f69, 0x64cc7c5a, 0x64db26e9, 0xaa6630be), Regs(0xa70737da, 0xa36f556f, 0x96f6586e, 0x5473f8a7));
    Alnum2Row4();
    Alnum2Row5();
    Alnum2Row6();
    Alnum2Row7();
    FourRows(Regs(0xa70737da, 0xa36f556f, 0x96f6586e, 0x5473f8a7), ALNUM2_WORDS, 1,
      Regs(0xa5050ad3, 0x82b8827c, 0x27dcd8b4, 0x28776046), Regs(0xe04f070c, 0xdf35cb56, 0xc0d22b61, 0x2f3cd2a2),
      Regs(0x242dd210, 0x2291191a, 0x5c295967, 0x576ace33), Regs(0x24eba695, 0x9c03e2e8, 0x10c42a2f, 0x4bd0378b));
    Alnum2Row8();
    Alnum2Row9();
    Alnum2Row10();
    Alnum2Row11();
    FourRows(Regs(0x24eba695, 0x9c03e2e8, 0x10c42a2f, 0x4bd0378b), ALNUM2_WORDS, 2,
      Regs(0x5be1d526, 0xa2448453, 0x9f4a1a7e, 0x9e414279), Regs(0xe14e403d, 0xfe314121, 0x60cc183a, 0xe8cfd670),
      Regs(0xfff62809, 0x7c7e974c, 0x8cb5221c, 0xe37209ac), Regs(0x54c9eb3a, 0x79c0710a, 0x2ec86f72, 0xd4d9c6ac));
    Alnum2Row12();
    Alnum2Row13();
    Alnum2Row14();
    Alnum2Row15();
    FourRows(Regs(0x54c9eb3a, 0x79c0710a, 0x2ec86f72, 0xd4d9c6ac), ALNUM2_WORDS, 3,
      Regs(0x02095af1, 0x2ba98e3f, 0xa8dcfe26, 0x13d245fd), Regs(0xe126c1aa, 0xfb7bcee0, 0x6f287ff5, 0x96b00fa7),
      Regs(0x452c1099, 0x5ac74608, 0xc197ea8e, 0xca801ba6), Regs(0x14ae42c6, 0x16dd9203, 0x826afd76, 0xa52dae75));
    FourRounds(Regs(0x83fd320b, 0xdefbe5cf, 0xa9b1642f, 0xfa6f932a), ALNUM2_BLOCK, ALNUM2_WORDS,
      Regs(0xa70737da, 0xa36f556f, 0x96f6586e, 0x5473f8a7), Regs(0x24eba695, 0x9c03e2e8, 0x10c42a2f, 0x4bd0378b),
      Regs(0x54c9eb3a, 0x79c0710a, 0x2ec86f72, 0xd4d9c6ac), Regs(0x14ae42c6, 0x16dd9203, 0x826afd76, 0xa52dae75));
    hide Compress;
  }

  lemma OutputAlnum()
    ensures Output(Regs(0x98ab74d1, 0xf5d977d2, 0x2c1c61a5, 0x9f9d419f)) == [
    0xd1, 0x74, 0xab, 0x98, 0xd2, 0x77, 0xd9, 0xf5, 0xa5, 0x61, 0x1c, 0x2c, 0x9f, 0x41, 0x9d, 0x9f]
  {
    assert WordBytes(0x98ab74d1) == [0xd1, 0x74, 0xab, 0x98];
    assert WordBytes(0xf5d977d2) == [0xd2, 0x77, 0xd9, 0xf5];
    assert WordBytes(0x2c1c61a5) == [0xa5, 0x61, 0x1c, 0x2c];
    assert WordBytes(0x9f9d419f) == [0x9f, 0x41, 0x9d, 0x9f];
    hide WordBytes;
  }

  lemma AlnumPadded()
    ensures Padded(ALNUM) == ALNUM1_BLOCK + ALNUM2_BLOCK
  {
    Sizes();
    assert |ALNUM| == 62;
    hide LengthBytes, ZerosNeeded, ALNUM;
    assert Zeros(57) == [0] + Zeros(56);
  }

  /** RFC 1321, appendix A.5: the value d174ab98d277d9f5a5611c2c9f419d9f. */
  lemma DigestOfAlnum()
    ensures Digest(ALNUM) == [
    0xd1, 0x74, 0xab, 0x98, 0xd2, 0x77, 0xd9, 0xf5, 0xa5, 0x61, 0x1c, 0x2c, 0x9f, 0x41, 0x9d, 0x9f]
  {
    hide Padded, Compress, Output, Blocks;
    AlnumPadded();
    Alnum1Compress();
    Alnum2Compress();
    BlocksConcat(INITIAL, ALNUM1_BLOCK, ALNUM2_BLOCK);
    OneBlock(INITIAL, ALNUM1_BLOCK);
    OneBlock(Compress(INITIAL, ALNUM1_BLOCK), ALNUM2_BLOCK);
    OutputAlnum();
  }

  /** The routine itself gives the two printed values. */
  method PrintedValues() returns (empty: seq<Byte>, alnum: seq<Byte>)
    ensures empty == [
    0xd4, 0x1d, 0x8c, 0xd9, 0x8f, 0x00, 0xb2, 0x04, 0xe9, 0x80, 0x09, 0x98, 0xec, 0xf8, 0x42, 0x7e]
    ensures alnum == [
    0xd1, 0x74, 0xab, 0x98, 0xd2, 0x77, 0xd9, 0xf5, 0xa5, 0x61, 0x1c, 0x2c, 0x9f, 0x41, 0x9d, 0x9f]
  {
    hide *;
    DigestOfEmpty();
    DigestOfAlnum();
    empty := Md5.MD5([]);
    alnum := Md5.MD5(ALNUM);
  }
}
