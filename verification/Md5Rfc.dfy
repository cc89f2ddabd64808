/** The MD5 message digest as RFC 1321 defines it: padding (sections 3.1 and 3.2), the initial
    registers (3.3), the four rounds on 32-bit words (3.4) and the output order (3.5). */
module Md5Rfc {

  type Byte = bv8

  datatype Regs = Regs(a: bv32, b: bv32, c: bv32, d: bv32)

  const INITIAL := Regs(0x67452301, 0xefcdab89, 0x98badcfe, 0x10325476)

  // ---------- Section 3.4: words, auxiliary functions and rounds ----------

  function Fun(round: nat, x: bv32, y: bv32, z: bv32): bv32 {
    if round == 0 then (x & y) | (!x & z)
    else if round == 1 then (x & z) | (y & !z)
    else if round == 2 then x ^ y ^ z
    else y ^ (x | !z)
  }

  function RotateLeft(x: bv32, s: bv5): bv32
    requires 0 < s
  {
    (x << s) | (x >> (32 - s as bv6))
  }

  /** Addition of words, mod 2^32. */
  function Plus(x: bv32, y: bv32): bv32 {
    x + y
  }

  function Plus4(x: bv32, y: bv32, z: bv32, w: bv32): bv32 {
    x + y + z + w
  }

  /** a = b + ((a + Fun(b,c,d) + X[k] + T[i]) <<< s) */
  function Op(round: nat, a: bv32, b: bv32, c: bv32, d: bv32, x: bv32, s: bv5, t: bv32): bv32
    requires 0 < s
  {
    Plus(b, RotateLeft(Plus4(a, Fun(round, b, c, d), x, t), s))
  }

  /** How far the four steps of a line rotate, by round. */
  function S(round: nat, q: nat): (s: bv5)
    ensures 0 < s
  {
    if round == 0 then (if q == 0 then 7 else if q == 1 then 12 else if q == 2 then 17 else 22)
    else if round == 1 then (if q == 0 then 5 else if q == 1 then 9 else if q == 2 then 14 else 20)
    else if round == 2 then (if q == 0 then 4 else if q == 1 then 11 else if q == 2 then 16 else 23)
    else (if q == 0 then 6 else if q == 1 then 10 else if q == 2 then 15 else 21)
  }

  /** [ABCD k0 s0 i] [DABC k1 s1 i+1] [CDAB k2 s2 i+2] [BCDA k3 s3 i+3] */
  function Line(round: nat, r: Regs, k0: bv32, k1: bv32, k2: bv32, k3: bv32,
                t0: bv32, t1: bv32, t2: bv32, t3: bv32): Regs
  {
    var a := Op(round, r.a, r.b, r.c, r.d, k0, S(round, 0), t0);
    var d := Op(round, r.d, a, r.b, r.c, k1, S(round, 1), t1);
    var c := Op(round, r.c, d, a, r.b, k2, S(round, 2), t2);
    var b := Op(round, r.b, c, d, a, k3, S(round, 3), t3);
    Regs(a, b, c, d)
  }

  /** The RFC's tables line by line; the constants are the integer parts of
      4294967296 * abs(sin(i)) for i = 1, 2, ..., 64. */
  function Row(r: Regs, x: seq<bv32>, row: nat): Regs
    requires |x| == 16
  {
    match row
    case 0 => Line(0, r, x[0], x[1], x[2], x[3], 0xd76aa478, 0xe8c7b756, 0x242070db, 0xc1bdceee)
    case 1 => Line(0, r, x[4], x[5], x[6], x[7], 0xf57c0faf, 0x4787c62a, 0xa8304613, 0xfd469501)
    case 2 => Line(0, r, x[8], x[9], x[10], x[11], 0x698098d8, 0x8b44f7af, 0xffff5bb1, 0x895cd7be)
    case 3 => Line(0, r, x[12], x[13], x[14], x[15], 0x6b901122, 0xfd987193, 0xa679438e, 0x49b40821)
    case 4 => Line(1, r, x[1], x[6], x[11], x[0], 0xf61e2562, 0xc040b340, 0x265e5a51, 0xe9b6c7aa)
    case 5 => Line(1, r, x[5], x[10], x[15], x[4], 0xd62f105d, 0x02441453, 0xd8a1e681, 0xe7d3fbc8)
    case 6 => Line(1, r, x[9], x[14], x[3], x[8], 0x21e1cde6, 0xc33707d6, 0xf4d50d87, 0x455a14ed)
    case 7 => Line(1, r, x[13], x[2], x[7], x[12], 0xa9e3e905, 0xfcefa3f8, 0x676f02d9, 0x8d2a4c8a)
    case 8 => Line(2, r, x[5], x[8], x[11], x[14], 0xfffa3942, 0x8771f681, 0x6d9d6122, 0xfde5380c)
    case 9 => Line(2, r, x[1], x[4], x[7], x[10], 0xa4beea44, 0x4bdecfa9, 0xf6bb4b60, 0xbebfbc70)
    case 10 => Line(2, r, x[13], x[0], x[3], x[6], 0x289b7ec6, 0xeaa127fa, 0xd4ef3085, 0x04881d05)
    case 11 => Line(2, r, x[9], x[12], x[15], x[2], 0xd9d4d039, 0xe6db99e5, 0x1fa27cf8, 0xc4ac5665)
    case 12 => Line(3, r, x[0], x[7], x[14], x[5], 0xf4292244, 0x432aff97, 0xab9423a7, 0xfc93a039)
    case 13 => Line(3, r, x[12], x[3], x[10], x[1], 0x655b59c3, 0x8f0ccc92, 0xffeff47d, 0x85845dd1)
    case 14 => Line(3, r, x[8], x[15], x[6], x[13], 0x6fa87e4f, 0xfe2ce6e0, 0xa3014314, 0x4e0811a1)
    case _ => Line(3, r, x[4], x[11], x[2], x[9], 0xf7537e82, 0xbd3af235, 0x2ad7d2bb, 0xeb86d391)
  }

  /** Sixteen steps. */
  function Round(r: Regs, x: seq<bv32>, round: nat): Regs
    requires |x| == 16
  {
    Row(Row(Row(Row(r, x, 4 * round), x, 4 * round + 1), x, 4 * round + 2), x, 4 * round + 3)
  }

  /** Four bytes as a word, low-order byte first (section 2). */
  function WordOf(b0: Byte, b1: Byte, b2: Byte, b3: Byte): bv32 {
    b0 as bv32 | (b1 as bv32 << 8) | (b2 as bv32 << 16) | (b3 as bv32 << 24)
  }

  function Word(s: seq<Byte>, k: nat): bv32
    requires 4 * k + 4 <= |s|
  {
    WordOf(s[4 * k], s[4 * k + 1], s[4 * k + 2], s[4 * k + 3])
  }

  function Words(block: seq<Byte>): (x: seq<bv32>)
    requires |block| == 64
    ensures |x| == 16
  {
    seq(16, k requires 0 <= k < 16 => Word(block, k))
  }

  function Compress(r: Regs, block: seq<Byte>): Regs
    requires |block| == 64
  {
    var x := Words(block);
    var e := Round(Round(Round(Round(r, x, 0), x, 1), x, 2), x, 3);
    Regs(Plus(r.a, e.a), Plus(r.b, e.b), Plus(r.c, e.c), Plus(r.d, e.d))
  }

  /** All whole blocks of s, in order. */
  function Blocks(r: Regs, s: seq<Byte>): Regs
    decreases |s|
  {
    if |s| < 64 then r else Blocks(Compress(r, s[..64]), s[64..])
  }

  // ---------- Sections 3.1, 3.2 and 3.5 ----------

  function Zeros(n: nat): (s: seq<Byte>)
    ensures |s| == n
  {
    seq(n, _ => 0)
  }

  const TWO32: nat := 0x1_0000_0000
  const TWO64: nat := 0x1_0000_0000_0000_0000

  /** A 32-bit number, low-order byte first. */
  function Le32(n: nat): (s: seq<Byte>)
    ensures |s| == 4
  {
    [(n % 0x100) as Byte, (n / 0x100 % 0x100) as Byte, (n / 0x1_0000 % 0x100) as Byte, (n / 0x100_0000 % 0x100) as Byte]
  }

  /** The bit length mod 2^64 as two words, the low-order word first (section 3.2). */
  function LengthBytes(count: nat): (s: seq<Byte>)
    ensures |s| == 8
  {
    var bits := 8 * count % TWO64;
    Le32(bits % TWO32) + Le32(bits / TWO32)
  }

  /** How many zeros bring n bytes, the one after them and the eight of the length to whole blocks. */
  function ZerosNeeded(n: nat): (z: nat)
    ensures z < 64 && (n + 9 + z) % 64 == 0
  {
    (55 - n) % 64
  }

  function Padded(m: seq<Byte>): (p: seq<Byte>)
    ensures |p| % 64 == 0 && m <= p
  {
    hide ZerosNeeded, LengthBytes, Zeros;
    m + [0x80] + Zeros(ZerosNeeded(|m|)) + LengthBytes(|m|)
  }

  function WordBytes(w: bv32): (s: seq<Byte>)
    ensures |s| == 4
  {
    [(w & 0xff) as Byte, ((w >> 8) & 0xff) as Byte, ((w >> 16) & 0xff) as Byte, ((w >> 24) & 0xff) as Byte]
  }

  function Output(r: Regs): (s: seq<Byte>)
    ensures |s| == 16
  {
    WordBytes(r.a) + WordBytes(r.b) + WordBytes(r.c) + WordBytes(r.d)
  }

  function Digest(m: seq<Byte>): (md: seq<Byte>)
    ensures |md| == 16
  {
    Output(Blocks(INITIAL, Padded(m)))
  }

  lemma {:induction false} BlocksConcat(r: Regs, s: seq<Byte>, t: seq<Byte>)
    requires |s| % 64 == 0
    ensures Blocks(r, s + t) == Blocks(Blocks(r, s), t)
    decreases |s|
  {
    hide Compress;
    if s == [] {
      assert s + t == t;
    } else {
      assert (s + t)[..64] == s[..64];
      assert (s + t)[64..] == s[64..] + t;
      BlocksConcat(Compress(r, s[..64]), s[64..], t);
    }
  }

  lemma OneBlock(r: Regs, s: seq<Byte>)
    requires |s| == 64
    ensures Blocks(r, s) == Compress(r, s)
  {
    hide Compress;
    assert s[..64] == s;
    assert s[64..] == [];
  }
}
