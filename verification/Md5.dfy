/** The streaming MD5 of simple_uv, proved against RFC 1321. */
module Md5 {
  import opened Md5Rfc

  // ---------- 64-bit registers, 32-bit algorithm ----------

  /** The 32 bits of a 64-bit register that the algorithm is about. */
  function Low(x: bv64): bv32 {
    (x % 0x1_0000_0000) as bv32
  }

  function LowRegs(a: bv64, b: bv64, c: bv64, d: bv64): Regs {
    Regs(Low(a), Low(b), Low(c), Low(d))
  }

  /** a += k + t + f, without a mask. */
  function Mix(a: bv64, k: bv64, t: bv64, f: bv64): bv64 {
    a + (k + t + f)
  }

  /** a += b, without a mask. */
  function Add(a: bv64, b: bv64): bv64 {
    a + b
  }

  /** ROTATE: the left shift is not masked, so what lands above bit 31 is garbage. */
  function Rotate(a: bv64, n: bv5): bv64
    requires 0 < n
  {
    (a << n) | ((a & 0xffffffff) >> (32 - n as bv6))
  }

  function F(b: bv64, c: bv64, d: bv64): bv64 {
    ((c ^ d) & b) ^ d
  }

  function G(b: bv64, c: bv64, d: bv64): bv64 {
    ((b ^ c) & d) ^ c
  }

  function H(b: bv64, c: bv64, d: bv64): bv64 {
    b ^ c ^ d
  }

  function I(b: bv64, c: bv64, d: bv64): bv64 {
    (!d | b) ^ c
  }

  // What the 64-bit operations do to the low 32 bits, first on bare bits ...

  lemma AddBits(a: bv64, b: bv64)
    ensures ((a + b) % 0x1_0000_0000) as bv32 == (b % 0x1_0000_0000) as bv32 + (a % 0x1_0000_0000) as bv32
  {
  }

  lemma MixBits(a: bv64, k: bv64, t: bv64, f: bv64)
    ensures ((a + (k + t + f)) % 0x1_0000_0000) as bv32
         == (a % 0x1_0000_0000) as bv32 + (f % 0x1_0000_0000) as bv32
            + (k % 0x1_0000_0000) as bv32 + (t % 0x1_0000_0000) as bv32
  {
  }

  lemma RotateBits(a: bv64, n: bv5)
    requires 0 < n
    ensures (((a << n) | ((a & 0xffffffff) >> (32 - n as bv6))) % 0x1_0000_0000) as bv32
         == ((a % 0x1_0000_0000) as bv32 << n) | ((a % 0x1_0000_0000) as bv32 >> (32 - n as bv6))
  {
  }

  // ... and then on the named operations.

  lemma LowAdd(a: bv64, b: bv64)
    ensures Low(Add(a, b)) == Plus(Low(b), Low(a))
  {
    calc {
      Low(Add(a, b));
      ((a + b) % 0x1_0000_0000) as bv32;
      { AddBits(a, b); }
      (b % 0x1_0000_0000) as bv32 + (a % 0x1_0000_0000) as bv32;
      Low(b) + (a % 0x1_0000_0000) as bv32;
      Low(b) + Low(a);
      Plus(Low(b), Low(a));
    }
  }

  lemma LowMix(a: bv64, k: bv64, t: bv64, f: bv64)
    ensures Low(Mix(a, k, t, f)) == Plus4(Low(a), Low(f), Low(k), Low(t))
  {
    calc {
      Low(Mix(a, k, t, f));
      ((a + (k + t + f)) % 0x1_0000_0000) as bv32;
      { MixBits(a, k, t, f); }
      (a % 0x1_0000_0000) as bv32 + (f % 0x1_0000_0000) as bv32
      + (k % 0x1_0000_0000) as bv32 + (t % 0x1_0000_0000) as bv32;
      Low(a) + (f % 0x1_0000_0000) as bv32 + (k % 0x1_0000_0000) as bv32 + (t % 0x1_0000_0000) as bv32;
      Low(a) + Low(f) + (k % 0x1_0000_0000) as bv32 + (t % 0x1_0000_0000) as bv32;
      Low(a) + Low(f) + Low(k) + (t % 0x1_0000_0000) as bv32;
      Low(a) + Low(f) + Low(k) + Low(t);
      Plus4(Low(a), Low(f), Low(k), Low(t));
    }
  }

  lemma LowRotate(a: bv64, n: bv5)
    requires 0 < n
    ensures Low(Rotate(a, n)) == RotateLeft(Low(a), n)
  {
    calc {
      Low(Rotate(a, n));
      (((a << n) | ((a & 0xffffffff) >> (32 - n as bv6))) % 0x1_0000_0000) as bv32;
      { RotateBits(a, n); }
      ((a % 0x1_0000_0000) as bv32 << n) | ((a % 0x1_0000_0000) as bv32 >> (32 - n as bv6));
      RotateLeft((a % 0x1_0000_0000) as bv32, n);
      RotateLeft(Low(a), n);
    }
  }

  lemma LowF(b: bv64, c: bv64, d: bv64)
    ensures Low(F(b, c, d)) == Fun(0, Low(b), Low(c), Low(d))
  {
  }

  lemma LowG(b: bv64, c: bv64, d: bv64)
    ensures Low(G(b, c, d)) == Fun(1, Low(b), Low(c), Low(d))
  {
  }

  lemma LowH(b: bv64, c: bv64, d: bv64)
    ensures Low(H(b, c, d)) == Fun(2, Low(b), Low(c), Low(d))
  {
  }

  lemma LowI(b: bv64, c: bv64, d: bv64)
    ensures Low(I(b, c, d)) == Fun(3, Low(b), Low(c), Low(d))
  {
  }

  lemma LowConstant(t: bv32)
    ensures Low(t as bv64) == t
  {
  }

  lemma OpDef(round: nat, a: bv32, b: bv32, c: bv32, d: bv32, x: bv32, s: bv5, t: bv32)
    requires 0 < s
    ensures Op(round, a, b, c, d, x, s, t) == Plus(b, RotateLeft(Plus4(a, Fun(round, b, c, d), x, t), s))
  {
    hide Plus, RotateLeft, Plus4, Fun;
  }

  // ---------- The macros R0 to R3 and the four rounds ----------

  method R0(a: bv64, b: bv64, c: bv64, d: bv64, k: bv64, s: bv5, t: bv32) returns (r: bv64)
    requires 0 < s
    ensures Low(r) == Op(0, Low(a), Low(b), Low(c), Low(d), Low(k), s, t)
  {
    hide *;
    var mixed := Mix(a, k, t as bv64, F(b, c, d));
    var turned := Rotate(mixed, s);
    r := Add(turned, b);
    LowMix(a, k, t as bv64, F(b, c, d));
    LowF(b, c, d);
    LowConstant(t);
    LowRotate(mixed, s);
    LowAdd(turned, b);
    OpDef(0, Low(a), Low(b), Low(c), Low(d), Low(k), s, t);
  }

  method R1(a: bv64, b: bv64, c: bv64, d: bv64, k: bv64, s: bv5, t: bv32) returns (r: bv64)
    requires 0 < s
    ensures Low(r) == Op(1, Low(a), Low(b), Low(c), Low(d), Low(k), s, t)
  {
    hide *;
    var mixed := Mix(a, k, t as bv64, G(b, c, d));
    var turned := Rotate(mixed, s);
    r := Add(turned, b);
    LowMix(a, k, t as bv64, G(b, c, d));
    LowG(b, c, d);
    LowConstant(t);
    LowRotate(mixed, s);
    LowAdd(turned, b);
    OpDef(1, Low(a), Low(b), Low(c), Low(d), Low(k), s, t);
  }

  method R2(a: bv64, b: bv64, c: bv64, d: bv64, k: bv64, s: bv5, t: bv32) returns (r: bv64)
    requires 0 < s
    ensures Low(r) == Op(2, Low(a), Low(b), Low(c), Low(d), Low(k), s, t)
  {
    hide *;
    var mixed := Mix(a, k, t as bv64, H(b, c, d));
    var turned := Rotate(mixed, s);
    r := Add(turned, b);
    LowMix(a, k, t as bv64, H(b, c, d));
    LowH(b, c, d);
    LowConstant(t);
    LowRotate(mixed, s);
    LowAdd(turned, b);
    OpDef(2, Low(a), Low(b), Low(c), Low(d), Low(k), s, t);
  }

  method R3(a: bv64, b: bv64, c: bv64, d: bv64, k: bv64, s: bv5, t: bv32) returns (r: bv64)
    requires 0 < s
    ensures Low(r) == Op(3, Low(a), Low(b), Low(c), Low(d), Low(k), s, t)
  {
    hide *;
    var mixed := Mix(a, k, t as bv64, I(b, c, d));
    var turned := Rotate(mixed, s);
    r := Add(turned, b);
    LowMix(a, k, t as bv64, I(b, c, d));
    LowI(b, c, d);
    LowConstant(t);
    LowRotate(mixed, s);
    LowAdd(turned, b);
    OpDef(3, Low(a), Low(b), Low(c), Low(d), Low(k), s, t);
  }

  lemma RoundRows(r: Regs, x: seq<bv32>, round: nat)
    requires |x| == 16
    ensures Round(r, x, round)
         == Row(Row(Row(Row(r, x, 4 * round), x, 4 * round + 1), x, 4 * round + 2), x, 4 * round + 3)
  {
  }

  lemma Rotations(round: nat)
    requires round < 4
    ensures round == 0 ==> S(0, 0) == 7 && S(0, 1) == 12 && S(0, 2) == 17 && S(0, 3) == 22
    ensures round == 1 ==> S(1, 0) == 5 && S(1, 1) == 9 && S(1, 2) == 14 && S(1, 3) == 20
    ensures round == 2 ==> S(2, 0) == 4 && S(2, 1) == 11 && S(2, 2) == 16 && S(2, 3) == 23
    ensures round == 3 ==> S(3, 0) == 6 && S(3, 1) == 10 && S(3, 2) == 15 && S(3, 3) == 21
  {
  }

  method Round0(A0: bv64, B0: bv64, C0: bv64, D0: bv64, X: seq<bv64>, ghost x: seq<bv32>)
    returns (A: bv64, B: bv64, C: bv64, D: bv64)
    requires |X| == |x| == 16
    requires forall i :: 0 <= i < 16 ==> Low(X[i]) == x[i]
    ensures LowRegs(A, B, C, D) == Round(LowRegs(A0, B0, C0, D0), x, 0)
  {
    hide Low, Op, Round, S;
    Rotations(0);
    RoundRows(LowRegs(A0, B0, C0, D0), x, 0);
    A, B, C, D := A0, B0, C0, D0;
    ghost var r0 := LowRegs(A, B, C, D);
    A := R0(A, B, C, D, X[0], 7, 0xd76aa478);
    D := R0(D, A, B, C, X[1], 12, 0xe8c7b756);
    C := R0(C, D, A, B, X[2], 17, 0x242070db);
    B := R0(B, C, D, A, X[3], 22, 0xc1bdceee);
    ghost var r1 := LowRegs(A, B, C, D);
    assert r1 == Row(r0, x, 0);
    A := R0(A, B, C, D, X[4], 7, 0xf57c0faf);
    D := R0(D, A, B, C, X[5], 12, 0x4787c62a);
    C := R0(C, D, A, B, X[6], 17, 0xa8304613);
    B := R0(B, C, D, A, X[7], 22, 0xfd469501);
    ghost var r2 := LowRegs(A, B, C, D);
    assert r2 == Row(r1, x, 1);
    A := R0(A, B, C, D, X[8], 7, 0x698098d8);
    D := R0(D, A, B, C, X[9], 12, 0x8b44f7af);
    C := R0(C, D, A, B, X[10], 17, 0xffff5bb1);
    B := R0(B, C, D, A, X[11], 22, 0x895cd7be);
    ghost var r3 := LowRegs(A, B, C, D);
    assert r3 == Row(r2, x, 2);
    A := R0(A, B, C, D, X[12], 7, 0x6b901122);
    D := R0(D, A, B, C, X[13], 12, 0xfd987193);
    C := R0(C, D, A, B, X[14], 17, 0xa679438e);
    B := R0(B, C, D, A, X[15], 22, 0x49b40821);
    ghost var r4 := LowRegs(A, B, C, D);
    assert r4 == Row(r3, x, 3);
  }

  method Round1(A0: bv64, B0: bv64, C0: bv64, D0: bv64, X: seq<bv64>, ghost x: seq<bv32>)
    returns (A: bv64, B: bv64, C: bv64, D: bv64)
    requires |X| == |x| == 16
    requires forall i :: 0 <= i < 16 ==> Low(X[i]) == x[i]
    ensures LowRegs(A, B, C, D) == Round(LowRegs(A0, B0, C0, D0), x, 1)
  {
    hide Low, Op, Round, S;
    Rotations(1);
    RoundRows(LowRegs(A0, B0, C0, D0), x, 1);
    A, B, C, D := A0, B0, C0, D0;
    ghost var r0 := LowRegs(A, B, C, D);
    A := R1(A, B, C, D, X[1], 5, 0xf61e2562);
    D := R1(D, A, B, C, X[6], 9, 0xc040b340);
    C := R1(C, D, A, B, X[11], 14, 0x265e5a51);
    B := R1(B, C, D, A, X[0], 20, 0xe9b6c7aa);
    ghost var r1 := LowRegs(A, B, C, D);
    assert r1 == Row(r0, x, 4);
    A := R1(A, B, C, D, X[5], 5, 0xd62f105d);
    D := R1(D, A, B, C, X[10], 9, 0x02441453);
    C := R1(C, D, A, B, X[15], 14, 0xd8a1e681);
    B := R1(B, C, D, A, X[4], 20, 0xe7d3fbc8);
    ghost var r2 := LowRegs(A, B, C, D);
    assert r2 == Row(r1, x, 5);
    A := R1(A, B, C, D, X[9], 5, 0x21e1cde6);
    D := R1(D, A, B, C, X[14], 9, 0xc33707d6);
    C := R1(C, D, A, B, X[3], 14, 0xf4d50d87);
    B := R1(B, C, D, A, X[8], 20, 0x455a14ed);
    ghost var r3 := LowRegs(A, B, C, D);
    assert r3 == Row(r2, x, 6);
    A := R1(A, B, C, D, X[13], 5, 0xa9e3e905);
    D := R1(D, A, B, C, X[2], 9, 0xfcefa3f8);
    C := R1(C, D, A, B, X[7], 14, 0x676f02d9);
    B := R1(B, C, D, A, X[12], 20, 0x8d2a4c8a);
    ghost var r4 := LowRegs(A, B, C, D);
    assert r4 == Row(r3, x, 7);
  }

  method Round2(A0: bv64, B0: bv64, C0: bv64, D0: bv64, X: seq<bv64>, ghost x: seq<bv32>)
    returns (A: bv64, B: bv64, C: bv64, D: bv64)
    requires |X| == |x| == 16
    requires forall i :: 0 <= i < 16 ==> Low(X[i]) == x[i]
    ensures LowRegs(A, B, C, D) == Round(LowRegs(A0, B0, C0, D0), x, 2)
  {
    hide Low, Op, Round, S;
    Rotations(2);
    RoundRows(LowRegs(A0, B0, C0, D0), x, 2);
    A, B, C, D := A0, B0, C0, D0;
    ghost var r0 := LowRegs(A, B, C, D);
    A := R2(A, B, C, D, X[5], 4, 0xfffa3942);
    D := R2(D, A, B, C, X[8], 11, 0x8771f681);
    C := R2(C, D, A, B, X[11], 16, 0x6d9d6122);
    B := R2(B, C, D, A, X[14], 23, 0xfde5380c);
    ghost var r1 := LowRegs(A, B, C, D);
    assert r1 == Row(r0, x, 8);
    A := R2(A, B, C, D, X[1], 4, 0xa4beea44);
    D := R2(D, A, B, C, X[4], 11, 0x4bdecfa9);
    C := R2(C, D, A, B, X[7], 16, 0xf6bb4b60);
    B := R2(B, C, D, A, X[10], 23, 0xbebfbc70);
    ghost var r2 := LowRegs(A, B, C, D);
    assert r2 == Row(r1, x, 9);
    A := R2(A, B, C, D, X[13], 4, 0x289b7ec6);
    D := R2(D, A, B, C, X[0], 11, 0xeaa127fa);
    C := R2(C, D, A, B, X[3], 16, 0xd4ef3085);
    B := R2(B, C, D, A, X[6], 23, 0x04881d05);
    ghost var r3 := LowRegs(A, B, C, D);
    assert r3 == Row(r2, x, 10);
    A := R2(A, B, C, D, X[9], 4, 0xd9d4d039);
    D := R2(D, A, B, C, X[12], 11, 0xe6db99e5);
    C := R2(C, D, A, B, X[15], 16, 0x1fa27cf8);
    B := R2(B, C, D, A, X[2], 23, 0xc4ac5665);
    ghost var r4 := LowRegs(A, B, C, D);
    assert r4 == Row(r3, x, 11);
  }

  method Round3(A0: bv64, B0: bv64, C0: bv64, D0: bv64, X: seq<bv64>, ghost x: seq<bv32>)
    returns (A: bv64, B: bv64, C: bv64, D: bv64)
    requires |X| == |x| == 16
    requires forall i :: 0 <= i < 16 ==> Low(X[i]) == x[i]
    ensures LowRegs(A, B, C, D) == Round(LowRegs(A0, B0, C0, D0), x, 3)
  {
    hide Low, Op, Round, S;
    Rotations(3);
    RoundRows(LowRegs(A0, B0, C0, D0), x, 3);
    A, B, C, D := A0, B0, C0, D0;
    ghost var r0 := LowRegs(A, B, C, D);
    A := R3(A, B, C, D, X[0], 6, 0xf4292244);
    D := R3(D, A, B, C, X[7], 10, 0x432aff97);
    C := R3(C, D, A, B, X[14], 15, 0xab9423a7);
    B := R3(B, C, D, A, X[5], 21, 0xfc93a039);
    ghost var r1 := LowRegs(A, B, C, D);
    assert r1 == Row(r0, x, 12);
    A := R3(A, B, C, D, X[12], 6, 0x655b59c3);
    D := R3(D, A, B, C, X[3], 10, 0x8f0ccc92);
    C := R3(C, D, A, B, X[10], 15, 0xffeff47d);
    B := R3(B, C, D, A, X[1], 21, 0x85845dd1);
    ghost var r2 := LowRegs(A, B, C, D);
    assert r2 == Row(r1, x, 13);
    A := R3(A, B, C, D, X[8], 6, 0x6fa87e4f);
    D := R3(D, A, B, C, X[15], 10, 0xfe2ce6e0);
    C := R3(C, D, A, B, X[6], 15, 0xa3014314);
    B := R3(B, C, D, A, X[13], 21, 0x4e0811a1);
    ghost var r3 := LowRegs(A, B, C, D);
    assert r3 == Row(r2, x, 14);
    A := R3(A, B, C, D, X[4], 6, 0xf7537e82);
    D := R3(D, A, B, C, X[11], 10, 0xbd3af235);
    C := R3(C, D, A, B, X[2], 15, 0x2ad7d2bb);
    B := R3(B, C, D, A, X[9], 21, 0xeb86d391);
    ghost var r4 := LowRegs(A, B, C, D);
    assert r4 == Row(r3, x, 15);
  }

  // ---------- The streaming context ----------

  /** HOST_c2l */
  function Load(b0: Byte, b1: Byte, b2: Byte, b3: Byte): bv64 {
    b0 as bv64 | (b1 as bv64 << 8) | (b2 as bv64 << 16) | (b3 as bv64 << 24)
  }

  lemma LowLoad(b0: Byte, b1: Byte, b2: Byte, b3: Byte)
    ensures Low(Load(b0, b1, b2, b3)) == WordOf(b0, b1, b2, b3)
  {
  }

  method LoadWords(data: seq<Byte>, at: nat) returns (X: seq<bv64>)
    requires at + 64 <= |data|
    ensures |X| == 16
    ensures forall i :: 0 <= i < 16 ==> Low(X[i]) == Words(data[at..at + 64])[i]
  {
    hide Low, Load, WordOf;
    X := seq(16, i requires 0 <= i < 16 =>
      Load(data[at + 4 * i], data[at + 4 * i + 1], data[at + 4 * i + 2], data[at + 4 * i + 3]));
    forall i | 0 <= i < 16
      ensures Low(X[i]) == Words(data[at..at + 64])[i]
    {
      LowLoad(data[at + 4 * i], data[at + 4 * i + 1], data[at + 4 * i + 2], data[at + 4 * i + 3]);
    }
  }

  method Rounds(r: Regs, X: seq<bv64>, ghost x: seq<bv32>) returns (A: bv64, B: bv64, C: bv64, D: bv64)
    requires |X| == |x| == 16
    requires forall i :: 0 <= i < 16 ==> Low(X[i]) == x[i]
    ensures LowRegs(A, B, C, D) == Round(Round(Round(Round(r, x, 0), x, 1), x, 2), x, 3)
  {
    hide Low, Round;
    A, B, C, D := r.a as bv64, r.b as bv64, r.c as bv64, r.d as bv64;
    LowConstant(r.a);
    LowConstant(r.b);
    LowConstant(r.c);
    LowConstant(r.d);
    A, B, C, D := Round0(A, B, C, D, X, x);
    A, B, C, D := Round1(A, B, C, D, X, x);
    A, B, C, D := Round2(A, B, C, D, X, x);
    A, B, C, D := Round3(A, B, C, D, X, x);
  }

  /** One turn of the block loop: sixty-four steps on the 64-bit registers, then `c->A += A`. */
  method OneTurn(r: Regs, data: seq<Byte>, at: nat) returns (r': Regs)
    requires at + 64 <= |data|
    ensures r' == Compress(r, data[at..at + 64])
  {
    hide Low, Round, Add, Plus, Words;
    var X := LoadWords(data, at);
    var A, B, C, D := Rounds(r, X, Words(data[at..at + 64]));
    r' := Regs(Store(r.a, A), Store(r.b, B), Store(r.c, C), Store(r.d, D));
  }

  /** The 32-bit field c->A after `c->A += A`. */
  function Store(field: bv32, reg: bv64): (f: bv32)
    ensures f == Plus(field, Low(reg))
  {
    LowConstant(field);
    LowAdd(reg, field as bv64);
    Low(Add(reg, field as bv64))
  }

  // ---------- The split bit counter ----------

  lemma Shift3(len: nat)
    ensures 8 * len == (len % TWO32) * 8 % TWO32 + TWO32 * (len / 0x2000_0000)
  {
    var q, r := len / 0x2000_0000, len % 0x2000_0000;
    var q' := len / TWO32;
    assert (len % TWO32) * 8 == 8 * r + TWO32 * (q - 8 * q');
    assert (8 * r + TWO32 * (q - 8 * q')) % TWO32 == 8 * r;
  }

  lemma AddMods(a: nat, b: nat)
    ensures (a % TWO32 + b % TWO32) % TWO32 == (a + b) % TWO32
  {
    var r := (a % TWO32 + b % TWO32) % TWO32;
    var k := (a % TWO32 + b % TWO32) / TWO32;
    assert a + b == r + TWO32 * (k + a / TWO32 + b / TWO32);
  }

  /** Adding 8 * len the way MD5_Update does it: truncating shift, carry, and the lost top bits. */
  lemma CounterStep(count: nat, len: nat, nl: nat, nh: nat, nl': nat, nh': nat)
    requires nl < TWO32 && nh < TWO32
    requires nl + TWO32 * nh == 8 * count % TWO64
    requires nl' == (nl + (len % TWO32) * 8 % TWO32) % TWO32
    requires nh' == ((if nl' < nl then (nh + 1) % TWO32 else nh) + len / 0x2000_0000 % TWO32) % TWO32
    ensures nl' + TWO32 * nh' == 8 * (count + len) % TWO64
  {
    Shift3(len);
    var lo, hi := (len % TWO32) * 8 % TWO32, len / 0x2000_0000;
    CounterHalves(nl, nh, lo, hi, nl', nh');
    var top := nh + (if nl' < nl then 1 else 0) + hi;
    var k := 8 * count / TWO64 + top / TWO32;
    assert 8 * (count + len) == nl' + TWO32 * nh' + TWO64 * k;
    Remainder64(nl' + TWO32 * nh', k);
  }

  lemma Remainder64(r: nat, k: nat)
    requires r < TWO64
    ensures (r + TWO64 * k) % TWO64 == r
  {
  }

  lemma CounterHalves(nl: nat, nh: nat, lo: nat, hi: nat, nl': nat, nh': nat)
    requires nl < TWO32 && nh < TWO32 && lo < TWO32
    requires nl' == (nl + lo) % TWO32
    requires nh' == ((if nl' < nl then (nh + 1) % TWO32 else nh) + hi % TWO32) % TWO32
    ensures nh' == (nh + (if nl' < nl then 1 else 0) + hi) % TWO32
    ensures nl + lo == nl' + TWO32 * (if nl' < nl then 1 else 0)
  {
    AddMods(nh + 1, hi);
    AddMods(nh, hi);
    Carry(nl, lo);
  }

  lemma Carry(a: nat, b: nat)
    requires a < TWO32 && b < TWO32
    ensures (a + b) % TWO32 == if a + b < TWO32 then a + b else a + b - TWO32
  {
  }

  // ---------- MD5_CTX ----------

  lemma SplitAt(m: seq<Byte>, b: seq<Byte>, n: nat)
    requires n <= |b|
    ensures m + b[..n] + b[n..] == m + b
  {
  }

  /** The partial block of m, completed. */
  lemma Completed(m: seq<Byte>, bytes: seq<Byte>, num: nat, block: seq<Byte>)
    requires num <= |m| && (|m| - num) % 64 == 0 && num + |bytes| == 64
    requires |block| == 64 && block == m[|m| - num..] + bytes
    ensures m + bytes == m[..|m| - num] + block && |m + bytes| % 64 == 0
    ensures (m + bytes)[..|m + bytes|] == m + bytes && block[..64] == block
  {
    assert |m + bytes| == (|m| - num) + 64;
  }

  class MD5_CTX {
    var regs: Regs
    var Nl: nat
    var Nh: nat
    const data: array<Byte>
    var num: nat
    /** Everything fed in so far. */
    ghost var msg: seq<Byte>

    /** The whole blocks of m are in the registers and the rest of m is in the buffer. */
    ghost predicate Holds(m: seq<Byte>)
      reads `regs, `num, data
    {
      && data.Length == 64
      && num < 64 && num <= |m| && (|m| - num) % 64 == 0
      && regs == Blocks(INITIAL, m[..|m| - num])
      && data[..num] == m[|m| - num..]
    }

    /** Nh:Nl is eight times the byte count, mod 2^64. */
    ghost predicate Counts(count: nat)
      reads `Nl, `Nh
    {
      Nl < TWO32 && Nh < TWO32 && Nl + TWO32 * Nh == 8 * count % TWO64
    }

    ghost predicate Valid()
      reads this, data
    {
      Holds(msg) && Counts(|msg|)
    }

    constructor Init()
      ensures Valid() && msg == [] && fresh(data)
    {
      regs := INITIAL;
      Nl, Nh, num := 0, 0, 0;
      data := new Byte[64](_ => 0);
      msg := [];
    }

    /** md5_block_data_order: num whole blocks. */
    method BlockDataOrder(bytes: seq<Byte>, blocks: nat)
      requires 64 * blocks <= |bytes|
      modifies this`regs
      ensures regs == Blocks(old(regs), bytes[..64 * blocks])
    {
      hide Compress;
      var n := 0;
      assert bytes[..0] == [];
      while n < blocks
        invariant n <= blocks
        invariant regs == Blocks(old(regs), bytes[..64 * n])
      {
        regs := OneTurn(regs, bytes, 64 * n);
        assert bytes[..64 * (n + 1)] == bytes[..64 * n] + bytes[64 * n..64 * n + 64];
        BlocksConcat(old(regs), bytes[..64 * n], bytes[64 * n..64 * n + 64]);
        OneBlock(Blocks(old(regs), bytes[..64 * n]), bytes[64 * n..64 * n + 64]);
        n := n + 1;
      }
    }

    method MemCpy(at: nat, bytes: seq<Byte>)
      requires at + |bytes| <= data.Length
      modifies data
      ensures data[..] == old(data[..at]) + bytes + old(data[at + |bytes|..])
    {
      forall i | 0 <= i < |bytes| {
        data[at + i] := bytes[i];
      }
    }

    method AddLength(len: nat, ghost count: nat)
      requires Counts(count)
      modifies this`Nl, this`Nh
      ensures Counts(count + len)
    {
      var l := (Nl + (len % TWO32) * 8 % TWO32) % TWO32;
      CounterStep(count, len, Nl, Nh, l,
                  ((if l < Nl then (Nh + 1) % TWO32 else Nh) + len / 0x2000_0000 % TWO32) % TWO32);
      if l < Nl {
        Nh := (Nh + 1) % TWO32;
      }
      Nh := (Nh + len / 0x2000_0000 % TWO32) % TWO32;
      Nl := l;
    }

    /** A partial block that the new bytes complete. */
    method FillBlock(bytes: seq<Byte>, ghost m: seq<Byte>)
      requires Holds(m) && |bytes| + num == 64
      modifies this`regs, this`num, data
      ensures Holds(m + bytes) && num == 0
    {
      hide Blocks;
      ghost var hashed, kept := m[..|m| - num], m[|m| - num..];
      MemCpy(num, bytes);
      Completed(m, bytes, num, data[..]);
      BlockDataOrder(data[..], 1);
      BlocksConcat(INITIAL, hashed, data[..]);
      num := 0;
      MemCpy(0, Zeros(64));
    }

    method WholeBlocks(bytes: seq<Byte>, n: nat, ghost m: seq<Byte>)
      requires Holds(m) && num == 0 && 64 * n <= |bytes|
      modifies this`regs
      ensures Holds(m + bytes[..64 * n])
    {
      hide Blocks;
      BlockDataOrder(bytes, n);
      assert m[..|m|] == m;
      BlocksConcat(INITIAL, m, bytes[..64 * n]);
      ghost var m' := m + bytes[..64 * n];
      assert m'[..|m'|] == m';
    }

    /** Bytes that do not complete a block. */
    method KeepRest(bytes: seq<Byte>, ghost m: seq<Byte>)
      requires Holds(m) && num + |bytes| < 64
      modifies this`num, data
      ensures Holds(m + bytes)
    {
      hide Blocks;
      MemCpy(num, bytes);
      num := num + |bytes|;
      ghost var m' := m + bytes;
      assert m'[..|m'| - num] == m[..|m| - old(num)];
    }

    method Update(bytes: seq<Byte>)
      requires Valid()
      modifies this, data
      ensures Valid() && msg == old(msg) + bytes
    {
      hide Blocks, Holds, Counts;
      var len := |bytes|;
      if len == 0 {
        assert msg + bytes == msg;
        return;
      }
      AddLength(len, |msg|);
      Absorb(bytes, msg);
      msg := msg + bytes;
    }

    /** Update from line 189 on: complete the partial block, hash whole blocks, keep the rest. */
    method Absorb(bytes: seq<Byte>, ghost m: seq<Byte>)
      requires Holds(m)
      modifies `regs, `num, data
      ensures Holds(m + bytes)
    {
      hide Blocks;
      var rest := bytes;
      ghost var seen := m;
      if num != 0 {
        if |bytes| >= 64 || |bytes| + num >= 64 {
          var n := 64 - num;
          FillBlock(bytes[..n], m);
          SplitAt(m, bytes, n);
          seen := m + bytes[..n];
          rest := bytes[n..];
        } else {
          KeepRest(bytes, m);
          return;
        }
      }
      AbsorbBlocks(rest, seen);
    }

    method AbsorbBlocks(bytes: seq<Byte>, ghost m: seq<Byte>)
      requires Holds(m) && num == 0
      modifies `regs, `num, data
      ensures Holds(m + bytes)
    {
      hide Blocks;
      var n := |bytes| / 64;
      SplitAt(m, bytes, 64 * n);
      if n > 0 {
        WholeBlocks(bytes, n, m);
      } else {
        assert m + bytes[..0] == m;
      }
      ghost var seen := m + bytes[..64 * n];
      if |bytes| - 64 * n != 0 {
        KeepRest(bytes[64 * n..], seen);
      } else {
        assert m + bytes == seen;
      }
    }

    /** The buffer, as one full block. */
    method HashBuffer(ghost hashed: seq<Byte>)
      requires data.Length == 64 && |hashed| % 64 == 0
      requires regs == Blocks(INITIAL, hashed)
      modifies this`regs
      ensures regs == Blocks(INITIAL, hashed + data[..])
    {
      hide Blocks;
      BlockDataOrder(data[..], 1);
      assert data[..][..64] == data[..];
      BlocksConcat(INITIAL, hashed, data[..]);
    }

    method Final() returns (md: seq<Byte>)
      requires Valid()
      modifies this, data
      ensures md == Digest(old(msg))
      ensures num == 0 && data[..] == Zeros(64)
    {
      hide Blocks, Output, LengthBytes, Zeros, Le32, Padded;
      ghost var hashed, tail := msg[..|msg| - num], msg[|msg| - num..];
      PaddedBlocks(msg, hashed, tail, Nl, Nh);
      hide *;
      var n := num;
      data[n] := 0x80;
      n := n + 1;
      ghost var kept := tail + [0x80];
      assert data[..n] == kept;
      if n > 56 {
        FullBlock(n, hashed, kept);
        hashed, kept, n := hashed + (kept + Zeros(64 - n)), [], 0;
        assert [] + Zeros(56) == Zeros(56);
      }
      LastBlock(n, hashed, kept);
      num := 0;
      MemCpy(0, Zeros(64));
      md := Output(regs);
      assert md == Digest(old(msg)) by {
        DigestIs(old(msg));
      }
    }

    /** Fills the block with zeros and hashes it. */
    method FullBlock(n: nat, ghost hashed: seq<Byte>, ghost kept: seq<Byte>)
      requires data.Length == 64 && n <= 64 && data[..n] == kept
      requires |hashed| % 64 == 0 && regs == Blocks(INITIAL, hashed)
      modifies `regs, data
      ensures regs == Blocks(INITIAL, hashed + (kept + Zeros(64 - n)))
      ensures |hashed + (kept + Zeros(64 - n))| % 64 == 0
    {
      hide Blocks, Zeros;
      MemCpy(n, Zeros(64 - n));
      assert data[..] == kept + Zeros(64 - n);
      HashBuffer(hashed);
    }

    /** Zeros up to the length, the length, and the last hash. */
    method LastBlock(n: nat, ghost hashed: seq<Byte>, ghost kept: seq<Byte>)
      requires data.Length == 64 && n <= 56 && data[..n] == kept && Nl < TWO32 && Nh < TWO32
      requires |hashed| % 64 == 0 && regs == Blocks(INITIAL, hashed)
      modifies `regs, data
      ensures regs == Blocks(INITIAL, hashed + (kept + Zeros(56 - n) + (Le32(Nl) + Le32(Nh))))
    {
      hide Blocks, Zeros, Le32;
      MemCpy(n, Zeros(56 - n));
      assert data[..56] == kept + Zeros(56 - n);
      MemCpy(56, Le32(Nl) + Le32(Nh));
      assert data[..] == kept + Zeros(56 - n) + (Le32(Nl) + Le32(Nh));
      HashBuffer(hashed);
    }
  }

  lemma DigestIs(m: seq<Byte>)
    ensures Digest(m) == Output(Blocks(INITIAL, Padded(m)))
  {
  }

  lemma CounterBytes(count: nat, nl: nat, nh: nat)
    requires nl < TWO32 && nh < TWO32 && nl + TWO32 * nh == 8 * count % TWO64
    ensures LengthBytes(count) == Le32(nl) + Le32(nh)
  {
    hide Le32;
    assert (nl + TWO32 * nh) % TWO32 == nl && (nl + TWO32 * nh) / TWO32 == nh;
  }

  lemma ZerosSplit(a: nat, b: nat)
    ensures Zeros(a + b) == Zeros(a) + Zeros(b)
  {
  }

  /** The padded message ends in one block or in two, as the `n > MD5_CBLOCK - 8` test tells. */
  lemma PaddedBlocks(m: seq<Byte>, hashed: seq<Byte>, tail: seq<Byte>, nl: nat, nh: nat)
    requires m == hashed + tail && |hashed| % 64 == 0 && |tail| < 64
    requires nl < TWO32 && nh < TWO32 && nl + TWO32 * nh == 8 * |m| % TWO64
    ensures |tail| <= 55 ==>
              Padded(m) == hashed + (tail + [0x80] + Zeros(55 - |tail|) + (Le32(nl) + Le32(nh)))
    ensures |tail| > 55 ==>
              Padded(m) == hashed + (tail + [0x80] + Zeros(63 - |tail|)) + (Zeros(56) + (Le32(nl) + Le32(nh)))
  {
    CounterBytes(|m|, nl, nh);
    PaddingOf(|hashed|, |tail|);
    var length := Le32(nl) + Le32(nh);
    assert Padded(m) == m + [0x80] + Zeros(ZerosNeeded(|m|)) + length by {
      hide Zeros, Le32, LengthBytes, ZerosNeeded;
    }
    hide *;
    if |tail| <= 55 {
      Regroup(hashed, tail, [0x80], Zeros(55 - |tail|), [], length);
    } else {
      ZerosSplit(63 - |tail|, 56);
      Regroup(hashed, tail, [0x80], Zeros(63 - |tail|), Zeros(56), length);
    }
  }

  lemma PaddingOf(hashed: nat, tail: nat)
    requires hashed % 64 == 0 && tail < 64
    ensures ZerosNeeded(hashed + tail) == if tail <= 55 then 55 - tail else 63 - tail + 56
  {
    var q := hashed / 64;
    assert 55 - (hashed + tail) == 64 * (0 - q) + (55 - tail);
    if tail <= 55 {
      Modulo64(0 - q, 55 - tail);
    } else {
      Modulo64(0 - q - 1, 119 - tail);
    }
  }

  lemma Modulo64(q: int, r: nat)
    requires r < 64
    ensures (64 * q + r) % 64 == r
  {
  }

  lemma Regroup(a: seq<Byte>, b: seq<Byte>, c: seq<Byte>, d: seq<Byte>, e: seq<Byte>, f: seq<Byte>)
    ensures a + b + c + (d + e) + f == a + (b + c + d) + (e + f)
    ensures e == [] ==> a + b + c + d + f == a + (b + c + d + f)
  {
  }

  /** The one-shot form. */
  method MD5(d: seq<Byte>) returns (md: seq<Byte>)
    ensures md == Digest(d)
  {
    var c := new MD5_CTX.Init();
    c.Update(d);
    assert [] + d == d;
    md := c.Final();
  }

  function Concat(chunks: seq<seq<Byte>>): seq<Byte> {
    if chunks == [] then [] else Concat(chunks[..|chunks| - 1]) + chunks[|chunks| - 1]
  }

  /** Any client: however a message is cut into Update calls, the digest is that of RFC 1321. */
  method DigestOfChunks(chunks: seq<seq<Byte>>) returns (md: seq<Byte>)
    ensures md == Digest(Concat(chunks))
  {
    hide Blocks, Digest, MD5_CTX.Valid;
    var c := new MD5_CTX.Init();
    for i := 0 to |chunks|
      invariant c.Valid() && c.msg == Concat(chunks[..i])
      invariant fresh(c) && fresh(c.data)
    {
      c.Update(chunks[i]);
      assert chunks[..i + 1][..i] == chunks[..i];
    }
    assert chunks[..|chunks|] == chunks;
    md := c.Final();
  }
}
