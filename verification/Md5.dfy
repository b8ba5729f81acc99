// MD5, twice: the reference C code (src/asm/rfc1321/md5c.c) and the Limbo program (limbo/md5sum.b),
// against sections 3.1 to 3.5 of RFC 1321.
module Md5 {

  type Word = bv32
  type Byte = bv8
  type Shift = n: nat | n <= 32

  const WORD := 0x1_0000_0000

  // ---- words and bytes, low-order byte first ----

  function WordAt(b: seq<Byte>): Word
    requires |b| == 4
  {
    Join(b[0], b[1], b[2], b[3])
  }

  function Join(p: Byte, q: Byte, r: Byte, s: Byte): Word {
    (p as Word) | ((q as Word) << 8) | ((r as Word) << 16) | ((s as Word) << 24)
  }

  function BytesOf(w: Word): (b: seq<Byte>)
    ensures |b| == 4
  {
    [(w & 0xff) as Byte, ((w >> 8) & 0xff) as Byte, ((w >> 16) & 0xff) as Byte, ((w >> 24) & 0xff) as Byte]
  }

  lemma BytesUndoWord(b: seq<Byte>)
    requires |b| == 4
    ensures BytesOf(WordAt(b)) == b
  {
  }

  function ToByte(n: nat): Byte requires n < 256 { n as Byte }
  function ByteOf(n: nat): Byte { ToByte(n % 256) }

  function FourBytes(n: nat): (b: seq<Byte>)
    ensures |b| == 4
  {
    [ByteOf(n), ByteOf(n / 0x100), ByteOf(n / 0x1_0000), ByteOf(n / 0x100_0000)]
  }

  /** A number below 2^32 as a word. */
  function Bits(n: nat): Word { WordAt(FourBytes(n)) }

  // ---- section 3.4 of RFC 1321 ----

  function F(x: Word, y: Word, z: Word): Word { (x & y) | (!x & z) }
  function G(x: Word, y: Word, z: Word): Word { (x & z) | (y & !z) }
  function H(x: Word, y: Word, z: Word): Word { x ^ y ^ z }
  function I(x: Word, y: Word, z: Word): Word { y ^ (x | !z) }

  function Or(x: Word, y: Word): Word { x | y }

  /** `x << n` and the unsigned `x >> n`, one bit position at a time. */
  function ShiftLeft(x: Word, n: nat): Word
    decreases n
  {
    if n == 0 then x else ShiftLeftOne(ShiftLeft(x, n - 1))
  }

  function ShiftRight(x: Word, n: nat): Word
    decreases n
  {
    if n == 0 then x else ShiftRightOne(ShiftRight(x, n - 1))
  }

  function ShiftLeftOne(x: Word): Word { x << 1 }
  function ShiftRightOne(x: Word): Word { x >> 1 }

  /** x shifted circularly, left by n bit positions. */
  function Rotated(x: Word, n: Shift): Word { Or(ShiftLeft(x, n), ShiftRight(x, 32 - n)) }

  function Add(x: Word, y: Word): Word { x + y }

  datatype Regs = Regs(a: Word, b: Word, c: Word, d: Word)

  const INIT := Regs(0x67452301, 0xefcdab89, 0x98badcfe, 0x10325476)

  datatype Row<T> = Row(p: T, q: T, r: T, s: T)

  function Nth<T>(row: Row<T>, j: nat): T { if j == 0 then row.p else if j == 1 then row.q else if j == 2 then row.r else row.s }

  type Index = k: int | 0 <= k < 16

  /** The input word, rotation and sine table entry of each of the 64 operations, four to a row. */
  function IndexRow(row: nat): Row<Index>
    requires row < 16
  {
    match row
    case 0 => Row(0, 1, 2, 3)
    case 1 => Row(4, 5, 6, 7)
    case 2 => Row(8, 9, 10, 11)
    case 3 => Row(12, 13, 14, 15)
    case 4 => Row(1, 6, 11, 0)
    case 5 => Row(5, 10, 15, 4)
    case 6 => Row(9, 14, 3, 8)
    case 7 => Row(13, 2, 7, 12)
    case 8 => Row(5, 8, 11, 14)
    case 9 => Row(1, 4, 7, 10)
    case 10 => Row(13, 0, 3, 6)
    case 11 => Row(9, 12, 15, 2)
    case 12 => Row(0, 7, 14, 5)
    case 13 => Row(12, 3, 10, 1)
    case 14 => Row(8, 15, 6, 13)
    case _ => Row(4, 11, 2, 9)
  }

  function ShiftRow(row: nat): Row<Shift>
    requires row < 16
  {
    if row < 4 then Row(7, 12, 17, 22) else if row < 8 then Row(5, 9, 14, 20)
    else if row < 12 then Row(4, 11, 16, 23) else Row(6, 10, 15, 21)
  }

  function SineRow(row: nat): Row<Word>
    requires row < 16
  {
    match row
    case 0 => Row(0xd76aa478, 0xe8c7b756, 0x242070db, 0xc1bdceee)
    case 1 => Row(0xf57c0faf, 0x4787c62a, 0xa8304613, 0xfd469501)
    case 2 => Row(0x698098d8, 0x8b44f7af, 0xffff5bb1, 0x895cd7be)
    case 3 => Row(0x6b901122, 0xfd987193, 0xa679438e, 0x49b40821)
    case 4 => Row(0xf61e2562, 0xc040b340, 0x265e5a51, 0xe9b6c7aa)
    case 5 => Row(0xd62f105d, 0x02441453, 0xd8a1e681, 0xe7d3fbc8)
    case 6 => Row(0x21e1cde6, 0xc33707d6, 0xf4d50d87, 0x455a14ed)
    case 7 => Row(0xa9e3e905, 0xfcefa3f8, 0x676f02d9, 0x8d2a4c8a)
    case 8 => Row(0xfffa3942, 0x8771f681, 0x6d9d6122, 0xfde5380c)
    case 9 => Row(0xa4beea44, 0x4bdecfa9, 0xf6bb4b60, 0xbebfbc70)
    case 10 => Row(0x289b7ec6, 0xeaa127fa, 0xd4ef3085, 0x04881d05)
    case 11 => Row(0xd9d4d039, 0xe6db99e5, 0x1fa27cf8, 0xc4ac5665)
    case 12 => Row(0xf4292244, 0x432aff97, 0xab9423a7, 0xfc93a039)
    case 13 => Row(0x655b59c3, 0x8f0ccc92, 0xffeff47d, 0x85845dd1)
    case 14 => Row(0x6fa87e4f, 0xfe2ce6e0, 0xa3014314, 0x4e0811a1)
    case _ => Row(0xf7537e82, 0xbd3af235, 0x2ad7d2bb, 0xeb86d391)
  }

  function IndexAt(i: nat): Index requires i < 64 { Nth(IndexRow(i / 4), i % 4) }
  function ShiftAt(i: nat): Shift requires i < 64 { Nth(ShiftRow(i / 4), i % 4) }
  function SineAt(i: nat): Word requires i < 64 { Nth(SineRow(i / 4), i % 4) }

  function Auxiliary(round: nat, x: Word, y: Word, z: Word): Word {
    match round
    case 0 => F(x, y, z)
    case 1 => G(x, y, z)
    case 2 => H(x, y, z)
    case _ => I(x, y, z)
  }

  /** a = b + ((a + f + X[k] + T[i]) <<< s). */
  function Mix(a: Word, b: Word, f: Word, x: Word, s: Shift, t: Word): Word
  {
    Add(b, Rotated(a + f + x + t, s))
  }

  function Operation(round: nat, a: Word, b: Word, c: Word, d: Word, x: Word, s: Shift, t: Word): Word
  {
    Mix(a, b, Auxiliary(round, b, c, d), x, s, t)
  }

  /** One operation; the four registers then change places. */
  function Step(r: Regs, x: seq<Word>, i: nat): Regs
    requires |x| == 16 && i < 64
  {
    Regs(r.d, Operation(i / 16, r.a, r.b, r.c, r.d, x[IndexAt(i)], ShiftAt(i), SineAt(i)), r.b, r.c)
  }

  function Steps(r: Regs, x: seq<Word>, n: nat): Regs
    requires |x| == 16 && n <= 64
  {
    if n == 0 then r else Step(Steps(r, x, n - 1), x, n - 1)
  }

  function Words(block: seq<Byte>): (x: seq<Word>)
    requires |block| == 64
    ensures |x| == 16
  {
    seq(16, j requires 0 <= j < 16 => WordAt(block[4 * j..4 * j + 4]))
  }

  function Sum(r: Regs, s: Regs): Regs { Regs(Add(r.a, s.a), Add(r.b, s.b), Add(r.c, s.c), Add(r.d, s.d)) }

  function Compress(r: Regs, block: seq<Byte>): Regs
    requires |block| == 64
  {
    Sum(r, Steps(r, Words(block), 64))
  }

  /** The block function folded over the whole blocks of s. */
  function Fold(r: Regs, s: seq<Byte>): Regs
    decreases |s|
  {
    if |s| < 64 then r else Fold(Compress(r, s[..64]), s[64..])
  }

  // ---- sections 3.1, 3.2 and 3.5 ----

  function Zeros(n: nat): (z: seq<Byte>)
    ensures |z| == n && forall i :: 0 <= i < n ==> z[i] == 0
  {
    seq(n, i => 0)
  }

  /** The length in bits, modulo 2^64, low-order byte first. */
  function LengthBytes(n: nat): (b: seq<Byte>)
    ensures |b| == 8
  {
    FourBytes(8 * n) + FourBytes(8 * n / WORD)
  }

  function Padding(n: nat): (p: seq<Byte>)
    ensures (n + |p|) % 64 == 0
  {
    PaddingFits(n);
    [0x80] + Zeros((55 - n) % 64) + LengthBytes(n)
  }

  lemma PaddingFits(n: nat)
    ensures (n + 1 + (55 - n) % 64 + 8) % 64 == 0
  {
  }

  function DigestBytes(r: Regs): (d: seq<Byte>)
    ensures |d| == 16
  {
    BytesOf(r.a) + BytesOf(r.b) + BytesOf(r.c) + BytesOf(r.d)
  }

  function Digest(message: seq<Byte>): seq<Byte> {
    DigestBytes(Fold(INIT, message + Padding(|message|)))
  }

  lemma {:induction false} FoldAppend(r: Regs, s: seq<Byte>, t: seq<Byte>)
    requires |s| % 64 == 0
    ensures Fold(r, s + t) == Fold(Fold(r, s), t)
    decreases |s|
  {
    if s == [] {
      assert s + t == t;
    } else {
      assert (s + t)[..64] == s[..64] && (s + t)[64..] == s[64..] + t;
      FoldAppend(Compress(r, s[..64]), s[64..], t);
    }
  }

  lemma FoldBlock(r: Regs, s: seq<Byte>, block: seq<Byte>)
    requires |s| % 64 == 0 && |block| == 64
    ensures Fold(r, s + block) == Compress(Fold(r, s), block)
  {
    FoldAppend(r, s, block);
    assert block[..64] == block && block[64..] == [];
  }

  lemma FoldTail(r: Regs, s: seq<Byte>, t: seq<Byte>)
    requires |s| % 64 == 0 && |t| < 64
    ensures Fold(r, s + t) == Fold(r, s)
  {
    FoldAppend(r, s, t);
  }

  // ---- the C code ----

  /** The common part of the macros: (a) += f + x + ac, (a) = ROTATE_LEFT((a), s), (a) += (b). */
  function MixInPlace(a: Word, b: Word, f: Word, x: Word, s: Shift, ac: Word): Word {
    Add(Rotated(a + (f + x + ac), s), b)
  }

  lemma MixIsMix(a: Word, b: Word, f: Word, x: Word, s: Shift, ac: Word)
    ensures MixInPlace(a, b, f, x, s, ac) == Mix(a, b, f, x, s, ac)
  {
  }

  method FF(a: Word, b: Word, c: Word, d: Word, x: Word, s: Shift, ac: Word) returns (r: Word)
    ensures r == Operation(0, a, b, c, d, x, s, ac)
  {
    MixIsMix(a, b, F(b, c, d), x, s, ac);
    r := MixInPlace(a, b, F(b, c, d), x, s, ac);
  }

  method GG(a: Word, b: Word, c: Word, d: Word, x: Word, s: Shift, ac: Word) returns (r: Word)
    ensures r == Operation(1, a, b, c, d, x, s, ac)
  {
    MixIsMix(a, b, G(b, c, d), x, s, ac);
    r := MixInPlace(a, b, G(b, c, d), x, s, ac);
  }

  method HH(a: Word, b: Word, c: Word, d: Word, x: Word, s: Shift, ac: Word) returns (r: Word)
    ensures r == Operation(2, a, b, c, d, x, s, ac)
  {
    MixIsMix(a, b, H(b, c, d), x, s, ac);
    r := MixInPlace(a, b, H(b, c, d), x, s, ac);
  }

  method II(a: Word, b: Word, c: Word, d: Word, x: Word, s: Shift, ac: Word) returns (r: Word)
    ensures r == Operation(3, a, b, c, d, x, s, ac)
  {
    MixIsMix(a, b, I(b, c, d), x, s, ac);
    r := MixInPlace(a, b, I(b, c, d), x, s, ac);
  }

  /** Four operations bring every register back to its place. */
  function Quad(r: Regs, x: seq<Word>, row: nat): Regs
    requires |x| == 16 && row < 16
  {
    var round, k, s, t := row / 4, IndexRow(row), ShiftRow(row), SineRow(row);
    var a := Operation(round, r.a, r.b, r.c, r.d, x[k.p], s.p, t.p);
    var d := Operation(round, r.d, a, r.b, r.c, x[k.q], s.q, t.q);
    var c := Operation(round, r.c, d, a, r.b, x[k.r], s.r, t.r);
    var b := Operation(round, r.b, c, d, a, x[k.s], s.s, t.s);
    Regs(a, b, c, d)
  }

  lemma FourSteps(r: Regs, x: seq<Word>, row: nat)
    requires |x| == 16 && row < 16
    ensures Steps(r, x, 4 * row + 4) == Quad(Steps(r, x, 4 * row), x, row)
  {
    hide Operation, Step, IndexRow, ShiftRow, SineRow;
    var i := 4 * row;
    var was := Steps(r, x, i);
    assert Steps(r, x, i + 1) == Step(was, x, i);
    assert Steps(r, x, i + 2) == Step(Step(was, x, i), x, i + 1);
    assert Steps(r, x, i + 3) == Step(Step(Step(was, x, i), x, i + 1), x, i + 2);
    StepInRow(was, x, row, 0);
    StepInRow(Step(was, x, i), x, row, 1);
    StepInRow(Step(Step(was, x, i), x, i + 1), x, row, 2);
    StepInRow(Step(Step(Step(was, x, i), x, i + 1), x, i + 2), x, row, 3);
  }

  lemma StepInRow(r: Regs, x: seq<Word>, row: nat, j: nat)
    requires |x| == 16 && row < 16 && j < 4
    ensures Step(r, x, 4 * row + j) ==
      var k, s, t := Nth(IndexRow(row), j), Nth(ShiftRow(row), j), Nth(SineRow(row), j);
      Regs(r.d, Operation(row / 4, r.a, r.b, r.c, r.d, x[k], s, t), r.b, r.c)
  {
    assert (4 * row + j) / 4 == row && (4 * row + j) % 4 == j && (4 * row + j) / 16 == row / 4;
  }

  method Round1(r: Regs, x: seq<Word>, was: Regs) returns (now: Regs)
    requires |x| == 16 && was == Steps(r, x, 0)
    ensures now == Steps(r, x, 16)
  {
    hide Operation, Steps;
    var a, b, c, d := was.a, was.b, was.c, was.d;
    a := FF(a, b, c, d, x[0], 7, 0xd76aa478);
    d := FF(d, a, b, c, x[1], 12, 0xe8c7b756);
    c := FF(c, d, a, b, x[2], 17, 0x242070db);
    b := FF(b, c, d, a, x[3], 22, 0xc1bdceee);
    FourSteps(r, x, 0);
    a := FF(a, b, c, d, x[4], 7, 0xf57c0faf);
    d := FF(d, a, b, c, x[5], 12, 0x4787c62a);
    c := FF(c, d, a, b, x[6], 17, 0xa8304613);
    b := FF(b, c, d, a, x[7], 22, 0xfd469501);
    FourSteps(r, x, 1);
    a := FF(a, b, c, d, x[8], 7, 0x698098d8);
    d := FF(d, a, b, c, x[9], 12, 0x8b44f7af);
    c := FF(c, d, a, b, x[10], 17, 0xffff5bb1);
    b := FF(b, c, d, a, x[11], 22, 0x895cd7be);
    FourSteps(r, x, 2);
    a := FF(a, b, c, d, x[12], 7, 0x6b901122);
    d := FF(d, a, b, c, x[13], 12, 0xfd987193);
    c := FF(c, d, a, b, x[14], 17, 0xa679438e);
    b := FF(b, c, d, a, x[15], 22, 0x49b40821);
    FourSteps(r, x, 3);
    now := Regs(a, b, c, d);
  }

  method Round2(r: Regs, x: seq<Word>, was: Regs) returns (now: Regs)
    requires |x| == 16 && was == Steps(r, x, 16)
    ensures now == Steps(r, x, 32)
  {
    hide Operation, Steps;
    var a, b, c, d := was.a, was.b, was.c, was.d;
    a := GG(a, b, c, d, x[1], 5, 0xf61e2562);
    d := GG(d, a, b, c, x[6], 9, 0xc040b340);
    c := GG(c, d, a, b, x[11], 14, 0x265e5a51);
    b := GG(b, c, d, a, x[0], 20, 0xe9b6c7aa);
    FourSteps(r, x, 4);
    a := GG(a, b, c, d, x[5], 5, 0xd62f105d);
    d := GG(d, a, b, c, x[10], 9, 0x2441453);
    c := GG(c, d, a, b, x[15], 14, 0xd8a1e681);
    b := GG(b, c, d, a, x[4], 20, 0xe7d3fbc8);
    FourSteps(r, x, 5);
    a := GG(a, b, c, d, x[9], 5, 0x21e1cde6);
    d := GG(d, a, b, c, x[14], 9, 0xc33707d6);
    c := GG(c, d, a, b, x[3], 14, 0xf4d50d87);
    b := GG(b, c, d, a, x[8], 20, 0x455a14ed);
    FourSteps(r, x, 6);
    a := GG(a, b, c, d, x[13], 5, 0xa9e3e905);
    d := GG(d, a, b, c, x[2], 9, 0xfcefa3f8);
    c := GG(c, d, a, b, x[7], 14, 0x676f02d9);
    b := GG(b, c, d, a, x[12], 20, 0x8d2a4c8a);
    FourSteps(r, x, 7);
    now := Regs(a, b, c, d);
  }

  method Round3(r: Regs, x: seq<Word>, was: Regs) returns (now: Regs)
    requires |x| == 16 && was == Steps(r, x, 32)
    ensures now == Steps(r, x, 48)
  {
    hide Operation, Steps;
    var a, b, c, d := was.a, was.b, was.c, was.d;
    a := HH(a, b, c, d, x[5], 4, 0xfffa3942);
    d := HH(d, a, b, c, x[8], 11, 0x8771f681);
    c := HH(c, d, a, b, x[11], 16, 0x6d9d6122);
    b := HH(b, c, d, a, x[14], 23, 0xfde5380c);
    FourSteps(r, x, 8);
    a := HH(a, b, c, d, x[1], 4, 0xa4beea44);
    d := HH(d, a, b, c, x[4], 11, 0x4bdecfa9);
    c := HH(c, d, a, b, x[7], 16, 0xf6bb4b60);
    b := HH(b, c, d, a, x[10], 23, 0xbebfbc70);
    FourSteps(r, x, 9);
    a := HH(a, b, c, d, x[13], 4, 0x289b7ec6);
    d := HH(d, a, b, c, x[0], 11, 0xeaa127fa);
    c := HH(c, d, a, b, x[3], 16, 0xd4ef3085);
    b := HH(b, c, d, a, x[6], 23, 0x4881d05);
    FourSteps(r, x, 10);
    a := HH(a, b, c, d, x[9], 4, 0xd9d4d039);
    d := HH(d, a, b, c, x[12], 11, 0xe6db99e5);
    c := HH(c, d, a, b, x[15], 16, 0x1fa27cf8);
    b := HH(b, c, d, a, x[2], 23, 0xc4ac5665);
    FourSteps(r, x, 11);
    now := Regs(a, b, c, d);
  }

  method Round4(r: Regs, x: seq<Word>, was: Regs) returns (now: Regs)
    requires |x| == 16 && was == Steps(r, x, 48)
    ensures now == Steps(r, x, 64)
  {
    hide Operation, Steps;
    var a, b, c, d := was.a, was.b, was.c, was.d;
    a := II(a, b, c, d, x[0], 6, 0xf4292244);
    d := II(d, a, b, c, x[7], 10, 0x432aff97);
    c := II(c, d, a, b, x[14], 15, 0xab9423a7);
    b := II(b, c, d, a, x[5], 21, 0xfc93a039);
    FourSteps(r, x, 12);
    a := II(a, b, c, d, x[12], 6, 0x655b59c3);
    d := II(d, a, b, c, x[3], 10, 0x8f0ccc92);
    c := II(c, d, a, b, x[10], 15, 0xffeff47d);
    b := II(b, c, d, a, x[1], 21, 0x85845dd1);
    FourSteps(r, x, 13);
    a := II(a, b, c, d, x[8], 6, 0x6fa87e4f);
    d := II(d, a, b, c, x[15], 10, 0xfe2ce6e0);
    c := II(c, d, a, b, x[6], 15, 0xa3014314);
    b := II(b, c, d, a, x[13], 21, 0x4e0811a1);
    FourSteps(r, x, 14);
    a := II(a, b, c, d, x[4], 6, 0xf7537e82);
    d := II(d, a, b, c, x[11], 10, 0xbd3af235);
    c := II(c, d, a, b, x[2], 15, 0x2ad7d2bb);
    b := II(b, c, d, a, x[9], 21, 0xeb86d391);
    FourSteps(r, x, 15);
    now := Regs(a, b, c, d);
  }

  method Transform(state: array<Word>, block: array<Byte>, start: nat)
    requires state.Length == 4 && start + 64 <= block.Length
    modifies state
    ensures RegsIn(state) == old(Compress(RegsIn(state), block[start..start + 64]))
  {
    hide Steps, WordAt, Sum;
    var r := Regs(state[0], state[1], state[2], state[3]);
    var x := Decode(block, start);
    NoSteps(r, x);
    var now := Round1(r, x, r);
    now := Round2(r, x, now);
    now := Round3(r, x, now);
    now := Round4(r, x, now);
    AddInto(state, now);
  }

  method AddInto(state: array<Word>, r: Regs)
    requires state.Length == 4
    modifies state
    ensures RegsIn(state) == old(Sum(RegsIn(state), r))
  {
    hide Add;
    state[0] := Add(state[0], r.a);
    state[1] := Add(state[1], r.b);
    state[2] := Add(state[2], r.c);
    state[3] := Add(state[3], r.d);
  }

  lemma NoSteps(r: Regs, x: seq<Word>)
    requires |x| == 16
    ensures Steps(r, x, 0) == r
  {
  }

  /** A word, as the source puts it together from four bytes. */
  method WordFrom(block: array<Byte>, j: nat) returns (w: Word)
    requires j + 4 <= block.Length
    ensures w == WordAt(block[j..j + 4])
  {
    hide Join;
    ghost var s := block[j..j + 4];
    assert s[0] == block[j] && s[1] == block[j + 1] && s[2] == block[j + 2] && s[3] == block[j + 3];
    w := Join(block[j], block[j + 1], block[j + 2], block[j + 3]);
    assert w == Join(s[0], s[1], s[2], s[3]) == WordAt(s);
  }

  method Decode(block: array<Byte>, start: nat) returns (x: seq<Word>)
    requires start + 64 <= block.Length
    ensures x == Words(block[start..start + 64])
  {
    hide WordAt;
    ghost var w := Words(block[start..start + 64]);
    var i, j := 0, start;
    x := [];
    while j < start + 64
      invariant i <= 16 && j == start + 4 * i && x == w[..i]
    {
      SliceOfSlice(block[..], start, i);
      var v := WordFrom(block, j);
      assert block[..][j..j + 4] == block[j..j + 4];
      x := x + [v];
      i, j := i + 1, j + 4;
    }
  }

  lemma SliceOfSlice(s: seq<Byte>, start: nat, i: nat)
    requires start + 64 <= |s| && i < 16
    ensures s[start..start + 64][4 * i..4 * i + 4] == s[start + 4 * i..start + 4 * i + 4]
  {
    var j := start + 4 * i;
    var u, v := s[start..start + 64][4 * i..4 * i + 4], s[j..j + 4];
    assert u[0] == s[j] == v[0] && u[1] == s[j + 1] == v[1] && u[2] == s[j + 2] == v[2] && u[3] == s[j + 3] == v[3];
    assert u == v;
  }

  function RegsIn(state: array<Word>): Regs
    requires state.Length == 4
    reads state
  {
    Regs(state[0], state[1], state[2], state[3])
  }

  /** Encode: the bytes of each word in turn. */
  method Encode(output: array<Byte>, input: seq<Word>)
    requires output.Length == 4 * |input|
    modifies output
    ensures forall k :: 0 <= k < |input| ==> output[4 * k..4 * k + 4] == BytesOf(input[k])
  {
    var i, j := 0, 0;
    while j < output.Length
      invariant i <= |input| && j == 4 * i
      invariant forall k :: 0 <= k < i ==> output[4 * k..4 * k + 4] == BytesOf(input[k])
    {
      ghost var was := output[..];
      StoreWord(output, j, input[i]);
      assert forall k :: 0 <= k < i ==> output[4 * k..4 * k + 4] == was[4 * k..4 * k + 4];
      i, j := i + 1, j + 4;
    }
  }

  method StoreWord(output: array<Byte>, j: nat, w: Word)
    requires j + 4 <= output.Length
    modifies output
    ensures output[j..j + 4] == BytesOf(w)
    ensures forall k :: 0 <= k < output.Length && !(j <= k < j + 4) ==> output[k] == old(output[k])
  {
    output[j] := (w & 0xff) as Byte;
    output[j + 1] := ((w >> 8) & 0xff) as Byte;
    output[j + 2] := ((w >> 16) & 0xff) as Byte;
    output[j + 3] := ((w >> 24) & 0xff) as Byte;
  }

  /** memcpy. */
  method Copy(output: array<Byte>, to: nat, input: array<Byte>, from: nat, len: nat)
    requires to + len <= output.Length && from + len <= input.Length && output != input
    modifies output
    ensures output[..] == old(output[..to]) + input[from..from + len] + old(output[to + len..])
  {
    var k := 0;
    while k < len
      invariant k <= len
      invariant output[..] == old(output[..to]) + input[from..from + k] + old(output[to + k..])
    {
      output[to + k] := input[from + k];
      k := k + 1;
    }
  }

  // ---- the guard of the block loop ----

  /** The test of the loop over the blocks, `i + 63 < inputLen` in 32 bits. */
  predicate GoesOn(i: nat, len: nat) { (i + 63) % WORD < len }

  /** Whether the loop of MD5Update, started at i, gets to a block that ends beyond the input. */
  predicate Overruns(i: nat, len: nat)
    requires i < WORD && len < WORD
    decreases WORD - i
  {
    if GoesOn(i, len) then i + 64 > len || Overruns(i + 64, len) else false
  }

  /** It does so exactly when the input, put behind the bytes already buffered, reaches 2^32 bytes. */
  lemma {:induction false} OverrunsIff(i: nat, index: nat, len: nat)
    requires index < 64 && i <= len < WORD && (i + index) % 64 == 0
    ensures Overruns(i, len) <==> index + len >= WORD
    decreases len - i
  {
    if i + 64 <= len {
      OverrunsIff(i + 64, index, len);
    } else {
      assert WORD % 64 == 0;
    }
  }

  /** A first call with one byte, a second one with 2^32 - 1. */
  lemma GuardCanWrap()
    ensures Overruns(63, WORD - 1)
  {
    OverrunsIff(63, 1, WORD - 1);
  }

  class Context {
    const state: array<Word>
    var count0: nat                 // number of bits modulo 2^64, low-order word
    var count1: nat                 // and high-order word
    const buffer: array<Byte>
    ghost var message: seq<Byte>    // everything given to Update so far

    ghost predicate Valid()
      reads this, state, buffer
    {
      && state.Length == 4 && buffer.Length == 64
      && CountOf(count0, count1, |message|)
      && RegsIn(state) == Fold(INIT, message)
      && buffer[..|message| % 64] == message[|message| - |message| % 64..]
    }

    /** MD5Init. */
    constructor ()
      ensures Valid() && message == [] && fresh(state) && fresh(buffer)
    {
      state := new Word[4] [0x67452301, 0xefcdab89, 0x98badcfe, 0x10325476];
      count0, count1 := 0, 0;
      buffer := new Byte[64];
      message := [];
    }

    /** The number of bits, in two words, after input_len more bytes. */
    method AddCount(input_len: nat)
      requires input_len < WORD && CountOf(count0, count1, |message|)
      modifies this`count0, this`count1
      ensures CountOf(count0, count1, |message| + input_len)
    {
      var was0, was1 := count0, count1;
      count0 := (count0 + 8 * input_len % WORD) % WORD;
      if count0 < 8 * input_len % WORD { count1 := (count1 + 1) % WORD; }
      count1 := (count1 + input_len / 0x2000_0000) % WORD;
      CountAdvances(was0, was1, count0, count1, |message|, input_len);
    }

    /** The loop over the blocks of the input, from position i on; s is what came before. False when it gets to a block that ends
        beyond the input. */
    method Blocks(input: array<Byte>, from: nat, input_len: nat, ghost index: nat, ghost s: seq<Byte>)
      returns (ok: bool, i: nat)
      requires state.Length == 4 && RegsIn(state) == Fold(INIT, s) && |s| % 64 == 0
      requires from <= input_len <= input.Length && input_len < WORD && index < 64 && (from + index) % 64 == 0
      modifies state
      ensures ok <==> index + input_len < WORD
      ensures ok ==> from <= i <= input_len < i + 64
      ensures ok ==> RegsIn(state) == Fold(INIT, s + input[from..i]) && |s + input[from..i]| % 64 == 0
    {
      hide Fold, Compress, GoesOn, Aligned;
      i := from;
      ghost var done := s;
      AlignedIs(|s|, from + index);
      AtGuard(i, index, input_len);
      while GoesOn(i, input_len)
        invariant from <= i <= input_len && Aligned(|done|) && done == s + input[from..i] && RegsIn(state) == Fold(INIT, done)
        invariant GoesOn(i, input_len) <==> i + 64 <= input_len || index + input_len >= WORD
        invariant Aligned(i + index)
        decreases input_len - i
      {
        if i + 64 > input_len { return false, i; }
        Transform(state, input, i);
        NextBlock(done, input[i..i + 64], i + index);
        done := done + input[i..i + 64];
        i := i + 64;
        AtGuard(i, index, input_len);
      }
      AlignedIs(|done|, i + index);
      ok := true;
    }

    /** The number of buffered bytes. */
    method Index() returns (index: nat)
      requires Valid()
      ensures index == |message| % 64
    {
      IndexOfCount(count0, count1, |message|);
      index := count0 / 8 % 64;
    }

    /** Both words of the count, low-order word first. */
    method EncodeCount() returns (bits: array<Byte>)
      requires Valid()
      ensures fresh(bits) && bits.Length == 8 && bits[..] == LengthBytes(|message|)
    {
      hide BytesOf, LengthBytes;
      bits := new Byte[8];
      var count := [Bits(count0), Bits(count1)];
      Encode(bits, count);
      assert bits[4 * 0..4 * 0 + 4] == BytesOf(count[0]) && bits[4 * 1..4 * 1 + 4] == BytesOf(count[1]);
      assert bits[..][0..4] == bits[0..4] && bits[..][4..8] == bits[4..8];
      CountBytes(count0, count1, |message|, bits[..]);
    }

    /** Pad out to 56 mod 64 and append the length before padding. */
    method AppendPadding()
      requires Valid()
      modifies this, state, buffer
      ensures Valid() && message == old(message) + Padding(|old(message)|)
    {
      hide Valid, LengthBytes, Zeros, Padding;
      ghost var m := message;
      var bits := EncodeCount();
      ghost var length := bits[..];
      var index := Index();
      var pad_len := if index < 56 then 56 - index else 120 - index;
      var padding := NewPadding();
      var ok := Update(padding, pad_len);
      ghost var pad := padding[..pad_len];
      ok := Update(bits, 8);
      assert bits[..8] == length;
      Padded(m, pad, length);
    }

    /** MD5Final: the digest of everything given to Update; the context is wiped. */
    method Final(digest: array<Byte>)
      requires Valid() && digest.Length == 16 && digest != buffer
      modifies this, state, buffer, digest
      ensures digest[..] == Digest(old(message))
      ensures count0 == count1 == 0 && (forall k :: 0 <= k < 4 ==> state[k] == 0) && (forall k :: 0 <= k < 64 ==> buffer[k] == 0)
    {
      AppendPadding();
      EncodeDigest(digest);
      Wipe();
    }

    method EncodeDigest(digest: array<Byte>)
      requires state.Length == 4 && digest.Length == 16
      modifies digest
      ensures digest[..] == DigestBytes(RegsIn(state))
    {
      hide BytesOf;
      var words := [state[0], state[1], state[2], state[3]];
      Encode(digest, words);
      assert digest[4 * 0..4 * 0 + 4] == BytesOf(words[0]) && digest[4 * 1..4 * 1 + 4] == BytesOf(words[1]);
      assert digest[4 * 2..4 * 2 + 4] == BytesOf(words[2]) && digest[4 * 3..4 * 3 + 4] == BytesOf(words[3]);
      FourSlices(digest[..]);
    }

    method Wipe()
      requires state.Length == 4 && buffer.Length == 64
      modifies this, state, buffer
      ensures count0 == count1 == 0 && (forall k :: 0 <= k < 4 ==> state[k] == 0) && (forall k :: 0 <= k < 64 ==> buffer[k] == 0)
    {
      count0, count1 := 0, 0;
      forall k | 0 <= k < state.Length { state[k] := 0; }
      forall k | 0 <= k < buffer.Length { buffer[k] := 0; }
    }

    /** All the data is made of whole blocks that have been digested and of bytes that are left to buffer. */
    ghost predicate Digested(data: seq<Byte>, done: seq<Byte>, rest: seq<Byte>)
      requires state.Length == 4
      reads state
    {
      data == done + rest && |done| % 64 == 0 && |rest| < 64 && RegsIn(state) == Fold(INIT, done)
    }

    /** Fills up the buffer, digests it and the blocks that follow. */
    method Absorb(input: array<Byte>, index: nat, input_len: nat, ghost whole: seq<Byte>)
      returns (ok: bool, i: nat, ghost done: seq<Byte>)
      requires state.Length == 4 && buffer.Length == 64 && input != buffer && input_len <= input.Length
      requires index < 64 <= index + input_len && input_len < WORD
      requires |whole| % 64 == 0 && RegsIn(state) == Fold(INIT, whole)
      modifies state, buffer
      ensures ok <==> index + input_len < WORD
      ensures ok ==> i <= input_len && Digested(whole + old(buffer[..index]) + input[..input_len], done, input[i..input_len])
    {
      hide Fold, Compress;
      var part_len := 64 - index;
      ghost var tail := buffer[..index];
      Copy(buffer, index, input, 0, part_len);
      ghost var block := tail + input[0..part_len];
      assert buffer[0..64] == block;
      FoldBlock(INIT, whole, block);
      Transform(state, buffer, 0);
      done := [];
      ok, i := Blocks(input, part_len, input_len, index, whole + block);
      if !ok { return; }
      done := whole + block + input[part_len..i];
      Regroup(whole, tail, input[..], part_len, i, input_len);
    }

    /** The branch on whether the input completes a block. */
    method AbsorbIfFull(input: array<Byte>, index: nat, input_len: nat, ghost whole: seq<Byte>)
      returns (ok: bool, i: nat, index': nat, ghost done: seq<Byte>)
      requires state.Length == 4 && buffer.Length == 64 && input != buffer && input_len <= input.Length
      requires index < 64 && input_len < WORD
      requires |whole| % 64 == 0 && RegsIn(state) == Fold(INIT, whole)
      modifies state, buffer
      ensures ok <==> index + input_len < WORD
      ensures ok ==> i <= input_len && index' < 64
      ensures ok ==>
        Digested(whole + old(buffer[..index]) + input[..input_len], done, buffer[..index'] + input[i..input_len])
    {
      hide Fold;
      ok, i, index', done := true, 0, index, whole;
      if input_len >= 64 - index {
        ok, i, done := Absorb(input, index, input_len, whole);
        index' := 0;
        if !ok { return; }
        assert buffer[..0] + input[i..input_len] == input[i..input_len];
      } else {
        assert whole + buffer[..index] + input[..input_len] == whole + (buffer[..index] + input[0..input_len]);
      }
    }

    /** Any split of the message into calls: each call appends its input to what has been digested. It goes past the end of its
        input exactly when the bytes buffered and those given reach 2^32 together. */
    method Update(input: array<Byte>, input_len: nat) returns (ok: bool)
      requires Valid() && input != buffer && input_len <= input.Length && input_len < WORD
      modifies this, state, buffer
      ensures ok <==> |old(message)| % 64 + input_len < WORD
      ensures ok ==> Valid() && message == old(message) + input[..input_len]
    {
      hide Fold, CountOf;
      var index := Index();
      AddCount(input_len);
      ghost var whole, tail := message[..|message| - index], message[|message| - index..];
      SplitBlocks(message, index);
      ghost var data := message + input[..input_len];
      var i, index';
      ghost var done;
      ok, i, index', done := AbsorbIfFull(input, index, input_len, whole);
      if !ok { return; }
      Buffer(data, done, index', i, input, input_len);
      message := data;
    }

    /** The rest of the input goes to the buffer, behind what is already there. */
    method Buffer(ghost data: seq<Byte>, ghost done: seq<Byte>, index: nat, i: nat, input: array<Byte>, input_len: nat)
      requires buffer.Length == 64 && state.Length == 4 && input != buffer && i <= input_len <= input.Length && index < 64
      requires Digested(data, done, buffer[..index] + input[i..input_len])
      modifies buffer
      ensures buffer[..|data| % 64] == data[|data| - |data| % 64..]
      ensures RegsIn(state) == Fold(INIT, data)
    {
      hide Fold;
      ghost var rest := buffer[..index] + input[i..input_len];
      Copy(buffer, index, input, i, input_len - i);
      assert buffer[..|rest|] == rest;
      FoldTail(INIT, done, rest);
      TailOf(done, rest);
    }
  }

  /** A message is whole blocks and what is left over. */
  lemma SplitBlocks(message: seq<Byte>, index: nat)
    requires index == |message| % 64
    ensures var whole, tail := message[..|message| - index], message[|message| - index..];
            |whole| % 64 == 0 && |tail| == index && message == whole + tail && Fold(INIT, message) == Fold(INIT, whole)
  {
    var whole, tail := message[..|message| - index], message[|message| - index..];
    assert message == whole + tail;
    FoldTail(INIT, whole, tail);
  }

  lemma TailOf(done: seq<Byte>, rest: seq<Byte>)
    requires |done| % 64 == 0 && |rest| < 64
    ensures var data := done + rest; |data| % 64 == |rest| && data[|data| - |rest|..] == rest
  {
  }

  lemma Regroup(whole: seq<Byte>, tail: seq<Byte>, input: seq<Byte>, p: nat, i: nat, n: nat)
    requires p <= i <= n <= |input|
    ensures whole + tail + input[..n] == whole + (tail + input[0..p]) + input[p..i] + input[i..n]
  {
    assert input[..n] == input[0..p] + input[p..i] + input[i..n];
  }

  lemma FourSlices(d: seq<Byte>)
    requires |d| == 16
    ensures d == d[0..4] + d[4..8] + d[8..12] + d[12..16]
  {
  }

  predicate Aligned(n: nat) { n % 64 == 0 }

  lemma AlignedIs(n: nat, k: nat)
    ensures (Aligned(n) <==> n % 64 == 0) && (Aligned(k) <==> k % 64 == 0)
  {
  }

  lemma NextBlock(done: seq<Byte>, block: seq<Byte>, k: nat)
    requires Aligned(|done|) && |block| == 64 && Aligned(k)
    ensures Fold(INIT, done + block) == Compress(Fold(INIT, done), block) && Aligned(|done + block|) && Aligned(k + 64)
  {
    hide Fold, Compress;
    FoldBlock(INIT, done, block);
  }

  /** The loop goes on while there is another block, or for ever past 2^32. */
  lemma AtGuard(i: nat, index: nat, len: nat)
    requires index < 64 && i <= len < WORD && Aligned(i + index)
    ensures GoesOn(i, len) <==> i + 64 <= len || index + len >= WORD
  {
    OverrunsIff(i, index, len);
  }

  predicate CountOf(count0: nat, count1: nat, n: nat) {
    count0 < WORD && count1 < WORD && count0 + WORD * count1 == 8 * n % (WORD * WORD)
  }

  lemma IndexOfCount(count0: nat, count1: nat, n: nat)
    requires CountOf(count0, count1, n)
    ensures count0 / 8 % 64 == n % 64
  {
    var q := 8 * n / (WORD * WORD);
    var k := 0x80_0000 * count1 + q * (WORD * 0x80_0000);
    assert 8 * n == count0 + 512 * k;
    assert n == count0 / 8 + 64 * k;
  }

  lemma CountAdvances(c0: nat, c1: nat, d0: nat, d1: nat, n: nat, len: nat)
    requires CountOf(c0, c1, n) && len < WORD
    requires d0 == (c0 + 8 * len % WORD) % WORD
    requires d1 == ((if d0 < 8 * len % WORD then (c1 + 1) % WORD else c1) + len / 0x2000_0000) % WORD
    ensures CountOf(d0, d1, n + len)
  {
    var low, high := 8 * len % WORD, len / 0x2000_0000;
    assert 8 * len == low + WORD * high;
    var carry := if c0 + low >= WORD then 1 else 0;
    assert d0 == c0 + low - carry * WORD && (d0 < low <==> carry == 1);
    var overflow := (c1 + carry + high) / WORD;
    Carries(c1, carry, high, d1);
    assert d1 == c1 + carry + high - overflow * WORD;
    var q := 8 * n / (WORD * WORD);
    Remainder(8 * (n + len), q + overflow, d0 + WORD * d1);
  }

  lemma Carries(c1: nat, carry: nat, high: nat, d1: nat)
    requires c1 < WORD && carry <= 1
    requires d1 == ((if carry == 1 then (c1 + 1) % WORD else c1) + high) % WORD
    ensures d1 == (c1 + carry + high) % WORD
  {
  }

  lemma Remainder(v: nat, q: nat, r: nat)
    requires v == q * (WORD * WORD) + r && r < WORD * WORD
    ensures v % (WORD * WORD) == r
  {
  }

  method NewPadding() returns (padding: array<Byte>)
    ensures fresh(padding) && padding.Length == 64 && padding[..] == [0x80] + Zeros(63)
  {
    padding := new Byte[64](k => if k == 0 then 0x80 else 0);
  }

  lemma Padded(m: seq<Byte>, pad: seq<Byte>, length: seq<Byte>)
    requires 0 < |pad| <= 64 && (|m| + |pad|) % 64 == 56
    requires pad == ([0x80] + Zeros(63))[..|pad|]
    requires length == LengthBytes(|m|)
    ensures m + pad + length == m + Padding(|m|)
  {
    hide LengthBytes;
    var k := (55 - |m|) % 64;
    assert |pad| == k + 1;
    assert pad == [0x80] + Zeros(k);
  }

  /** Both words of the bit count, encoded, are the length of section 3.2. */
  lemma CountBytes(count0: nat, count1: nat, n: nat, bits: seq<Byte>)
    requires CountOf(count0, count1, n) && |bits| == 8
    requires bits[0..4] == BytesOf(Bits(count0)) && bits[4..8] == BytesOf(Bits(count1))
    ensures bits == LengthBytes(n)
  {
    hide BytesOf, WordAt, FourBytes, CountOf;
    CountWords(count0, count1, n);
    var m := 8 * n;
    BytesUndoWord(FourBytes(count0));
    BytesUndoWord(FourBytes(count1));
    SameBytes(m, count0);
    SameBytes(m / WORD, count1);
    assert bits == bits[0..4] + bits[4..8];
  }

  lemma CountWords(count0: nat, count1: nat, n: nat)
    requires CountOf(count0, count1, n)
    ensures count0 == 8 * n % WORD && count1 == 8 * n / WORD % WORD
  {
    var q := 8 * n / (WORD * WORD);
    assert 8 * n == count0 + WORD * (count1 + WORD * q);
    assert 8 * n / WORD == count1 + WORD * q;
  }

  lemma SameBytes(m: nat, w: nat)
    requires w == m % WORD
    ensures FourBytes(w) == FourBytes(m)
  {
    hide ToByte;
    LowBytes(m, w, m / WORD);
  }

  // ---- the Limbo program ----

  predicate Negative(x: Word) { x & 0x8000_0000 != 0 }

  /** Limbo's `>>` on a signed word. */
  function SignedShiftRight(x: Word, n: Shift): Word {
    if Negative(x) then !ShiftRight(!x, n) else ShiftRight(x, n)
  }

  /** `2 ** n`. */
  function PowerOf2(n: nat): Word { if n == 0 then 1 else Twice(PowerOf2(n - 1)) }
  function Twice(x: Word): Word { 2 * x }

  function WithoutSign(x: Word): Word { x & 0x7fff_ffff }

  function LeftRotate(x: Word, c: Shift): Word
    requires 0 < c < 32
  {
    var x1 := if Negative(x) then WithoutSign(x) else x;
    var add_mask := if Negative(x) then PowerOf2(c - 1) else 0;
    Or(Or(ShiftLeft(x, c), SignedShiftRight(x1, 32 - c)), add_mask)
  }

  predicate IsAmount(c: Shift) {
    || c == 7 || c == 12 || c == 17 || c == 22
    || c == 5 || c == 9 || c == 14 || c == 20
    || c == 4 || c == 11 || c == 16 || c == 23
    || c == 6 || c == 10 || c == 15 || c == 21
  }

  lemma {:induction false} PowerIsShift(n: nat)
    ensures PowerOf2(n) == ShiftLeft(1, n)
  {
    hide Twice, ShiftLeftOne;
    if n > 0 {
      PowerIsShift(n - 1);
      Double(PowerOf2(n - 1));
    }
  }

  lemma Double(x: Word)
    ensures Twice(x) == ShiftLeftOne(x)
  {
  }

  lemma WithoutSignIsPositive(x: Word)
    ensures !Negative(WithoutSign(x))
    ensures Negative(x) ==> x == Or(WithoutSign(x), 0x8000_0000)
  {
  }

  lemma {:induction false} ShiftOr(u: Word, v: Word, n: nat)
    ensures ShiftRight(Or(u, v), n) == Or(ShiftRight(u, n), ShiftRight(v, n))
  {
    hide Or, ShiftRightOne;
    if n > 0 {
      ShiftOr(u, v, n - 1);
      ShiftOneOr(ShiftRight(u, n - 1), ShiftRight(v, n - 1));
    }
  }

  lemma ShiftOneOr(u: Word, v: Word)
    ensures ShiftRightOne(Or(u, v)) == Or(ShiftRightOne(u), ShiftRightOne(v))
  {
  }

  /** The sign bit ends up where the mask puts it back, for every amount that occurs. */
  lemma TopShift(c: Shift)
    requires IsAmount(c)
    ensures ShiftRight(0x8000_0000, 32 - c) == ShiftLeft(1, c - 1)
  {
    TopShifts1();
    TopShifts2();
    TopShifts3();
    TopShifts4();
  }

  lemma TopShifts1()
    ensures ShiftRight(0x8000_0000, 25) == ShiftLeft(1, 6)
    ensures ShiftRight(0x8000_0000, 20) == ShiftLeft(1, 11)
    ensures ShiftRight(0x8000_0000, 15) == ShiftLeft(1, 16)
    ensures ShiftRight(0x8000_0000, 10) == ShiftLeft(1, 21)
  {
  }

  lemma TopShifts2()
    ensures ShiftRight(0x8000_0000, 27) == ShiftLeft(1, 4)
    ensures ShiftRight(0x8000_0000, 23) == ShiftLeft(1, 8)
    ensures ShiftRight(0x8000_0000, 18) == ShiftLeft(1, 13)
    ensures ShiftRight(0x8000_0000, 12) == ShiftLeft(1, 19)
  {
  }

  lemma TopShifts3()
    ensures ShiftRight(0x8000_0000, 28) == ShiftLeft(1, 3)
    ensures ShiftRight(0x8000_0000, 21) == ShiftLeft(1, 10)
    ensures ShiftRight(0x8000_0000, 16) == ShiftLeft(1, 15)
    ensures ShiftRight(0x8000_0000, 9) == ShiftLeft(1, 22)
  {
  }

  lemma TopShifts4()
    ensures ShiftRight(0x8000_0000, 26) == ShiftLeft(1, 5)
    ensures ShiftRight(0x8000_0000, 22) == ShiftLeft(1, 9)
    ensures ShiftRight(0x8000_0000, 17) == ShiftLeft(1, 14)
    ensures ShiftRight(0x8000_0000, 11) == ShiftLeft(1, 20)
  {
  }

  lemma OrOr(x: Word, y: Word, z: Word)
    ensures Or(Or(x, y), z) == Or(x, Or(y, z)) && Or(x, 0) == x
  {
  }

  /** The sign bit, put back by the mask, makes the signed shifts rotate. */
  lemma LeftRotateRotates(x: Word, c: Shift)
    requires IsAmount(c)
    ensures LeftRotate(x, c) == Rotated(x, c)
  {
    hide Or, ShiftLeft, ShiftRight, PowerOf2, Negative, WithoutSign;
    WithoutSignIsPositive(x);
    PowerIsShift(c - 1);
    TopShift(c);
    ShiftOr(WithoutSign(x), 0x8000_0000, 32 - c);
    OrOr(ShiftLeft(x, c), ShiftRight(WithoutSign(x), 32 - c), ShiftLeft(1, c - 1));
    OrOr(Rotated(x, c), 0, 0);
  }

  /** `b + leftrotate(a + f + sine_table[i] + v, shift_map[i])`. */
  function LimboMix(a: Word, b: Word, f: Word, v: Word, s: Shift, t: Word): Word
    requires 0 < s < 32
  {
    Add(b, LeftRotate(a + f + t + v, s))
  }

  lemma LimboMixIsMix(a: Word, b: Word, f: Word, v: Word, s: Shift, t: Word)
    requires IsAmount(s)
    ensures LimboMix(a, b, f, v, s, t) == Mix(a, b, f, v, s, t)
  {
    hide LeftRotate, Rotated, Add;
    Swap(a, f, t, v);
    LeftRotateRotates(a + f + t + v, s);
  }

  lemma Swap(a: Word, f: Word, t: Word, v: Word)
    ensures a + f + t + v == a + f + v + t
  {
  }

  function LimboF(b: Word, c: Word, d: Word): Word { (b & c) | ((0xffff_ffff ^ b) & d) }
  function LimboG(b: Word, c: Word, d: Word): Word { (b & d) | (c & (0xffff_ffff ^ d)) }
  function LimboH(b: Word, c: Word, d: Word): Word { b ^ (c ^ d) }
  function LimboI(b: Word, c: Word, d: Word): Word { c ^ (b | (0xffff_ffff ^ d)) }

  lemma LimboFIsF(b: Word, c: Word, d: Word)
    ensures LimboF(b, c, d) == F(b, c, d)
  {
  }

  lemma LimboGIsG(b: Word, c: Word, d: Word)
    ensures LimboG(b, c, d) == G(b, c, d)
  {
  }

  lemma LimboHIsH(b: Word, c: Word, d: Word)
    ensures LimboH(b, c, d) == H(b, c, d)
  {
  }

  lemma LimboIIsI(b: Word, c: Word, d: Word)
    ensures LimboI(b, c, d) == I(b, c, d)
  {
  }

  /** The word index, computed instead of listed. */
  lemma LimboIndex(i: nat)
    requires i < 64
    ensures IndexAt(i) ==
      if i < 16 then i else if i < 32 then (5 * i + 1) % 16 else if i < 48 then (3 * i + 5) % 16 else 7 * i % 16
  {
    var row, j := i / 4, i % 4;
    assert i == 4 * row + j;
    LimboRow(row, j);
  }

  lemma LimboRow(row: nat, j: nat)
    requires row < 16 && j < 4
    ensures var i := 4 * row + j;
            Nth(IndexRow(row), j) ==
            if i < 16 then i else if i < 32 then (5 * i + 1) % 16 else if i < 48 then (3 * i + 5) % 16 else 7 * i % 16
  {
    if row < 4 {
    } else if row < 6 {
    } else if row < 8 {
    } else if row < 10 {
    } else if row < 12 {
    } else if row < 14 {
    } else {
    }
  }

  lemma ShiftsAreProper(i: nat)
    requires i < 64
    ensures IsAmount(ShiftAt(i))
  {
  }

  /** The case statement: the function of the round and the word index. */
  method Choose(i: nat, b: Word, c: Word, d: Word) returns (f: Word, g: Index)
    requires i < 64
    ensures f == Auxiliary(i / 16, b, c, d) && g == IndexAt(i)
  {
    hide F, G, H, I, LimboF, LimboG, LimboH, LimboI, IndexAt;
    LimboIndex(i);
    if i < 16 {
      LimboFIsF(b, c, d);
      f := LimboF(b, c, d);
      g := i;
    } else if i < 32 {
      LimboGIsG(b, c, d);
      f := LimboG(b, c, d);
      g := (5 * i + 1) % 16;
    } else if i < 48 {
      LimboHIsH(b, c, d);
      f := LimboH(b, c, d);
      g := (3 * i + 5) % 16;
    } else {
      LimboIIsI(b, c, d);
      f := LimboI(b, c, d);
      g := 7 * i % 16;
    }
  }

  /** md5_acc: one loop with rotating registers instead of the unrolled rounds. */
  method Accumulate(block: array<Byte>, result: array<Word>)
    requires block.Length == 64 && result.Length == 4
    modifies result
    ensures RegsIn(result) == old(Compress(RegsIn(result), block[..]))
  {
    hide WordAt, Sum, Auxiliary, Mix, LimboMix, IndexAt, ShiftAt, SineAt;
    ghost var x := Words(block[..]);
    ghost var r := RegsIn(result);
    var a, b, c, d := result[0], result[1], result[2], result[3];
    var i := 0;
    while i < 64
      invariant i <= 64
      invariant Regs(a, b, c, d) == Steps(r, x, i) && RegsIn(result) == r
    {
      var f, g := Choose(i, b, c, d);
      var tmp := d;
      d := c;
      c := b;
      var j: nat := g;
      var v := WordFrom(block, 4 * j);
      assert block[..][4 * j..4 * j + 4] == block[4 * j..4 * j + 4];
      ShiftsAreProper(i);
      LimboMixIsMix(a, b, f, v, ShiftAt(i), SineAt(i));
      b := LimboMix(a, b, f, v, ShiftAt(i), SineAt(i));
      a := tmp;
      i := i + 1;
    }
    AddInto(result, Regs(a, b, c, d));
  }

  /** pad_block, for the last curr bytes of a message of size bytes; the second block is needed when there is no room. */
  method PadBlock(block: array<Byte>, curr: nat, size: nat) returns (ok: bool, aux: array?<Byte>)
    modifies block
    ensures ok <==> curr <= block.Length == 64
    ensures ok ==> aux == null || (fresh(aux) && aux.Length == 64)
    ensures ok && curr % 64 == size % 64 ==>
      block[..] + (if aux == null then [] else aux[..]) == old(block[..])[..curr] + Padding(size)
    ensures !ok ==> block[..] == old(block[..])
  {
    hide LengthBytes, Padding;
    ok, aux := true, null;
    if curr > block.Length || block.Length != 64 { return false, null; }
    ghost var m := block[..curr];
    ZeroFill(block, curr);
    var pad_count := 64 - curr;
    if pad_count < 9 { aux := new Byte[64](_ => 0); }
    if pad_count < 1 {
      aux[0] := 0x80;
    } else {
      block[curr] := 0x80;
      pad_count := pad_count - 1;
    }
    ghost var whole := block[..] + (if aux == null then [] else aux[..]);
    assert whole == m + [0x80] + Zeros(|whole| - curr - 1);
    if pad_count < 8 {
      StoreLength(aux, size);
    } else {
      StoreLength(block, size);
    }
    ghost var padded := block[..] + (if aux == null then [] else aux[..]);
    assert padded == whole[..|whole| - 8] + LengthBytes(size);
    if curr % 64 == size % 64 { PaddedBlock(m, whole, padded, size); }
  }

  lemma PaddedBlock(m: seq<Byte>, whole: seq<Byte>, padded: seq<Byte>, size: nat)
    requires |m| <= 64 && |m| % 64 == size % 64
    requires |whole| == if 64 - |m| < 9 then 128 else 64
    requires whole == m + [0x80] + Zeros(|whole| - |m| - 1)
    requires padded == whole[..|whole| - 8] + LengthBytes(size)
    ensures padded == m + Padding(size)
  {
    hide LengthBytes;
    var k := (55 - size) % 64;
    assert k == |whole| - |m| - 9;
    assert whole[..|whole| - 8] == m + [0x80] + Zeros(k);
  }

  method ZeroFill(block: array<Byte>, curr: nat)
    requires curr <= block.Length
    modifies block
    ensures block[..] == old(block[..curr]) + Zeros(block.Length - curr)
  {
    var i := curr;
    while i < block.Length
      invariant curr <= i <= block.Length
      invariant block[..i] == old(block[..curr]) + Zeros(i - curr)
    {
      block[i] := 0;
      i := i + 1;
    }
  }

  method StoreLength(target: array<Byte>, size: nat)
    requires target.Length == 64
    modifies target
    ensures target[..] == old(target[..56]) + LengthBytes(size)
  {
    hide FourBytes;
    var bits := Big(8 * size);
    BigBytes(8 * size);
    StoreFour(target, 56, bits, 8 * size);
    StoreFour(target, 60, bits / WORD, 8 * size / WORD);
    assert target[56..60] == FourBytes(8 * size);
    assert target[..] == target[..56] + target[56..60] + target[60..64];
  }

  /** Four of the eight assignments. */
  method StoreFour(target: array<Byte>, at: nat, bits: int, ghost m: nat)
    requires at + 4 <= target.Length
    requires bits % 256 == m % 256 && bits / 0x100 % 256 == m / 0x100 % 256
    requires bits / 0x1_0000 % 256 == m / 0x1_0000 % 256 && bits / 0x100_0000 % 256 == m / 0x100_0000 % 256
    modifies target
    ensures target[at..at + 4] == FourBytes(m)
    ensures forall k :: 0 <= k < target.Length && !(at <= k < at + 4) ==> target[k] == old(target[k])
  {
    hide ToByte;
    target[at] := ToByte(bits % 256);
    target[at + 1] := ToByte(bits / 0x100 % 256);
    target[at + 2] := ToByte(bits / 0x1_0000 % 256);
    target[at + 3] := ToByte(bits / 0x100_0000 % 256);
  }

  /** A number in Limbo's 64-bit signed `big`. */
  function Big(n: int): int { (n + 0x8000_0000_0000_0000) % (WORD * WORD) - 0x8000_0000_0000_0000 }

  lemma BigBytes(m: nat)
    ensures var v := Big(m);
            && v % 256 == m % 256 && v / 0x100 % 256 == m / 0x100 % 256
            && v / 0x1_0000 % 256 == m / 0x1_0000 % 256 && v / 0x100_0000 % 256 == m / 0x100_0000 % 256
    ensures var v, h := Big(m) / WORD, m / WORD;
            && v % 256 == h % 256 && v / 0x100 % 256 == h / 0x100 % 256
            && v / 0x1_0000 % 256 == h / 0x1_0000 % 256 && v / 0x100_0000 % 256 == h / 0x100_0000 % 256
  {
    var q := (m + 0x8000_0000_0000_0000) / (WORD * WORD);
    assert Big(m) == m - q * (WORD * WORD);
    LowBytes(m, Big(m), q * WORD);
    assert Big(m) / WORD == m / WORD - q * WORD;
    LowBytes(m / WORD, Big(m) / WORD, q);
  }

  lemma LowBytes(m: nat, v: int, q: int)
    requires m == q * WORD + v
    ensures v % 256 == m % 256 && v / 0x100 % 256 == m / 0x100 % 256
    ensures v / 0x1_0000 % 256 == m / 0x1_0000 % 256 && v / 0x100_0000 % 256 == m / 0x100_0000 % 256
  {
    LowByte(m, v, 1, q * 0x100_0000);
    LowByte(m, v, 0x100, q * 0x1_0000);
    LowByte(m, v, 0x1_0000, q * 0x100);
    LowByte(m, v, 0x100_0000, q);
  }

  lemma LowByte(m: nat, v: int, d: nat, q: int)
    requires d in {1, 0x100, 0x1_0000, 0x100_0000}
    requires m == q * 0x100 * d + v
    ensures v / d % 256 == m / d % 256
  {
    assert m / d == q * 0x100 + v / d;
    assert (q * 0x100 + v / d) % 0x100 == v / d % 0x100;
  }

  /** `v >> 8`, `v >> 16` and `v >> 24` on a signed word. */
  function SignedShift8(v: Word): Word { if Negative(v) then !(!v >> 8) else v >> 8 }
  function SignedShift16(v: Word): Word { if Negative(v) then !(!v >> 16) else v >> 16 }
  function SignedShift24(v: Word): Word { if Negative(v) then !(!v >> 24) else v >> 24 }

  /** What the program prints: the bytes of each word, taken with signed shifts. */
  function Printed(v: Word): seq<Byte> {
    [(v & 0xff) as Byte, (SignedShift8(v) & 0xff) as Byte, (SignedShift16(v) & 0xff) as Byte, (SignedShift24(v) & 0xff) as Byte]
  }

  lemma PrintedIsBytes(v: Word)
    ensures Printed(v) == BytesOf(v)
  {
    hide SignedShift8, SignedShift16, SignedShift24;
    PrintedByte8(v);
    PrintedByte16(v);
    PrintedByte24(v);
  }

  lemma PrintedByte8(v: Word)
    ensures SignedShift8(v) & 0xff == (v >> 8) & 0xff
  {
  }

  lemma PrintedByte16(v: Word)
    ensures SignedShift16(v) & 0xff == (v >> 16) & 0xff
  {
  }

  lemma PrintedByte24(v: Word)
    ensures SignedShift24(v) & 0xff == (v >> 24) & 0xff
  {
  }

  /** The main loop over a file, read in full blocks until the end: the digest it prints. */
  method FileDigest(file: seq<Byte>) returns (digest: seq<Byte>)
    ensures digest == Digest(file)
  {
    hide Fold, Compress, DigestBytes, Padding;
    var checksum := new Word[4] [0x67452301, 0xefcdab89, 0x98badcfe, 0x10325476];
    var block := new Byte[64](_ => 0);
    var msg_size_bytes := 0;
    FoldNothing(file);
    var c := ReadBlock(file, 0, block);
    while c == 64
      invariant msg_size_bytes <= |file| && msg_size_bytes % 64 == 0
      invariant c == (if |file| - msg_size_bytes < 64 then |file| - msg_size_bytes else 64)
      invariant block[..c] == file[msg_size_bytes..msg_size_bytes + c]
      invariant RegsIn(checksum) == Fold(INIT, file[..msg_size_bytes])
      decreases |file| - msg_size_bytes
    {
      FoldBlock(INIT, file[..msg_size_bytes], block[..]);
      Accumulate(block, checksum);
      assert file[..msg_size_bytes] + block[..] == file[..msg_size_bytes + 64];
      msg_size_bytes := msg_size_bytes + c;
      c := ReadBlock(file, msg_size_bytes, block);
    }
    assert file[..msg_size_bytes] + block[..c] == file;
    LastBlocks(file[..msg_size_bytes], block, c, msg_size_bytes + c, checksum);
    digest := PrintedDigest(checksum);
  }

  lemma FoldNothing(s: seq<Byte>)
    ensures Fold(INIT, s[..0]) == INIT
  {
  }

  /** The padded last block or two. */
  method LastBlocks(ghost whole: seq<Byte>, block: array<Byte>, c: nat, size: nat, checksum: array<Word>)
    requires block.Length == 64 && checksum.Length == 4 && c < 64 && |whole| % 64 == 0 && size == |whole| + c
    requires RegsIn(checksum) == Fold(INIT, whole)
    modifies block, checksum
    ensures RegsIn(checksum) == old(var m := whole + block[..c]; Fold(INIT, m + Padding(|m|)))
  {
    hide Fold, Compress, Padding;
    ghost var last := block[..c];
    var ok, aux := PadBlock(block, c, size);
    FoldBlock(INIT, whole, block[..]);
    Accumulate(block, checksum);
    ghost var padded := last + Padding(size);
    assert whole + last + Padding(size) == whole + padded;
    if aux != null {
      FoldBlock(INIT, whole + block[..], aux[..]);
      Accumulate(aux, checksum);
      assert whole + block[..] + aux[..] == whole + padded;
    } else {
      assert block[..] == padded;
    }
  }

  method PrintedDigest(checksum: array<Word>) returns (digest: seq<Byte>)
    requires checksum.Length == 4
    ensures digest == DigestBytes(RegsIn(checksum))
  {
    hide BytesOf, Printed;
    PrintedIsBytes(checksum[0]);
    PrintedIsBytes(checksum[1]);
    PrintedIsBytes(checksum[2]);
    PrintedIsBytes(checksum[3]);
    digest := Printed(checksum[0]) + Printed(checksum[1]) + Printed(checksum[2]) + Printed(checksum[3]);
  }

  method ReadBlock(file: seq<Byte>, pos: nat, block: array<Byte>) returns (c: nat)
    requires pos <= |file| && block.Length == 64
    modifies block
    ensures c == (if |file| - pos < 64 then |file| - pos else 64)
    ensures block[..c] == file[pos..pos + c]
  {
    c := 0;
    while c < 64 && pos + c < |file|
      invariant c <= 64 && pos + c <= |file|
      invariant block[..c] == file[pos..pos + c]
    {
      block[c] := file[pos + c];
      c := c + 1;
    }
  }
}
