/** The MD5 message digest as sections 3.1 to 3.5 of RFC 1321 define it: the
    reference that both implementations of the repository are proved against. */
module Rfc1321 {

  type Byte = bv8

  /** A 32-bit word. The constructor keeps its bits away from proofs about structure. */
  datatype Word = W(bits: bv32)

  /** The four-word chaining state A, B, C, D. */
  datatype Regs = Regs(a: Word, b: Word, c: Word, d: Word)

  /** A 32-bit counter word, kept as an integer. */
  const WORD_LIMIT: int := 0x1_0000_0000

  const LENGTH_LIMIT: int := 0x1_0000_0000_0000_0000

  const IV: Regs := Regs(W(0x67452301), W(0xefcdab89), W(0x98badcfe), W(0x10325476))

  // ----- Section 3.4: the 64 operations on one block

  function Sum(x: bv32, y: bv32): bv32 { x + y }

  function Plus(x: Word, y: Word): Word { W(Sum(x.bits, y.bits)) }

  function RotateLeft(x: Word, s: nat): Word
    requires s < 32
  {
    W((x.bits << s) | (x.bits >> (32 - s)))
  }

  /** The auxiliary function of operation i: F, G, H and I in rounds 1 to 4. */
  function Aux(i: nat, x: Word, y: Word, z: Word): Word {
    if i < 16 then W((x.bits & y.bits) | (!x.bits & z.bits))
    else if i < 32 then W((x.bits & z.bits) | (y.bits & !z.bits))
    else if i < 48 then W(x.bits ^ y.bits ^ z.bits)
    else W(y.bits ^ (x.bits | !z.bits))
  }

  /** F takes y's bits where x's are 1 and z's where they are 0; G chooses by z; H is the parity; I differs
      from y where x is 1 or z is 0. */
  lemma ChoiceF(x: bv32, y: bv32, z: bv32)
    ensures Aux(0, W(x), W(y), W(z)).bits & x == y & x && Aux(0, W(x), W(y), W(z)).bits & !x == z & !x
  {}

  lemma ChoiceG(x: bv32, y: bv32, z: bv32)
    ensures Aux(16, W(x), W(y), W(z)).bits & z == x & z && Aux(16, W(x), W(y), W(z)).bits & !z == y & !z
  {}

  lemma ParityH(x: bv32, y: bv32, z: bv32)
    ensures Aux(32, W(x), W(y), W(z)).bits ^ x ^ y ^ z == 0
  {}

  lemma DifferenceI(x: bv32, y: bv32, z: bv32)
    ensures Aux(48, W(x), W(y), W(z)).bits ^ y == !(!x & z)
  {}

  /** A rotation by k is the product with 2^k, with what falls out at the top coming in below. */
  lemma Rotates7And12(x: bv32)
    ensures RotateLeft(W(x), 7).bits == x * 0x80 + x / 0x2000000
    ensures RotateLeft(W(x), 12).bits == x * 0x1000 + x / 0x100000
  {}

  lemma Rotates17And22(x: bv32)
    ensures RotateLeft(W(x), 17).bits == x * 0x20000 + x / 0x8000
    ensures RotateLeft(W(x), 22).bits == x * 0x400000 + x / 0x400
  {}

  lemma Rotates5And9(x: bv32)
    ensures RotateLeft(W(x), 5).bits == x * 0x20 + x / 0x8000000
    ensures RotateLeft(W(x), 9).bits == x * 0x200 + x / 0x800000
  {}

  lemma Rotates14And20(x: bv32)
    ensures RotateLeft(W(x), 14).bits == x * 0x4000 + x / 0x40000
    ensures RotateLeft(W(x), 20).bits == x * 0x100000 + x / 0x1000
  {}

  lemma Rotates4And11(x: bv32)
    ensures RotateLeft(W(x), 4).bits == x * 0x10 + x / 0x10000000
    ensures RotateLeft(W(x), 11).bits == x * 0x800 + x / 0x200000
  {}

  lemma Rotates16And23(x: bv32)
    ensures RotateLeft(W(x), 16).bits == x * 0x10000 + x / 0x10000
    ensures RotateLeft(W(x), 23).bits == x * 0x800000 + x / 0x200
  {}

  lemma Rotates6And10(x: bv32)
    ensures RotateLeft(W(x), 6).bits == x * 0x40 + x / 0x4000000
    ensures RotateLeft(W(x), 10).bits == x * 0x400 + x / 0x400000
  {}

  lemma Rotates15And21(x: bv32)
    ensures RotateLeft(W(x), 15).bits == x * 0x8000 + x / 0x20000
    ensures RotateLeft(W(x), 21).bits == x * 0x200000 + x / 0x800
  {}

  /** All the rotations there are. */
  lemma RotatesLeft(x: bv32)
    ensures RotateLeft(W(x), 7).bits == x * 0x80 + x / 0x2000000
    ensures RotateLeft(W(x), 12).bits == x * 0x1000 + x / 0x100000
    ensures RotateLeft(W(x), 17).bits == x * 0x20000 + x / 0x8000
    ensures RotateLeft(W(x), 22).bits == x * 0x400000 + x / 0x400
    ensures RotateLeft(W(x), 5).bits == x * 0x20 + x / 0x8000000
    ensures RotateLeft(W(x), 9).bits == x * 0x200 + x / 0x800000
    ensures RotateLeft(W(x), 14).bits == x * 0x4000 + x / 0x40000
    ensures RotateLeft(W(x), 20).bits == x * 0x100000 + x / 0x1000
    ensures RotateLeft(W(x), 4).bits == x * 0x10 + x / 0x10000000
    ensures RotateLeft(W(x), 11).bits == x * 0x800 + x / 0x200000
    ensures RotateLeft(W(x), 16).bits == x * 0x10000 + x / 0x10000
    ensures RotateLeft(W(x), 23).bits == x * 0x800000 + x / 0x200
    ensures RotateLeft(W(x), 6).bits == x * 0x40 + x / 0x4000000
    ensures RotateLeft(W(x), 10).bits == x * 0x400 + x / 0x400000
    ensures RotateLeft(W(x), 15).bits == x * 0x8000 + x / 0x20000
    ensures RotateLeft(W(x), 21).bits == x * 0x200000 + x / 0x800
  {
    hide RotateLeft;
    Rotates7And12(x);
    Rotates17And22(x);
    Rotates5And9(x);
    Rotates14And20(x);
    Rotates4And11(x);
    Rotates16And23(x);
    Rotates6And10(x);
    Rotates15And21(x);
  }

  /** The index of the message word operation i reads. */
  function Index(i: nat): (k: nat)
    ensures k < 16
  {
    if i < 16 then i
    else if i < 32 then (5 * i + 1) % 16
    else if i < 48 then (3 * i + 5) % 16
    else (7 * i) % 16
  }

  const S1: seq<nat> := [7, 12, 17, 22]
  const S2: seq<nat> := [5, 9, 14, 20]
  const S3: seq<nat> := [4, 11, 16, 23]
  const S4: seq<nat> := [6, 10, 15, 21]

  /** How far operation i rotates. */
  function Shift(i: nat): (s: nat)
    ensures s < 32
  {
    if i < 16 then S1[i % 4] else if i < 32 then S2[i % 4] else if i < 48 then S3[i % 4] else S4[i % 4]
  }

  /** The sine-derived table T[1..64] (operation i uses T[i + 1]), a round at a time. */
  function T(i: nat): Word
    requires i < 64
  {
    if i < 16 then T1(i) else if i < 32 then T2(i - 16) else if i < 48 then T3(i - 32) else T4(i - 48)
  }

  function T1(j: nat): Word {
    match j
    case 0 => W(0xd76aa478) case 1 => W(0xe8c7b756) case 2 => W(0x242070db) case 3 => W(0xc1bdceee)
    case 4 => W(0xf57c0faf) case 5 => W(0x4787c62a) case 6 => W(0xa8304613) case 7 => W(0xfd469501)
    case 8 => W(0x698098d8) case 9 => W(0x8b44f7af) case 10 => W(0xffff5bb1) case 11 => W(0x895cd7be)
    case 12 => W(0x6b901122) case 13 => W(0xfd987193) case 14 => W(0xa679438e) case _ => W(0x49b40821)
  }

  function T2(j: nat): Word {
    match j
    case 0 => W(0xf61e2562) case 1 => W(0xc040b340) case 2 => W(0x265e5a51) case 3 => W(0xe9b6c7aa)
    case 4 => W(0xd62f105d) case 5 => W(0x02441453) case 6 => W(0xd8a1e681) case 7 => W(0xe7d3fbc8)
    case 8 => W(0x21e1cde6) case 9 => W(0xc33707d6) case 10 => W(0xf4d50d87) case 11 => W(0x455a14ed)
    case 12 => W(0xa9e3e905) case 13 => W(0xfcefa3f8) case 14 => W(0x676f02d9) case _ => W(0x8d2a4c8a)
  }

  function T3(j: nat): Word {
    match j
    case 0 => W(0xfffa3942) case 1 => W(0x8771f681) case 2 => W(0x6d9d6122) case 3 => W(0xfde5380c)
    case 4 => W(0xa4beea44) case 5 => W(0x4bdecfa9) case 6 => W(0xf6bb4b60) case 7 => W(0xbebfbc70)
    case 8 => W(0x289b7ec6) case 9 => W(0xeaa127fa) case 10 => W(0xd4ef3085) case 11 => W(0x04881d05)
    case 12 => W(0xd9d4d039) case 13 => W(0xe6db99e5) case 14 => W(0x1fa27cf8) case _ => W(0xc4ac5665)
  }

  function T4(j: nat): Word {
    match j
    case 0 => W(0xf4292244) case 1 => W(0x432aff97) case 2 => W(0xab9423a7) case 3 => W(0xfc93a039)
    case 4 => W(0x655b59c3) case 5 => W(0x8f0ccc92) case 6 => W(0xffeff47d) case 7 => W(0x85845dd1)
    case 8 => W(0x6fa87e4f) case 9 => W(0xfe2ce6e0) case 10 => W(0xa3014314) case 11 => W(0x4e0811a1)
    case 12 => W(0xf7537e82) case 13 => W(0xbd3af235) case 14 => W(0x2ad7d2bb) case _ => W(0xeb86d391)
  }

  /** a = b + ((a + Aux(b, c, d) + X[k] + T[i]) <<< s). */
  function Op(i: nat, a: Word, b: Word, c: Word, d: Word, xk: Word): Word
    requires i < 64
  {
    Plus(b, RotateLeft(Plus(Plus(Plus(a, Aux(i, b, c, d)), xk), T(i)), Shift(i)))
  }

  /** The first n operations; the registers rotate by one place after each. */
  function Steps(n: nat, r: Regs, x: seq<Word>): Regs
    requires n <= 64 && |x| == 16
  {
    if n == 0 then r
    else
      var p := Steps(n - 1, r, x);
      Regs(p.d, Op(n - 1, p.a, p.b, p.c, p.d, x[Index(n - 1)]), p.b, p.c)
  }

  function Compress(r: Regs, x: seq<Word>): Regs
    requires |x| == 16
  {
    var p := Steps(64, r, x);
    Regs(Plus(r.a, p.a), Plus(r.b, p.b), Plus(r.c, p.c), Plus(r.d, p.d))
  }

  lemma NoSteps(r: Regs, x: seq<Word>)
    requires |x| == 16
    ensures Steps(0, r, x) == r
  {}

  /** Four operations bring every register back to its own name. */
  lemma FourSteps(i: nat, r: Regs, x: seq<Word>)
    requires i + 4 <= 64 && |x| == 16
    ensures var p := Steps(i, r, x);
      var a := Op(i, p.a, p.b, p.c, p.d, x[Index(i)]);
      var d := Op(i + 1, p.d, a, p.b, p.c, x[Index(i + 1)]);
      var c := Op(i + 2, p.c, d, a, p.b, x[Index(i + 2)]);
      var b := Op(i + 3, p.b, c, d, a, x[Index(i + 3)]);
      Steps(i + 4, r, x) == Regs(a, b, c, d)
  {
    hide Op, Index;
    var p := Steps(i, r, x);
    assert Steps(i + 1, r, x).b == Op(i, p.a, p.b, p.c, p.d, x[Index(i)]);
    assert Steps(i + 2, r, x).c == Steps(i + 1, r, x).b;
    assert Steps(i + 3, r, x).d == Steps(i + 1, r, x).b;
  }

  /** Addition modulo 2^32 is associative and commutative. */
  lemma PlusAssociative(x: Word, y: Word, z: Word)
    ensures Plus(Plus(x, y), z) == Plus(x, Plus(y, z))
  {
    hide Sum;
    SumAssociative(x.bits, y.bits, z.bits);
  }

  lemma PlusCommutative(x: Word, y: Word)
    ensures Plus(x, y) == Plus(y, x)
  {
    hide Sum;
    SumCommutative(x.bits, y.bits);
  }

  lemma SumAssociative(x: bv32, y: bv32, z: bv32)
    ensures Sum(Sum(x, y), z) == Sum(x, Sum(y, z))
  {
    hide Sum;
    SumIsAdd(x, y);
    SumIsAdd(y, z);
    SumIsAdd(Sum(x, y), z);
    SumIsAdd(x, Sum(y, z));
    AddAssociative(x, y, z, Sum(x, y), Sum(y, z));
  }

  lemma SumCommutative(x: bv32, y: bv32)
    ensures Sum(x, y) == Sum(y, x)
  {}

  lemma SumIsAdd(x: bv32, y: bv32)
    ensures Sum(x, y) == x + y
  {}

  lemma AddAssociative(x: bv32, y: bv32, z: bv32, xy: bv32, yz: bv32)
    requires xy == x + y && yz == y + z
    ensures xy + z == x + yz
  {
    calc { xy + z; (x + y) + z; x + (y + z); x + yz; }
  }

  /** The order in which both implementations add up a step gives the same word. */
  lemma StepIsOp(i: nat, f: Word, a: Word, b: Word, c: Word, d: Word, xk: Word)
    requires i < 64 && f == Aux(i, b, c, d)
    ensures Plus(RotateLeft(Plus(a, Plus(Plus(f, xk), T(i))), Shift(i)), b) == Op(i, a, b, c, d, xk)
    ensures Plus(RotateLeft(Plus(a, Plus(f, Plus(xk, T(i)))), Shift(i)), b) == Op(i, a, b, c, d, xk)
  {
    hide T, RotateLeft, Shift, Aux, Plus;
    PlusAssociative(a, Plus(f, xk), T(i));
    PlusAssociative(a, f, xk);
    PlusAssociative(f, xk, T(i));
    PlusCommutative(RotateLeft(Plus(Plus(Plus(a, f), xk), T(i)), Shift(i)), b);
  }

  lemma Round1Constants()
    ensures T(0) == W(0xd76aa478) && Shift(0) == 7 && Index(0) == 0
    ensures T(1) == W(0xe8c7b756) && Shift(1) == 12 && Index(1) == 1
    ensures T(2) == W(0x242070db) && Shift(2) == 17 && Index(2) == 2
    ensures T(3) == W(0xc1bdceee) && Shift(3) == 22 && Index(3) == 3
    ensures T(4) == W(0xf57c0faf) && Shift(4) == 7 && Index(4) == 4
    ensures T(5) == W(0x4787c62a) && Shift(5) == 12 && Index(5) == 5
    ensures T(6) == W(0xa8304613) && Shift(6) == 17 && Index(6) == 6
    ensures T(7) == W(0xfd469501) && Shift(7) == 22 && Index(7) == 7
    ensures T(8) == W(0x698098d8) && Shift(8) == 7 && Index(8) == 8
    ensures T(9) == W(0x8b44f7af) && Shift(9) == 12 && Index(9) == 9
    ensures T(10) == W(0xffff5bb1) && Shift(10) == 17 && Index(10) == 10
    ensures T(11) == W(0x895cd7be) && Shift(11) == 22 && Index(11) == 11
    ensures T(12) == W(0x6b901122) && Shift(12) == 7 && Index(12) == 12
    ensures T(13) == W(0xfd987193) && Shift(13) == 12 && Index(13) == 13
    ensures T(14) == W(0xa679438e) && Shift(14) == 17 && Index(14) == 14
    ensures T(15) == W(0x49b40821) && Shift(15) == 22 && Index(15) == 15
  {}

  lemma Round2Constants()
    ensures T(16) == W(0xf61e2562) && Shift(16) == 5 && Index(16) == 1
    ensures T(17) == W(0xc040b340) && Shift(17) == 9 && Index(17) == 6
    ensures T(18) == W(0x265e5a51) && Shift(18) == 14 && Index(18) == 11
    ensures T(19) == W(0xe9b6c7aa) && Shift(19) == 20 && Index(19) == 0
    ensures T(20) == W(0xd62f105d) && Shift(20) == 5 && Index(20) == 5
    ensures T(21) == W(0x02441453) && Shift(21) == 9 && Index(21) == 10
    ensures T(22) == W(0xd8a1e681) && Shift(22) == 14 && Index(22) == 15
    ensures T(23) == W(0xe7d3fbc8) && Shift(23) == 20 && Index(23) == 4
    ensures T(24) == W(0x21e1cde6) && Shift(24) == 5 && Index(24) == 9
    ensures T(25) == W(0xc33707d6) && Shift(25) == 9 && Index(25) == 14
    ensures T(26) == W(0xf4d50d87) && Shift(26) == 14 && Index(26) == 3
    ensures T(27) == W(0x455a14ed) && Shift(27) == 20 && Index(27) == 8
    ensures T(28) == W(0xa9e3e905) && Shift(28) == 5 && Index(28) == 13
    ensures T(29) == W(0xfcefa3f8) && Shift(29) == 9 && Index(29) == 2
    ensures T(30) == W(0x676f02d9) && Shift(30) == 14 && Index(30) == 7
    ensures T(31) == W(0x8d2a4c8a) && Shift(31) == 20 && Index(31) == 12
  {}

  lemma Round3Constants()
    ensures T(32) == W(0xfffa3942) && Shift(32) == 4 && Index(32) == 5
    ensures T(33) == W(0x8771f681) && Shift(33) == 11 && Index(33) == 8
    ensures T(34) == W(0x6d9d6122) && Shift(34) == 16 && Index(34) == 11
    ensures T(35) == W(0xfde5380c) && Shift(35) == 23 && Index(35) == 14
    ensures T(36) == W(0xa4beea44) && Shift(36) == 4 && Index(36) == 1
    ensures T(37) == W(0x4bdecfa9) && Shift(37) == 11 && Index(37) == 4
    ensures T(38) == W(0xf6bb4b60) && Shift(38) == 16 && Index(38) == 7
    ensures T(39) == W(0xbebfbc70) && Shift(39) == 23 && Index(39) == 10
    ensures T(40) == W(0x289b7ec6) && Shift(40) == 4 && Index(40) == 13
    ensures T(41) == W(0xeaa127fa) && Shift(41) == 11 && Index(41) == 0
    ensures T(42) == W(0xd4ef3085) && Shift(42) == 16 && Index(42) == 3
    ensures T(43) == W(0x04881d05) && Shift(43) == 23 && Index(43) == 6
    ensures T(44) == W(0xd9d4d039) && Shift(44) == 4 && Index(44) == 9
    ensures T(45) == W(0xe6db99e5) && Shift(45) == 11 && Index(45) == 12
    ensures T(46) == W(0x1fa27cf8) && Shift(46) == 16 && Index(46) == 15
    ensures T(47) == W(0xc4ac5665) && Shift(47) == 23 && Index(47) == 2
  {}

  lemma Round4Constants()
    ensures T(48) == W(0xf4292244) && Shift(48) == 6 && Index(48) == 0
    ensures T(49) == W(0x432aff97) && Shift(49) == 10 && Index(49) == 7
    ensures T(50) == W(0xab9423a7) && Shift(50) == 15 && Index(50) == 14
    ensures T(51) == W(0xfc93a039) && Shift(51) == 21 && Index(51) == 5
    ensures T(52) == W(0x655b59c3) && Shift(52) == 6 && Index(52) == 12
    ensures T(53) == W(0x8f0ccc92) && Shift(53) == 10 && Index(53) == 3
    ensures T(54) == W(0xffeff47d) && Shift(54) == 15 && Index(54) == 10
    ensures T(55) == W(0x85845dd1) && Shift(55) == 21 && Index(55) == 1
    ensures T(56) == W(0x6fa87e4f) && Shift(56) == 6 && Index(56) == 8
    ensures T(57) == W(0xfe2ce6e0) && Shift(57) == 10 && Index(57) == 15
    ensures T(58) == W(0xa3014314) && Shift(58) == 15 && Index(58) == 6
    ensures T(59) == W(0x4e0811a1) && Shift(59) == 21 && Index(59) == 13
    ensures T(60) == W(0xf7537e82) && Shift(60) == 6 && Index(60) == 4
    ensures T(61) == W(0xbd3af235) && Shift(61) == 10 && Index(61) == 11
    ensures T(62) == W(0x2ad7d2bb) && Shift(62) == 15 && Index(62) == 2
    ensures T(63) == W(0xeb86d391) && Shift(63) == 21 && Index(63) == 9
  {}

  // ----- Sections 3.1 to 3.3 and 3.5: padding, length, chaining, output

  function DecodeWord(b0: Byte, b1: Byte, b2: Byte, b3: Byte): Word {
    W((b0 as bv32) | ((b1 as bv32) << 8) | ((b2 as bv32) << 16) | ((b3 as bv32) << 24))
  }

  function EncodeWord(w: Word): (s: seq<Byte>)
    ensures |s| == 4
  {
    [(w.bits & 0xff) as Byte, ((w.bits >> 8) & 0xff) as Byte,
     ((w.bits >> 16) & 0xff) as Byte, ((w.bits >> 24) & 0xff) as Byte]
  }

  /** The first byte is the low-order one. */
  lemma WordValue(b0: Byte, b1: Byte, b2: Byte, b3: Byte)
    ensures DecodeWord(b0, b1, b2, b3)
         == W((b0 as bv32) + 256 * (b1 as bv32) + 65536 * (b2 as bv32) + 16777216 * (b3 as bv32))
    ensures EncodeWord(DecodeWord(b0, b1, b2, b3)) == [b0, b1, b2, b3]
  {}

  lemma WordBack(w: Word)
    ensures var s := EncodeWord(w); DecodeWord(s[0], s[1], s[2], s[3]) == w
  {}

  function EncodeRegs(r: Regs): (s: seq<Byte>)
    ensures |s| == 16
  {
    EncodeWord(r.a) + EncodeWord(r.b) + EncodeWord(r.c) + EncodeWord(r.d)
  }

  function Words(block: seq<Byte>): (x: seq<Word>)
    requires |block| == 64
    ensures |x| == 16
  {
    seq(16, k requires 0 <= k < 16 =>
      DecodeWord(block[4 * k], block[4 * k + 1], block[4 * k + 2], block[4 * k + 3]))
  }

  /** The chaining value after all the 64-byte blocks of bytes. */
  function Chain(bytes: seq<Byte>): Regs
    requires |bytes| % 64 == 0
  {
    if |bytes| == 0 then IV
    else Compress(Chain(bytes[..|bytes| - 64]), Words(bytes[|bytes| - 64..]))
  }

  function LowByte(v: nat): Byte {
    (v % 256) as Byte
  }

  /** v as n bytes, least significant first. */
  function LittleEndian(v: nat, n: nat): (s: seq<Byte>)
    ensures |s| == n
    decreases n
  {
    if n == 0 then [] else [LowByte(v)] + LittleEndian(v / 256, n - 1)
  }

  function Zeros(n: nat): (s: seq<Byte>)
    ensures |s| == n
  {
    seq(n, _ => 0)
  }

  /** A single 1 bit and then 0 bits up to 56 modulo 64 bytes: 1 to 64 bytes. */
  function Padding(n: nat): (p: seq<Byte>)
    ensures 1 <= |p| <= 64 && (n + |p|) % 64 == 56
  {
    [0x80] + Zeros((55 - n) % 64)
  }

  /** The bit length modulo 2^64, low-order byte first. */
  function LengthField(n: nat): (f: seq<Byte>)
    ensures |f| == 8
  {
    LittleEndian(8 * n % LENGTH_LIMIT, 8)
  }

  function Padded(m: seq<Byte>): (p: seq<Byte>)
    ensures |p| % 64 == 0
  {
    var padding := Padding(|m|);
    RoundsUp(|m| + |padding|);
    hide *;
    m + padding + LengthField(|m|)
  }

  lemma RoundsUp(n: nat)
    requires n % 64 == 56
    ensures (n + 8) % 64 == 0
  {}

  function Digest(m: seq<Byte>): seq<Byte> {
    EncodeRegs(Chain(Padded(m)))
  }

  /** Padding taken as a prefix of a fixed 64-byte array starting with 0x80. */
  lemma PaddingLength(n: nat, len: nat)
    requires len == (if n % 64 < 56 then 56 - n % 64 else 120 - n % 64)
    ensures 1 <= len <= 64 && ([0x80] + Zeros(63))[..len] == Padding(n)
  {}

  /** Before the first block the registers are the bytes 01 to ef upwards and fe to 10 downwards. */
  lemma InitialBytes()
    ensures EncodeRegs(Chain([])) == [0x01, 0x23, 0x45, 0x67, 0x89, 0xab, 0xcd, 0xef,
                                      0xfe, 0xdc, 0xba, 0x98, 0x76, 0x54, 0x32, 0x10]
  {}

  /** A block adds to each register what the 64 steps leave in that register. */
  lemma CompressAdds(r: Regs, x: seq<Word>)
    requires |x| == 16
    ensures var p := Steps(64, r, x);
      Compress(r, x) == Regs(Plus(p.a, r.a), Plus(p.b, r.b), Plus(p.c, r.c), Plus(p.d, r.d))
  {
    hide Steps, Plus;
    var p := Steps(64, r, x);
    PlusCommutative(p.a, r.a);
    PlusCommutative(p.b, r.b);
    PlusCommutative(p.c, r.c);
    PlusCommutative(p.d, r.d);
  }

  /** The words of a block are its bytes, four by four. */
  lemma WordsBack(block: seq<Byte>, k: nat)
    requires |block| == 64 && k < 16
    ensures EncodeWord(Words(block)[k]) == block[4 * k..4 * k + 4]
  {
    hide DecodeWord, EncodeWord;
    WordValue(block[4 * k], block[4 * k + 1], block[4 * k + 2], block[4 * k + 3]);
  }

  lemma DividesTwice(v: nat, b: nat)
    requires b > 0
    ensures v / 256 / b == v / (256 * b)
  {
    var x, q := v / 256, v / 256 / b;
    var m, s := b * q, v / 256 % b;
    assert x == m + s && v == 256 * m + 256 * s + v % 256;
    assert (256 * b) * q == 256 * m;
    QuotientIs(v, 256 * b, q);
  }

  lemma QuotientIs(v: nat, d: nat, q: nat)
    requires d > 0 && d * q <= v < d * q + d
    ensures v / d == q
  {
    var e := v / d;
    assert d * e <= v < d * e + d;
    if e < q {
      Larger(d, e, q);
    } else if e > q {
      Larger(d, q, e);
    }
  }

  lemma Larger(d: nat, a: nat, b: nat)
    requires a < b
    ensures d * a + d <= d * b
  {
    assert d * b == d * a + d + d * (b - a - 1);
  }

  /** Byte j is the digit of v for 256^j. */
  lemma {:induction false} LittleEndianDigit(v: nat, n: nat, j: nat)
    requires j < n
    ensures LittleEndian(v, n)[j] == (v / Power256(j) % 256) as Byte
    decreases n
  {
    if j == 0 {
      assert v / Power256(0) == v;
    } else {
      LittleEndianDigit(v / 256, n - 1, j - 1);
      DividesTwice(v, Power256(j - 1));
      hide LowByte;
    }
  }

  /** A message is padded with a byte 0x80, zeros up to 56 modulo 64, and its length in bits modulo 2^64, the
      lowest byte first. */
  lemma PaddedBytes(m: seq<Byte>)
    ensures var p := Padded(m);
      var n := |p| - 8;
      && |m| < n <= |m| + 64 && n % 64 == 56
      && p[..|m|] == m && p[|m|] == 0x80 && (forall k :: |m| < k < n ==> p[k] == 0)
      && forall j :: 0 <= j < 8 ==> p[n + j] == (8 * |m| % 0x1_0000_0000_0000_0000 / Power256(j) % 256) as Byte
  {
    var p, v := Padded(m), 8 * |m| % LENGTH_LIMIT;
    hide LittleEndian, Power256;
    forall j | 0 <= j < 8
      ensures p[|p| - 8 + j] == (v / Power256(j) % 256) as Byte
    {
      LittleEndianDigit(v, 8, j);
    }
  }

  lemma ChainAppend(bytes: seq<Byte>, block: seq<Byte>)
    requires |bytes| % 64 == 0 && |block| == 64
    ensures Chain(bytes + block) == Compress(Chain(bytes), Words(block))
  {
    hide Compress, Words;
    var all := bytes + block;
    assert all[..|all| - 64] == bytes && all[|all| - 64..] == block;
  }

  // ----- The two-word bit counter both implementations keep

  /** The words lo and hi hold the bit length of n bytes modulo 2^64. */
  predicate CountsBits(lo: int, hi: int, n: nat) {
    0 <= lo < WORD_LIMIT && 0 <= hi < WORD_LIMIT && lo + WORD_LIMIT * hi == 8 * n % LENGTH_LIMIT
  }

  lemma RemainderIs(v: int, r: int, k: int)
    requires v == r + LENGTH_LIMIT * k && 0 <= r < LENGTH_LIMIT
    ensures v % LENGTH_LIMIT == r
  {}

  /** The low word and its carry, whichever operand the overflow test looks at. */
  lemma LowWordCarries(lo: int, low: int, lo': int, carry: int)
    requires 0 <= lo < WORD_LIMIT && 0 <= low < WORD_LIMIT
    requires lo' == (lo + low) % WORD_LIMIT
    requires carry == (if lo' < lo then 1 else 0) || carry == (if lo' < low then 1 else 0)
    ensures lo + low == lo' + WORD_LIMIT * carry
  {}

  lemma HighWordWraps(hi: int, carry: int, high: int, hi': int) returns (k: int)
    requires hi' == ((hi + carry) % WORD_LIMIT + high) % WORD_LIMIT
    ensures hi + carry + high == hi' + WORD_LIMIT * k
  {
    k := (hi + carry) / WORD_LIMIT + ((hi + carry) % WORD_LIMIT + high) / WORD_LIMIT;
  }

  /** Adding len bytes to the counter. */
  lemma CounterAdvances(lo: int, hi: int, n: nat, len: nat, lo': int, carry: int, hi': int)
    requires CountsBits(lo, hi, n) && len < WORD_LIMIT
    requires lo' == (lo + 8 * len % WORD_LIMIT) % WORD_LIMIT
    requires carry == (if lo' < lo then 1 else 0) || carry == (if lo' < 8 * len % WORD_LIMIT then 1 else 0)
    requires hi' == ((hi + carry) % WORD_LIMIT + len / 0x2000_0000) % WORD_LIMIT
    ensures CountsBits(lo', hi', n + len)
  {
    var low, high := 8 * len % WORD_LIMIT, len / 0x2000_0000;
    assert 8 * len == low + WORD_LIMIT * high;
    LowWordCarries(lo, low, lo', carry);
    var k := HighWordWraps(hi, carry, high, hi');
    var q := 8 * n / LENGTH_LIMIT;
    RemainderIs(8 * (n + len), lo' + WORD_LIMIT * hi', q + k);
  }

  lemma CounterPosition(lo: int, hi: int, n: nat)
    requires CountsBits(lo, hi, n)
    ensures lo / 8 % 64 == n % 64
  {
    var q := 8 * n / LENGTH_LIMIT;
    assert 8 * n == lo + WORD_LIMIT * hi + LENGTH_LIMIT * q;
    assert n == lo / 8 + 0x2000_0000 * (hi + WORD_LIMIT * q);
  }

  /** The two counter words, each little-endian, are the 64-bit length field. */
  lemma CounterBytes(lo: int, hi: int, n: nat)
    requires CountsBits(lo, hi, n)
    ensures LittleEndian(lo, 4) + LittleEndian(hi, 4) == LengthField(n)
  {
    hide LittleEndian;
    assert Power256(2) == 0x1_0000 && Power256(4) == WORD_LIMIT;
    LittleEndianSplit(lo, hi, 4, 4);
  }

  function Power256(n: nat): (p: nat)
    ensures p > 0
  {
    if n == 0 then 1 else 256 * Power256(n - 1)
  }

  lemma {:induction false} LittleEndianSplit(lo: nat, hi: nat, n: nat, m: nat)
    requires lo < Power256(n)
    ensures LittleEndian(lo + Power256(n) * hi, n + m) == LittleEndian(lo, n) + LittleEndian(hi, m)
    decreases n
  {
    if n == 0 {
      assert Power256(0) * hi == hi;
    } else {
      var p := Power256(n - 1);
      var v := lo + Power256(n) * hi;
      assert v == lo + 256 * (p * hi);
      assert v / 256 == lo / 256 + p * hi;
      assert LowByte(v) == LowByte(lo) by {
        assert v % 256 == lo % 256;
      }
      hide LowByte;
      LittleEndianSplit(lo / 256, hi, n - 1, m);
    }
  }
}
