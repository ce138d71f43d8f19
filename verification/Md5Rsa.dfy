/** MD5C.C as the terminal's user interface carries it: a streaming context that
    buffers a partial block and pads by feeding itself. */
module Md5Rsa {
  import opened Common
  import opened Rfc1321
  import opened ByteBuffers

  const S11: nat := 7
  const S12: nat := 12
  const S13: nat := 17
  const S14: nat := 22
  const S21: nat := 5
  const S22: nat := 9
  const S23: nat := 14
  const S24: nat := 20
  const S31: nat := 4
  const S32: nat := 11
  const S33: nat := 16
  const S34: nat := 23
  const S41: nat := 6
  const S42: nat := 10
  const S43: nat := 15
  const S44: nat := 21

  function F(x: Word, y: Word, z: Word): Word { W((x.bits & y.bits) | (!x.bits & z.bits)) }

  function G(x: Word, y: Word, z: Word): Word { W((x.bits & z.bits) | (y.bits & !z.bits)) }

  function H(x: Word, y: Word, z: Word): Word { W(x.bits ^ y.bits ^ z.bits) }

  function I(x: Word, y: Word, z: Word): Word { W(y.bits ^ (x.bits | !z.bits)) }

  /** The common part of the four step macros: a += f + x + ac, rotate, a += b. */
  function Mix(f: Word, a: Word, b: Word, x: Word, s: nat, ac: Word): Word
    requires s < 32
  {
    Plus(RotateLeft(Plus(a, Plus(Plus(f, x), ac)), s), b)
  }

  function FF(a: Word, b: Word, c: Word, d: Word, x: Word, s: nat, ac: Word): Word
    requires s < 32
  {
    Mix(F(b, c, d), a, b, x, s, ac)
  }

  function GG(a: Word, b: Word, c: Word, d: Word, x: Word, s: nat, ac: Word): Word
    requires s < 32
  {
    Mix(G(b, c, d), a, b, x, s, ac)
  }

  function HH(a: Word, b: Word, c: Word, d: Word, x: Word, s: nat, ac: Word): Word
    requires s < 32
  {
    Mix(H(b, c, d), a, b, x, s, ac)
  }

  function II(a: Word, b: Word, c: Word, d: Word, x: Word, s: nat, ac: Word): Word
    requires s < 32
  {
    Mix(I(b, c, d), a, b, x, s, ac)
  }

  lemma FFIsOp(i: nat, a: Word, b: Word, c: Word, d: Word, x: Word)
    requires 0 <= i < 16
    ensures FF(a, b, c, d, x, Shift(i), T(i)) == Op(i, a, b, c, d, x)
  {
    assert F(b, c, d) == Aux(i, b, c, d);
    hide F, Aux, Op, T, Shift, Plus, RotateLeft;
    StepIsOp(i, F(b, c, d), a, b, c, d, x);
  }

  lemma GGIsOp(i: nat, a: Word, b: Word, c: Word, d: Word, x: Word)
    requires 16 <= i < 32
    ensures GG(a, b, c, d, x, Shift(i), T(i)) == Op(i, a, b, c, d, x)
  {
    assert G(b, c, d) == Aux(i, b, c, d);
    hide G, Aux, Op, T, Shift, Plus, RotateLeft;
    StepIsOp(i, G(b, c, d), a, b, c, d, x);
  }

  lemma HHIsOp(i: nat, a: Word, b: Word, c: Word, d: Word, x: Word)
    requires 32 <= i < 48
    ensures HH(a, b, c, d, x, Shift(i), T(i)) == Op(i, a, b, c, d, x)
  {
    assert H(b, c, d) == Aux(i, b, c, d);
    hide H, Aux, Op, T, Shift, Plus, RotateLeft;
    StepIsOp(i, H(b, c, d), a, b, c, d, x);
  }

  lemma IIIsOp(i: nat, a: Word, b: Word, c: Word, d: Word, x: Word)
    requires 48 <= i < 64
    ensures II(a, b, c, d, x, Shift(i), T(i)) == Op(i, a, b, c, d, x)
  {
    assert I(b, c, d) == Aux(i, b, c, d);
    hide I, Aux, Op, T, Shift, Plus, RotateLeft;
    StepIsOp(i, I(b, c, d), a, b, c, d, x);
  }

  lemma Round1()
    ensures forall i: nat, a: Word, b: Word, c: Word, d: Word, x: Word {:trigger Op(i, a, b, c, d, x)} ::
      0 <= i < 16 ==> FF(a, b, c, d, x, Shift(i), T(i)) == Op(i, a, b, c, d, x)
  {
    hide *;
    forall i: nat, a: Word, b: Word, c: Word, d: Word, x: Word | 0 <= i < 16
      ensures FF(a, b, c, d, x, Shift(i), T(i)) == Op(i, a, b, c, d, x)
    {
      FFIsOp(i, a, b, c, d, x);
    }
  }

  lemma Round2()
    ensures forall i: nat, a: Word, b: Word, c: Word, d: Word, x: Word {:trigger Op(i, a, b, c, d, x)} ::
      16 <= i < 32 ==> GG(a, b, c, d, x, Shift(i), T(i)) == Op(i, a, b, c, d, x)
  {
    hide *;
    forall i: nat, a: Word, b: Word, c: Word, d: Word, x: Word | 16 <= i < 32
      ensures GG(a, b, c, d, x, Shift(i), T(i)) == Op(i, a, b, c, d, x)
    {
      GGIsOp(i, a, b, c, d, x);
    }
  }

  lemma Round3()
    ensures forall i: nat, a: Word, b: Word, c: Word, d: Word, x: Word {:trigger Op(i, a, b, c, d, x)} ::
      32 <= i < 48 ==> HH(a, b, c, d, x, Shift(i), T(i)) == Op(i, a, b, c, d, x)
  {
    hide *;
    forall i: nat, a: Word, b: Word, c: Word, d: Word, x: Word | 32 <= i < 48
      ensures HH(a, b, c, d, x, Shift(i), T(i)) == Op(i, a, b, c, d, x)
    {
      HHIsOp(i, a, b, c, d, x);
    }
  }

  lemma Round4()
    ensures forall i: nat, a: Word, b: Word, c: Word, d: Word, x: Word {:trigger Op(i, a, b, c, d, x)} ::
      48 <= i < 64 ==> II(a, b, c, d, x, Shift(i), T(i)) == Op(i, a, b, c, d, x)
  {
    hide *;
    forall i: nat, a: Word, b: Word, c: Word, d: Word, x: Word | 48 <= i < 64
      ensures II(a, b, c, d, x, Shift(i), T(i)) == Op(i, a, b, c, d, x)
    {
      IIIsOp(i, a, b, c, d, x);
    }
  }

  /** Round 1 of MD5Transform. */
  method FirstRound(a0: Word, b0: Word, c0: Word, d0: Word, x: seq<Word>, ghost r: Regs)
    returns (a: Word, b: Word, c: Word, d: Word)
    requires |x| == 16
    requires Regs(a0, b0, c0, d0) == Steps(0, r, x)
    ensures Regs(a, b, c, d) == Steps(16, r, x)
  {
    hide FF, Op, Plus, T, Shift, Index, Steps;
    a, b, c, d := a0, b0, c0, d0;
    a := FF(a, b, c, d, x[0], S11, W(0xd76aa478));
    d := FF(d, a, b, c, x[1], S12, W(0xe8c7b756));
    c := FF(c, d, a, b, x[2], S13, W(0x242070db));
    b := FF(b, c, d, a, x[3], S14, W(0xc1bdceee));
    a := FF(a, b, c, d, x[4], S11, W(0xf57c0faf));
    d := FF(d, a, b, c, x[5], S12, W(0x4787c62a));
    c := FF(c, d, a, b, x[6], S13, W(0xa8304613));
    b := FF(b, c, d, a, x[7], S14, W(0xfd469501));
    a := FF(a, b, c, d, x[8], S11, W(0x698098d8));
    d := FF(d, a, b, c, x[9], S12, W(0x8b44f7af));
    c := FF(c, d, a, b, x[10], S13, W(0xffff5bb1));
    b := FF(b, c, d, a, x[11], S14, W(0x895cd7be));
    a := FF(a, b, c, d, x[12], S11, W(0x6b901122));
    d := FF(d, a, b, c, x[13], S12, W(0xfd987193));
    c := FF(c, d, a, b, x[14], S13, W(0xa679438e));
    b := FF(b, c, d, a, x[15], S14, W(0x49b40821));
    Round1();
    Round1Constants();
    FourSteps(0, r, x);
    FourSteps(4, r, x);
    FourSteps(8, r, x);
    FourSteps(12, r, x);
  }

  /** Round 2 of MD5Transform. */
  method SecondRound(a0: Word, b0: Word, c0: Word, d0: Word, x: seq<Word>, ghost r: Regs)
    returns (a: Word, b: Word, c: Word, d: Word)
    requires |x| == 16
    requires Regs(a0, b0, c0, d0) == Steps(16, r, x)
    ensures Regs(a, b, c, d) == Steps(32, r, x)
  {
    hide GG, Op, Plus, T, Shift, Index, Steps;
    a, b, c, d := a0, b0, c0, d0;
    a := GG(a, b, c, d, x[1], S21, W(0xf61e2562));
    d := GG(d, a, b, c, x[6], S22, W(0xc040b340));
    c := GG(c, d, a, b, x[11], S23, W(0x265e5a51));
    b := GG(b, c, d, a, x[0], S24, W(0xe9b6c7aa));
    a := GG(a, b, c, d, x[5], S21, W(0xd62f105d));
    d := GG(d, a, b, c, x[10], S22, W(0x02441453));
    c := GG(c, d, a, b, x[15], S23, W(0xd8a1e681));
    b := GG(b, c, d, a, x[4], S24, W(0xe7d3fbc8));
    a := GG(a, b, c, d, x[9], S21, W(0x21e1cde6));
    d := GG(d, a, b, c, x[14], S22, W(0xc33707d6));
    c := GG(c, d, a, b, x[3], S23, W(0xf4d50d87));
    b := GG(b, c, d, a, x[8], S24, W(0x455a14ed));
    a := GG(a, b, c, d, x[13], S21, W(0xa9e3e905));
    d := GG(d, a, b, c, x[2], S22, W(0xfcefa3f8));
    c := GG(c, d, a, b, x[7], S23, W(0x676f02d9));
    b := GG(b, c, d, a, x[12], S24, W(0x8d2a4c8a));
    Round2();
    Round2Constants();
    FourSteps(16, r, x);
    FourSteps(20, r, x);
    FourSteps(24, r, x);
    FourSteps(28, r, x);
  }

  /** Round 3 of MD5Transform. */
  method ThirdRound(a0: Word, b0: Word, c0: Word, d0: Word, x: seq<Word>, ghost r: Regs)
    returns (a: Word, b: Word, c: Word, d: Word)
    requires |x| == 16
    requires Regs(a0, b0, c0, d0) == Steps(32, r, x)
    ensures Regs(a, b, c, d) == Steps(48, r, x)
  {
    hide HH, Op, Plus, T, Shift, Index, Steps;
    a, b, c, d := a0, b0, c0, d0;
    a := HH(a, b, c, d, x[5], S31, W(0xfffa3942));
    d := HH(d, a, b, c, x[8], S32, W(0x8771f681));
    c := HH(c, d, a, b, x[11], S33, W(0x6d9d6122));
    b := HH(b, c, d, a, x[14], S34, W(0xfde5380c));
    a := HH(a, b, c, d, x[1], S31, W(0xa4beea44));
    d := HH(d, a, b, c, x[4], S32, W(0x4bdecfa9));
    c := HH(c, d, a, b, x[7], S33, W(0xf6bb4b60));
    b := HH(b, c, d, a, x[10], S34, W(0xbebfbc70));
    a := HH(a, b, c, d, x[13], S31, W(0x289b7ec6));
    d := HH(d, a, b, c, x[0], S32, W(0xeaa127fa));
    c := HH(c, d, a, b, x[3], S33, W(0xd4ef3085));
    b := HH(b, c, d, a, x[6], S34, W(0x04881d05));
    a := HH(a, b, c, d, x[9], S31, W(0xd9d4d039));
    d := HH(d, a, b, c, x[12], S32, W(0xe6db99e5));
    c := HH(c, d, a, b, x[15], S33, W(0x1fa27cf8));
    b := HH(b, c, d, a, x[2], S34, W(0xc4ac5665));
    Round3();
    Round3Constants();
    FourSteps(32, r, x);
    FourSteps(36, r, x);
    FourSteps(40, r, x);
    FourSteps(44, r, x);
  }

  /** Round 4 of MD5Transform. */
  method FourthRound(a0: Word, b0: Word, c0: Word, d0: Word, x: seq<Word>, ghost r: Regs)
    returns (a: Word, b: Word, c: Word, d: Word)
    requires |x| == 16
    requires Regs(a0, b0, c0, d0) == Steps(48, r, x)
    ensures Regs(a, b, c, d) == Steps(64, r, x)
  {
    hide II, Op, Plus, T, Shift, Index, Steps;
    a, b, c, d := a0, b0, c0, d0;
    a := II(a, b, c, d, x[0], S41, W(0xf4292244));
    d := II(d, a, b, c, x[7], S42, W(0x432aff97));
    c := II(c, d, a, b, x[14], S43, W(0xab9423a7));
    b := II(b, c, d, a, x[5], S44, W(0xfc93a039));
    a := II(a, b, c, d, x[12], S41, W(0x655b59c3));
    d := II(d, a, b, c, x[3], S42, W(0x8f0ccc92));
    c := II(c, d, a, b, x[10], S43, W(0xffeff47d));
    b := II(b, c, d, a, x[1], S44, W(0x85845dd1));
    a := II(a, b, c, d, x[8], S41, W(0x6fa87e4f));
    d := II(d, a, b, c, x[15], S42, W(0xfe2ce6e0));
    c := II(c, d, a, b, x[6], S43, W(0xa3014314));
    b := II(b, c, d, a, x[13], S44, W(0x4e0811a1));
    a := II(a, b, c, d, x[4], S41, W(0xf7537e82));
    d := II(d, a, b, c, x[11], S42, W(0xbd3af235));
    c := II(c, d, a, b, x[2], S43, W(0x2ad7d2bb));
    b := II(b, c, d, a, x[9], S44, W(0xeb86d391));
    Round4();
    Round4Constants();
    FourSteps(48, r, x);
    FourSteps(52, r, x);
    FourSteps(56, r, x);
    FourSteps(60, r, x);
  }

  /** MD5Transform: the chaining state takes in one 64-byte block. */
  method Transform(state: array<Word>, block: seq<Byte>)
    requires state.Length == 4 && |block| == 64
    modifies state
    ensures RegsOf(state) == Compress(old(RegsOf(state)), Words(block))
  {
    hide Plus, Steps;
    ghost var r := RegsOf(state);
    var a, b, c, d := state[0], state[1], state[2], state[3];
    var x := Decode(block);
    NoSteps(r, x);
    a, b, c, d := FirstRound(a, b, c, d, x, r);
    a, b, c, d := SecondRound(a, b, c, d, x, r);
    a, b, c, d := ThirdRound(a, b, c, d, x, r);
    a, b, c, d := FourthRound(a, b, c, d, x, r);
    state[0] := Plus(state[0], a);
    state[1] := Plus(state[1], b);
    state[2] := Plus(state[2], c);
    state[3] := Plus(state[3], d);
  }

  /** The guard i + 63 < inputLen of the block loop, computed in 32 bits. */
  predicate LoopGuard(i: nat, len: nat) {
    (i + 63) % WORD_LIMIT < len
  }

  /** With index bytes already buffered, the guard is exact for every i the loop reaches
      if and only if the following holds: past it the sum wraps and the loop would read
      beyond the input. */
  predicate GuardIsExact(index: nat, len: nat) {
    index == 0 || index + len < WORD_LIMIT
  }

  lemma GuardExactness(index: nat, len: nat)
    requires index < 64 && len < WORD_LIMIT
    ensures GuardIsExact(index, len) <==>
      forall i: nat :: i <= len && (index + i) % 64 == 0 ==> (LoopGuard(i, len) <==> i + 63 < len)
  {
    if !GuardIsExact(index, len) {
      var i := WORD_LIMIT - index;
      assert i <= len && (index + i) % 64 == 0;
      assert LoopGuard(i, len);
    }
  }

  lemma GuardHolds(n: nat, i: nat, len: nat)
    requires i <= len < WORD_LIMIT && (n + i) % 64 == 0 && GuardIsExact(n % 64, len)
    ensures LoopGuard(i, len) <==> i + 63 < len
  {
    GuardExactness(n % 64, len);
    assert (n % 64 + i) % 64 == 0;
  }

  /** MD5_CTX. fed is the message so far. */
  class Context {
    const state: array<Word>
    const count: array<int>
    const buffer: array<Byte>
    ghost var fed: seq<Byte>

    ghost predicate Valid()
      reads this, state, count, buffer
    {
      && state.Length == 4 && count.Length == 2 && buffer.Length == 64
      && CountsBits(count[0], count[1], |fed|)
      && RegsOf(state) == Chain(Whole(fed))
      && buffer[..|fed| % 64] == Rest(fed)
    }

    /** MD5_Init. */
    constructor ()
      ensures Valid() && fed == []
      ensures fresh(state) && fresh(count) && fresh(buffer)
    {
      state := new Word[4] [IV.a, IV.b, IV.c, IV.d];
      count := new int[2] [0, 0];
      buffer := new Byte[64];
      fed := [];
    }

    /** The bit count of MD5_Update: two 32-bit words with a carry between them. */
    method CountBytes(len: nat)
      requires count.Length == 2 && CountsBits(count[0], count[1], |fed|) && len < WORD_LIMIT
      modifies count
      ensures CountsBits(count[0], count[1], |fed| + len)
    {
      var low := 8 * len % WORD_LIMIT;
      ghost var carry := if (count[0] + low) % WORD_LIMIT < low then 1 else 0;
      count[0] := (count[0] + low) % WORD_LIMIT;
      if count[0] < low {
        count[1] := (count[1] + 1) % WORD_LIMIT;
      }
      count[1] := (count[1] + len / 0x2000_0000) % WORD_LIMIT;
      CounterAdvances(old(count[0]), old(count[1]), |fed|, len, count[0], carry, count[1]);
    }

    /** The block loop of MD5_Update from input position start on. */
    method TransformBlocks(input: seq<Byte>, start: nat) returns (i: nat)
      requires state.Length == 4 && start <= |input| < WORD_LIMIT
      requires (|fed| + start) % 64 == 0 && GuardIsExact(|fed| % 64, |input|)
      requires RegsOf(state) == Chain((fed + input)[..|fed| + start])
      modifies state
      ensures start <= i <= |input| <= i + 63 && (|fed| + i) % 64 == 0
      ensures RegsOf(state) == Chain((fed + input)[..|fed| + i])
    {
      hide Chain, Compress, Words, LoopGuard;
      i := start;
      while LoopGuard(i, |input|)
        invariant start <= i <= |input| && (|fed| + i) % 64 == 0
        invariant RegsOf(state) == Chain((fed + input)[..|fed| + i])
        decreases |input| - i
      {
        GuardHolds(|fed|, i, |input|);
        NextBlock(fed, input, i);
        Transform(state, input[i..i + 64]);
        i := i + 64;
      }
      GuardHolds(|fed|, i, |input|);
    }

    /** MD5_Update. */
    method Update(input: seq<Byte>)
      requires Valid()
      requires |input| < WORD_LIMIT && GuardIsExact(|fed| % 64, |input|)
      modifies this, state, count, buffer
      ensures Valid() && fed == old(fed) + input
    {
      hide Chain, Compress, Words, CountsBits, Whole, Rest, RegsOf, GuardIsExact;
      var index := count[0] / 8 % 64;
      CounterPosition(count[0], count[1], |fed|);
      CountBytes(|input|);
      var partLen := 64 - index;
      var i := 0;
      if |input| >= partLen {
        CopyBytes(buffer, index, input[..partLen]);
        assert buffer[..] == Rest(fed) + input[..partLen];
        FirstBlock(fed, input, partLen);
        Transform(state, buffer[..]);
        assert RegsOf(state) == Chain((fed + input)[..|fed| + partLen]);
        i := TransformBlocks(input, partLen);
        RestOfJoin(fed, input, i);
        index := 0;
      } else {
        ShortJoin(fed, input);
      }
      CopyBytes(buffer, index, input[i..]);
      fed := fed + input;
    }

    /** MD5_Final: feeds the padding and the saved length, writes the digest, clears the context. */
    method Final() returns (digest: seq<Byte>)
      requires Valid()
      modifies this, state, count, buffer
      ensures digest == Digest(old(fed))
      ensures forall k | 0 <= k < 4 :: state[k] == W(0)
      ensures count[0] == count[1] == 0 && forall k | 0 <= k < 64 :: buffer[k] == 0
    {
      hide Chain, Compress, Words, EncodeWord, LittleEndian, Zeros;
      ghost var message := fed;
      var bits := LittleEndian(count[0], 4) + LittleEndian(count[1], 4);
      CounterBytes(count[0], count[1], |fed|);
      var index := count[0] / 8 % 64;
      CounterPosition(count[0], count[1], |fed|);
      var padLen := if index < 56 then 56 - index else 120 - index;
      PaddingLength(|fed|, padLen);
      Update(([0x80] + Zeros(63))[..padLen]);
      Update(bits);
      assert fed == Padded(message);
      WholeOfBlocks(fed);
      digest := EncodeWord(state[0]) + EncodeWord(state[1]) + EncodeWord(state[2]) + EncodeWord(state[3]);
      state[0], state[1], state[2], state[3] := W(0), W(0), W(0), W(0);
      count[0], count[1] := 0, 0;
      forall k | 0 <= k < 64 {
        buffer[k] := 0;
      }
      fed := [];
    }
  }

  /** Pieces whose loop guards do not wrap: with bytes already buffered, a piece must not be so
      long that the two together reach 2^32 bytes. */
  ghost predicate Accepted(pieces: seq<seq<Byte>>) {
    forall k | 0 <= k < |pieces| ::
      |pieces[k]| < WORD_LIMIT && GuardIsExact(|Joined(pieces[..k])| % 64, |pieces[k]|)
  }

  /** A whole message, handed over in any such pieces. */
  method Pieces(pieces: seq<seq<Byte>>) returns (digest: seq<Byte>)
    requires Accepted(pieces)
    ensures digest == Digest(Joined(pieces))
  {
    var context := new Context();
    for k := 0 to |pieces|
      invariant context.Valid() && context.fed == Joined(pieces[..k])
      invariant fresh(context) && fresh(context.state) && fresh(context.count) && fresh(context.buffer)
    {
      assert pieces[..k + 1][..k] == pieces[..k];
      context.Update(pieces[k]);
    }
    assert pieces[..|pieces|] == pieces;
    digest := context.Final();
  }

  /** MD5_File: whatever lengths the reads return, the digest is that of the whole file. */
  method File(pieces: seq<seq<Byte>>) returns (digest: seq<Byte>)
    requires forall k | 0 <= k < |pieces| :: |pieces[k]| <= 1024
    ensures digest == Digest(Joined(pieces))
  {
    digest := Pieces(pieces);
  }
}
