/** The MD5 of the RTSP client: rewritten boolean functions, a different buffering and
    padding that writes its one or two last blocks in place. */
module Md5Plumb {
  import opened Common
  import opened Rfc1321
  import opened ByteBuffers
  import Rsa = Md5Rsa

  function F1(x: Word, y: Word, z: Word): Word { W(z.bits ^ (x.bits & (y.bits ^ z.bits))) }

  function F2(x: Word, y: Word, z: Word): Word { F1(z, x, y) }

  function F3(x: Word, y: Word, z: Word): Word { W(x.bits ^ y.bits ^ z.bits) }

  function F4(x: Word, y: Word, z: Word): Word { W(y.bits ^ (x.bits | !z.bits)) }

  /** MD5STEP with the value of its function argument: w += f + data, rotate, w += x. */
  function Step(f: Word, w: Word, x: Word, data: Word, s: nat): Word
    requires s < 32
  {
    Plus(RotateLeft(Plus(w, Plus(f, data)), s), x)
  }

  function Step1(w: Word, x: Word, y: Word, z: Word, data: Word, s: nat): Word
    requires s < 32
  {
    Step(F1(x, y, z), w, x, data, s)
  }

  function Step2(w: Word, x: Word, y: Word, z: Word, data: Word, s: nat): Word
    requires s < 32
  {
    Step(F2(x, y, z), w, x, data, s)
  }

  function Step3(w: Word, x: Word, y: Word, z: Word, data: Word, s: nat): Word
    requires s < 32
  {
    Step(F3(x, y, z), w, x, data, s)
  }

  function Step4(w: Word, x: Word, y: Word, z: Word, data: Word, s: nat): Word
    requires s < 32
  {
    Step(F4(x, y, z), w, x, data, s)
  }

  lemma Step1IsOp(i: nat, w: Word, x: Word, y: Word, z: Word, m: Word)
    requires 0 <= i < 16
    ensures Step1(w, x, y, z, Plus(m, T(i)), Shift(i)) == Op(i, w, x, y, z, m)
  {
    assert F1(x, y, z) == Aux(i, x, y, z);
    hide F1, Aux, Op, T, Shift, Plus, RotateLeft;
    StepIsOp(i, F1(x, y, z), w, x, y, z, m);
  }

  lemma Step2IsOp(i: nat, w: Word, x: Word, y: Word, z: Word, m: Word)
    requires 16 <= i < 32
    ensures Step2(w, x, y, z, Plus(m, T(i)), Shift(i)) == Op(i, w, x, y, z, m)
  {
    assert F2(x, y, z) == Aux(i, x, y, z);
    hide F2, Aux, Op, T, Shift, Plus, RotateLeft;
    StepIsOp(i, F2(x, y, z), w, x, y, z, m);
  }

  lemma Step3IsOp(i: nat, w: Word, x: Word, y: Word, z: Word, m: Word)
    requires 32 <= i < 48
    ensures Step3(w, x, y, z, Plus(m, T(i)), Shift(i)) == Op(i, w, x, y, z, m)
  {
    assert F3(x, y, z) == Aux(i, x, y, z);
    hide F3, Aux, Op, T, Shift, Plus, RotateLeft;
    StepIsOp(i, F3(x, y, z), w, x, y, z, m);
  }

  lemma Step4IsOp(i: nat, w: Word, x: Word, y: Word, z: Word, m: Word)
    requires 48 <= i < 64
    ensures Step4(w, x, y, z, Plus(m, T(i)), Shift(i)) == Op(i, w, x, y, z, m)
  {
    assert F4(x, y, z) == Aux(i, x, y, z);
    hide F4, Aux, Op, T, Shift, Plus, RotateLeft;
    StepIsOp(i, F4(x, y, z), w, x, y, z, m);
  }

  lemma Round1()
    ensures forall i: nat, w: Word, x: Word, y: Word, z: Word, m: Word {:trigger Op(i, w, x, y, z, m)} ::
      0 <= i < 16 ==> Step1(w, x, y, z, Plus(m, T(i)), Shift(i)) == Op(i, w, x, y, z, m)
  {
    hide *;
    forall i: nat, w: Word, x: Word, y: Word, z: Word, m: Word | 0 <= i < 16
      ensures Step1(w, x, y, z, Plus(m, T(i)), Shift(i)) == Op(i, w, x, y, z, m)
    {
      Step1IsOp(i, w, x, y, z, m);
    }
  }

  lemma Round2()
    ensures forall i: nat, w: Word, x: Word, y: Word, z: Word, m: Word {:trigger Op(i, w, x, y, z, m)} ::
      16 <= i < 32 ==> Step2(w, x, y, z, Plus(m, T(i)), Shift(i)) == Op(i, w, x, y, z, m)
  {
    hide *;
    forall i: nat, w: Word, x: Word, y: Word, z: Word, m: Word | 16 <= i < 32
      ensures Step2(w, x, y, z, Plus(m, T(i)), Shift(i)) == Op(i, w, x, y, z, m)
    {
      Step2IsOp(i, w, x, y, z, m);
    }
  }

  lemma Round3()
    ensures forall i: nat, w: Word, x: Word, y: Word, z: Word, m: Word {:trigger Op(i, w, x, y, z, m)} ::
      32 <= i < 48 ==> Step3(w, x, y, z, Plus(m, T(i)), Shift(i)) == Op(i, w, x, y, z, m)
  {
    hide *;
    forall i: nat, w: Word, x: Word, y: Word, z: Word, m: Word | 32 <= i < 48
      ensures Step3(w, x, y, z, Plus(m, T(i)), Shift(i)) == Op(i, w, x, y, z, m)
    {
      Step3IsOp(i, w, x, y, z, m);
    }
  }

  lemma Round4()
    ensures forall i: nat, w: Word, x: Word, y: Word, z: Word, m: Word {:trigger Op(i, w, x, y, z, m)} ::
      48 <= i < 64 ==> Step4(w, x, y, z, Plus(m, T(i)), Shift(i)) == Op(i, w, x, y, z, m)
  {
    hide *;
    forall i: nat, w: Word, x: Word, y: Word, z: Word, m: Word | 48 <= i < 64
      ensures Step4(w, x, y, z, Plus(m, T(i)), Shift(i)) == Op(i, w, x, y, z, m)
    {
      Step4IsOp(i, w, x, y, z, m);
    }
  }

  method FirstRound(a0: Word, b0: Word, c0: Word, d0: Word, x: seq<Word>, ghost r: Regs)
    returns (a: Word, b: Word, c: Word, d: Word)
    requires |x| == 16
    requires Regs(a0, b0, c0, d0) == Steps(0, r, x)
    ensures Regs(a, b, c, d) == Steps(16, r, x)
  {
    hide Step1, Op, Plus, T, Shift, Index, Steps;
    a, b, c, d := a0, b0, c0, d0;
    a := Step1(a, b, c, d, Plus(x[0], W(0xd76aa478)), 7);
    d := Step1(d, a, b, c, Plus(x[1], W(0xe8c7b756)), 12);
    c := Step1(c, d, a, b, Plus(x[2], W(0x242070db)), 17);
    b := Step1(b, c, d, a, Plus(x[3], W(0xc1bdceee)), 22);
    a := Step1(a, b, c, d, Plus(x[4], W(0xf57c0faf)), 7);
    d := Step1(d, a, b, c, Plus(x[5], W(0x4787c62a)), 12);
    c := Step1(c, d, a, b, Plus(x[6], W(0xa8304613)), 17);
    b := Step1(b, c, d, a, Plus(x[7], W(0xfd469501)), 22);
    a := Step1(a, b, c, d, Plus(x[8], W(0x698098d8)), 7);
    d := Step1(d, a, b, c, Plus(x[9], W(0x8b44f7af)), 12);
    c := Step1(c, d, a, b, Plus(x[10], W(0xffff5bb1)), 17);
    b := Step1(b, c, d, a, Plus(x[11], W(0x895cd7be)), 22);
    a := Step1(a, b, c, d, Plus(x[12], W(0x6b901122)), 7);
    d := Step1(d, a, b, c, Plus(x[13], W(0xfd987193)), 12);
    c := Step1(c, d, a, b, Plus(x[14], W(0xa679438e)), 17);
    b := Step1(b, c, d, a, Plus(x[15], W(0x49b40821)), 22);
    Round1();
    Round1Constants();
    FourSteps(0, r, x);
    FourSteps(4, r, x);
    FourSteps(8, r, x);
    FourSteps(12, r, x);
  }

  method SecondRound(a0: Word, b0: Word, c0: Word, d0: Word, x: seq<Word>, ghost r: Regs)
    returns (a: Word, b: Word, c: Word, d: Word)
    requires |x| == 16
    requires Regs(a0, b0, c0, d0) == Steps(16, r, x)
    ensures Regs(a, b, c, d) == Steps(32, r, x)
  {
    hide Step2, Op, Plus, T, Shift, Index, Steps;
    a, b, c, d := a0, b0, c0, d0;
    a := Step2(a, b, c, d, Plus(x[1], W(0xf61e2562)), 5);
    d := Step2(d, a, b, c, Plus(x[6], W(0xc040b340)), 9);
    c := Step2(c, d, a, b, Plus(x[11], W(0x265e5a51)), 14);
    b := Step2(b, c, d, a, Plus(x[0], W(0xe9b6c7aa)), 20);
    a := Step2(a, b, c, d, Plus(x[5], W(0xd62f105d)), 5);
    d := Step2(d, a, b, c, Plus(x[10], W(0x02441453)), 9);
    c := Step2(c, d, a, b, Plus(x[15], W(0xd8a1e681)), 14);
    b := Step2(b, c, d, a, Plus(x[4], W(0xe7d3fbc8)), 20);
    a := Step2(a, b, c, d, Plus(x[9], W(0x21e1cde6)), 5);
    d := Step2(d, a, b, c, Plus(x[14], W(0xc33707d6)), 9);
    c := Step2(c, d, a, b, Plus(x[3], W(0xf4d50d87)), 14);
    b := Step2(b, c, d, a, Plus(x[8], W(0x455a14ed)), 20);
    a := Step2(a, b, c, d, Plus(x[13], W(0xa9e3e905)), 5);
    d := Step2(d, a, b, c, Plus(x[2], W(0xfcefa3f8)), 9);
    c := Step2(c, d, a, b, Plus(x[7], W(0x676f02d9)), 14);
    b := Step2(b, c, d, a, Plus(x[12], W(0x8d2a4c8a)), 20);
    Round2();
    Round2Constants();
    FourSteps(16, r, x);
    FourSteps(20, r, x);
    FourSteps(24, r, x);
    FourSteps(28, r, x);
  }

  method ThirdRound(a0: Word, b0: Word, c0: Word, d0: Word, x: seq<Word>, ghost r: Regs)
    returns (a: Word, b: Word, c: Word, d: Word)
    requires |x| == 16
    requires Regs(a0, b0, c0, d0) == Steps(32, r, x)
    ensures Regs(a, b, c, d) == Steps(48, r, x)
  {
    hide Step3, Op, Plus, T, Shift, Index, Steps;
    a, b, c, d := a0, b0, c0, d0;
    a := Step3(a, b, c, d, Plus(x[5], W(0xfffa3942)), 4);
    d := Step3(d, a, b, c, Plus(x[8], W(0x8771f681)), 11);
    c := Step3(c, d, a, b, Plus(x[11], W(0x6d9d6122)), 16);
    b := Step3(b, c, d, a, Plus(x[14], W(0xfde5380c)), 23);
    a := Step3(a, b, c, d, Plus(x[1], W(0xa4beea44)), 4);
    d := Step3(d, a, b, c, Plus(x[4], W(0x4bdecfa9)), 11);
    c := Step3(c, d, a, b, Plus(x[7], W(0xf6bb4b60)), 16);
    b := Step3(b, c, d, a, Plus(x[10], W(0xbebfbc70)), 23);
    a := Step3(a, b, c, d, Plus(x[13], W(0x289b7ec6)), 4);
    d := Step3(d, a, b, c, Plus(x[0], W(0xeaa127fa)), 11);
    c := Step3(c, d, a, b, Plus(x[3], W(0xd4ef3085)), 16);
    b := Step3(b, c, d, a, Plus(x[6], W(0x04881d05)), 23);
    a := Step3(a, b, c, d, Plus(x[9], W(0xd9d4d039)), 4);
    d := Step3(d, a, b, c, Plus(x[12], W(0xe6db99e5)), 11);
    c := Step3(c, d, a, b, Plus(x[15], W(0x1fa27cf8)), 16);
    b := Step3(b, c, d, a, Plus(x[2], W(0xc4ac5665)), 23);
    Round3();
    Round3Constants();
    FourSteps(32, r, x);
    FourSteps(36, r, x);
    FourSteps(40, r, x);
    FourSteps(44, r, x);
  }

  method FourthRound(a0: Word, b0: Word, c0: Word, d0: Word, x: seq<Word>, ghost r: Regs)
    returns (a: Word, b: Word, c: Word, d: Word)
    requires |x| == 16
    requires Regs(a0, b0, c0, d0) == Steps(48, r, x)
    ensures Regs(a, b, c, d) == Steps(64, r, x)
  {
    hide Step4, Op, Plus, T, Shift, Index, Steps;
    a, b, c, d := a0, b0, c0, d0;
    a := Step4(a, b, c, d, Plus(x[0], W(0xf4292244)), 6);
    d := Step4(d, a, b, c, Plus(x[7], W(0x432aff97)), 10);
    c := Step4(c, d, a, b, Plus(x[14], W(0xab9423a7)), 15);
    b := Step4(b, c, d, a, Plus(x[5], W(0xfc93a039)), 21);
    a := Step4(a, b, c, d, Plus(x[12], W(0x655b59c3)), 6);
    d := Step4(d, a, b, c, Plus(x[3], W(0x8f0ccc92)), 10);
    c := Step4(c, d, a, b, Plus(x[10], W(0xffeff47d)), 15);
    b := Step4(b, c, d, a, Plus(x[1], W(0x85845dd1)), 21);
    a := Step4(a, b, c, d, Plus(x[8], W(0x6fa87e4f)), 6);
    d := Step4(d, a, b, c, Plus(x[15], W(0xfe2ce6e0)), 10);
    c := Step4(c, d, a, b, Plus(x[6], W(0xa3014314)), 15);
    b := Step4(b, c, d, a, Plus(x[13], W(0x4e0811a1)), 21);
    a := Step4(a, b, c, d, Plus(x[4], W(0xf7537e82)), 6);
    d := Step4(d, a, b, c, Plus(x[11], W(0xbd3af235)), 10);
    c := Step4(c, d, a, b, Plus(x[2], W(0x2ad7d2bb)), 15);
    b := Step4(b, c, d, a, Plus(x[9], W(0xeb86d391)), 21);
    Round4();
    Round4Constants();
    FourSteps(48, r, x);
    FourSteps(52, r, x);
    FourSteps(56, r, x);
    FourSteps(60, r, x);
  }

  /** MD5Transform. */
  method Transform(buf: array<Word>, block: seq<Byte>)
    requires buf.Length == 4 && |block| == 64
    modifies buf
    ensures RegsOf(buf) == Compress(old(RegsOf(buf)), Words(block))
  {
    hide Plus, Steps;
    ghost var r := RegsOf(buf);
    var a, b, c, d := buf[0], buf[1], buf[2], buf[3];
    var x := Decode(block);
    NoSteps(r, x);
    a, b, c, d := FirstRound(a, b, c, d, x, r);
    a, b, c, d := SecondRound(a, b, c, d, x, r);
    a, b, c, d := ThirdRound(a, b, c, d, x, r);
    a, b, c, d := FourthRound(a, b, c, d, x, r);
    buf[0] := Plus(buf[0], a);
    buf[1] := Plus(buf[1], b);
    buf[2] := Plus(buf[2], c);
    buf[3] := Plus(buf[3], d);
  }

  /** MD5Context. fed is the message so far. */
  class Context {
    const buf: array<Word>
    const bits: array<int>
    const inp: array<Byte>
    ghost var fed: seq<Byte>

    ghost predicate Valid()
      reads this, buf, bits, inp
    {
      && buf.Length == 4 && bits.Length == 2 && inp.Length == 64
      && CountsBits(bits[0], bits[1], |fed|)
      && RegsOf(buf) == Chain(Whole(fed))
      && inp[..|fed| % 64] == Rest(fed)
    }

    /** MD5Init. */
    constructor ()
      ensures Valid() && fed == []
      ensures fresh(buf) && fresh(bits) && fresh(inp)
    {
      buf := new Word[4] [IV.a, IV.b, IV.c, IV.d];
      bits := new int[2] [0, 0];
      inp := new Byte[64];
      fed := [];
    }

    /** The bit count of MD5Update: the overflow test looks at the old low word. */
    method CountBytes(len: nat)
      requires bits.Length == 2 && CountsBits(bits[0], bits[1], |fed|) && len < WORD_LIMIT
      modifies bits
      ensures CountsBits(bits[0], bits[1], |fed| + len)
    {
      var t := bits[0];
      bits[0] := (t + 8 * len % WORD_LIMIT) % WORD_LIMIT;
      ghost var carry := if bits[0] < t then 1 else 0;
      if bits[0] < t {
        bits[1] := (bits[1] + 1) % WORD_LIMIT;
      }
      bits[1] := (bits[1] + len / 0x2000_0000) % WORD_LIMIT;
      CounterAdvances(old(bits[0]), old(bits[1]), |fed|, len, bits[0], carry, bits[1]);
    }

    /** The 64-byte loop of MD5Update: every block goes through the buffer. */
    method TransformBlocks(input: seq<Byte>, start: nat) returns (i: nat)
      requires buf.Length == 4 && inp.Length == 64 && start <= |input| && (|fed| + start) % 64 == 0
      requires RegsOf(buf) == Chain((fed + input)[..|fed| + start])
      modifies buf, inp
      ensures start <= i <= |input| < i + 64 && (|fed| + i) % 64 == 0
      ensures RegsOf(buf) == Chain((fed + input)[..|fed| + i])
    {
      hide Chain, Compress, Words;
      i := start;
      while |input| - i >= 64
        invariant start <= i <= |input| && (|fed| + i) % 64 == 0
        invariant RegsOf(buf) == Chain((fed + input)[..|fed| + i])
      {
        NextBlock(fed, input, i);
        CopyBytes(inp, 0, input[i..i + 64]);
        assert inp[..] == input[i..i + 64];
        Transform(buf, inp[..]);
        i := i + 64;
      }
    }

    /** MD5Update. */
    method Update(input: seq<Byte>)
      requires Valid() && |input| < WORD_LIMIT
      modifies this, buf, bits, inp
      ensures Valid() && fed == old(fed) + input
    {
      hide Chain, Compress, Words, CountsBits, Whole, Rest, RegsOf;
      var t := bits[0] / 8 % 64;
      CounterPosition(bits[0], bits[1], |fed|);
      CountBytes(|input|);
      var i := 0;
      if t != 0 {
        var part := 64 - t;
        if |input| < part {
          ShortJoin(fed, input);
          CopyBytes(inp, t, input);
          fed := fed + input;
          return;
        }
        CopyBytes(inp, t, input[..part]);
        assert inp[..] == Rest(fed) + input[..part];
        FirstBlock(fed, input, part);
        Transform(buf, inp[..]);
        assert RegsOf(buf) == Chain((fed + input)[..|fed| + part]);
        i := part;
      } else {
        NothingBuffered(fed, input);
      }
      i := TransformBlocks(input, i);
      RestOfJoin(fed, input, i);
      CopyBytes(inp, 0, input[i..]);
      fed := fed + input;
    }

    /** The padding of MD5Final and its last transform. */
    method Pad()
      requires Valid()
      modifies buf, inp
      ensures RegsOf(buf) == Chain(Padded(fed))
    {
      hide Chain, Compress, Words, LittleEndian, Zeros, Whole, Rest, RegsOf, Padding;
      var count := bits[0] / 8 % 64;
      CounterPosition(bits[0], bits[1], |fed|);
      CounterBytes(bits[0], bits[1], |fed|);
      inp[count] := 0x80;
      assert inp[..count + 1] == Rest(fed) + [0x80];
      var at := count + 1;
      count := 63 - count;
      ghost var chained := Whole(fed);
      if count < 8 {
        CopyBytes(inp, at, Zeros(count));
        assert inp[..] == Rest(fed) + [0x80] + Zeros(count);
        ChainAppend(Whole(fed), inp[..]);
        chained := Whole(fed) + inp[..];
        Transform(buf, inp[..]);
        CopyBytes(inp, 0, Zeros(56));
      } else {
        CopyBytes(inp, at, Zeros(count - 8));
      }
      ghost var last := inp[..56];
      CopyBytes(inp, 56, LittleEndian(bits[0], 4));
      CopyBytes(inp, 60, LittleEndian(bits[1], 4));
      assert inp[..] == last + LengthField(|fed|);
      LastBlocks(fed, count, chained, last);
      ChainAppend(chained, inp[..]);
      Transform(buf, inp[..]);
    }

    /** MD5Final. The last memset has the size of a pointer, so of the whole context only
        the first word is cleared: the rest of the digest stays behind in it. */
    method Final() returns (digest: seq<Byte>)
      requires Valid()
      modifies this, buf, inp
      ensures digest == Digest(old(fed))
      ensures buf[0] == W(0) && digest[4..] == EncodeWord(buf[1]) + EncodeWord(buf[2]) + EncodeWord(buf[3])
    {
      hide Chain, Padded, EncodeWord;
      Pad();
      digest := EncodeWord(buf[0]) + EncodeWord(buf[1]) + EncodeWord(buf[2]) + EncodeWord(buf[3]);
      buf[0] := W(0);
      fed := [];
    }
  }

  /** The one or two last blocks, in place, are the padded message of RFC 1321. */
  lemma LastBlocks(m: seq<Byte>, count: nat, chained: seq<Byte>, last: seq<Byte>)
    requires count == 63 - |m| % 64
    requires count < 8 ==> chained == Whole(m) + (Rest(m) + [0x80] + Zeros(count)) && last == Zeros(56)
    requires count >= 8 ==> chained == Whole(m) && last == Rest(m) + [0x80] + Zeros(count - 8)
    ensures |chained| % 64 == 0 && |last| == 56
    ensures chained + (last + LengthField(|m|)) == Padded(m)
  {
    assert Whole(m) + Rest(m) == m;
    if count < 8 {
      assert (55 - |m|) % 64 == count + 56;
      assert Zeros(count) + Zeros(56) == Zeros(count + 56);
    } else {
      assert (55 - |m|) % 64 == count - 8;
    }
  }

  /** A whole message, handed over in any pieces. */
  method Pieces(pieces: seq<seq<Byte>>) returns (digest: seq<Byte>)
    requires forall k | 0 <= k < |pieces| :: |pieces[k]| < WORD_LIMIT
    ensures digest == Digest(Joined(pieces))
  {
    hide Digest;
    var context := new Context();
    for k := 0 to |pieces|
      invariant context.Valid() && context.fed == Joined(pieces[..k])
      invariant fresh(context) && fresh(context.buf) && fresh(context.bits) && fresh(context.inp)
    {
      assert pieces[..k + 1][..k] == pieces[..k];
      context.Update(pieces[k]);
    }
    assert pieces[..|pieces|] == pieces;
    digest := context.Final();
  }

  /** Both implementations give the same digest, however the message is cut up for each. */
  method SameDigest(cut1: seq<seq<Byte>>, cut2: seq<seq<Byte>>) returns (digest1: seq<Byte>, digest2: seq<Byte>)
    requires Joined(cut1) == Joined(cut2)
    requires Rsa.Accepted(cut1)
    requires forall k | 0 <= k < |cut2| :: |cut2[k]| < WORD_LIMIT
    ensures digest1 == digest2 == Digest(Joined(cut1))
  {
    digest1 := Rsa.Pieces(cut1);
    digest2 := Pieces(cut2);
  }
}
