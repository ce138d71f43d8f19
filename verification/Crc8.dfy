/** The check byte of the broadcast settings (pmsgproc.c): a table-driven CRC, the polynomial it stands
    for, and the errors it finds. */
module Crc8 {

  datatype Byte = Byte(bits: bv8)

  function Xor(a: Byte, b: Byte): Byte {
    Byte(a.bits ^ b.bits)
  }

  const ZERO := Byte(0)

  // ----- Division one bit at a time -----

  /** One bit of the shift register for x^8 + x^5 + x^4 + 1. */
  function Shift(x: bv8): bv8 {
    (x << 1) ^ (if x & 0x80 != 0 then 0x31 else 0)
  }

  /** Eight of them. */
  function Serial(x: bv8): bv8 {
    Shift(Shift(Shift(Shift(Shift(Shift(Shift(Shift(x))))))))
  }

  // ----- crc8_table, sixteen entries to a row -----

  function Entry(k: bv8, e0: bv8, e1: bv8, e2: bv8, e3: bv8, e4: bv8, e5: bv8, e6: bv8, e7: bv8,
                 e8: bv8, e9: bv8, ea: bv8, eb: bv8, ec: bv8, ed: bv8, ee: bv8, ef: bv8): bv8
  {
    if k == 0x0 then e0
    else if k == 0x1 then e1
    else if k == 0x2 then e2
    else if k == 0x3 then e3
    else if k == 0x4 then e4
    else if k == 0x5 then e5
    else if k == 0x6 then e6
    else if k == 0x7 then e7
    else if k == 0x8 then e8
    else if k == 0x9 then e9
    else if k == 0xa then ea
    else if k == 0xb then eb
    else if k == 0xc then ec
    else if k == 0xd then ed
    else if k == 0xe then ee
    else ef
  }

  function Row0(k: bv8): (v: bv8)
    requires k < 16
    ensures v == Serial(0x00 | k)
  {
    Entry(k, 0x00, 0x31, 0x62, 0x53, 0xc4, 0xf5, 0xa6, 0x97,
          0xb9, 0x88, 0xdb, 0xea, 0x7d, 0x4c, 0x1f, 0x2e)
  }

  function Row1(k: bv8): (v: bv8)
    requires k < 16
    ensures v == Serial(0x10 | k)
  {
    Entry(k, 0x43, 0x72, 0x21, 0x10, 0x87, 0xb6, 0xe5, 0xd4,
          0xfa, 0xcb, 0x98, 0xa9, 0x3e, 0x0f, 0x5c, 0x6d)
  }

  function Row2(k: bv8): (v: bv8)
    requires k < 16
    ensures v == Serial(0x20 | k)
  {
    Entry(k, 0x86, 0xb7, 0xe4, 0xd5, 0x42, 0x73, 0x20, 0x11,
          0x3f, 0x0e, 0x5d, 0x6c, 0xfb, 0xca, 0x99, 0xa8)
  }

  function Row3(k: bv8): (v: bv8)
    requires k < 16
    ensures v == Serial(0x30 | k)
  {
    Entry(k, 0xc5, 0xf4, 0xa7, 0x96, 0x01, 0x30, 0x63, 0x52,
          0x7c, 0x4d, 0x1e, 0x2f, 0xb8, 0x89, 0xda, 0xeb)
  }

  function Row4(k: bv8): (v: bv8)
    requires k < 16
    ensures v == Serial(0x40 | k)
  {
    Entry(k, 0x3d, 0x0c, 0x5f, 0x6e, 0xf9, 0xc8, 0x9b, 0xaa,
          0x84, 0xb5, 0xe6, 0xd7, 0x40, 0x71, 0x22, 0x13)
  }

  function Row5(k: bv8): (v: bv8)
    requires k < 16
    ensures v == Serial(0x50 | k)
  {
    Entry(k, 0x7e, 0x4f, 0x1c, 0x2d, 0xba, 0x8b, 0xd8, 0xe9,
          0xc7, 0xf6, 0xa5, 0x94, 0x03, 0x32, 0x61, 0x50)
  }

  function Row6(k: bv8): (v: bv8)
    requires k < 16
    ensures v == Serial(0x60 | k)
  {
    Entry(k, 0xbb, 0x8a, 0xd9, 0xe8, 0x7f, 0x4e, 0x1d, 0x2c,
          0x02, 0x33, 0x60, 0x51, 0xc6, 0xf7, 0xa4, 0x95)
  }

  function Row7(k: bv8): (v: bv8)
    requires k < 16
    ensures v == Serial(0x70 | k)
  {
    Entry(k, 0xf8, 0xc9, 0x9a, 0xab, 0x3c, 0x0d, 0x5e, 0x6f,
          0x41, 0x70, 0x23, 0x12, 0x85, 0xb4, 0xe7, 0xd6)
  }

  function Row8(k: bv8): (v: bv8)
    requires k < 16
    ensures v == Serial(0x80 | k)
  {
    Entry(k, 0x7a, 0x4b, 0x18, 0x29, 0xbe, 0x8f, 0xdc, 0xed,
          0xc3, 0xf2, 0xa1, 0x90, 0x07, 0x36, 0x65, 0x54)
  }

  function Row9(k: bv8): (v: bv8)
    requires k < 16
    ensures v == Serial(0x90 | k)
  {
    Entry(k, 0x39, 0x08, 0x5b, 0x6a, 0xfd, 0xcc, 0x9f, 0xae,
          0x80, 0xb1, 0xe2, 0xd3, 0x44, 0x75, 0x26, 0x17)
  }

  function RowA(k: bv8): (v: bv8)
    requires k < 16
    ensures v == Serial(0xa0 | k)
  {
    Entry(k, 0xfc, 0xcd, 0x9e, 0xaf, 0x38, 0x09, 0x5a, 0x6b,
          0x45, 0x74, 0x27, 0x16, 0x81, 0xb0, 0xe3, 0xd2)
  }

  function RowB(k: bv8): (v: bv8)
    requires k < 16
    ensures v == Serial(0xb0 | k)
  {
    Entry(k, 0xbf, 0x8e, 0xdd, 0xec, 0x7b, 0x4a, 0x19, 0x28,
          0x06, 0x37, 0x64, 0x55, 0xc2, 0xf3, 0xa0, 0x91)
  }

  function RowC(k: bv8): (v: bv8)
    requires k < 16
    ensures v == Serial(0xc0 | k)
  {
    Entry(k, 0x47, 0x76, 0x25, 0x14, 0x83, 0xb2, 0xe1, 0xd0,
          0xfe, 0xcf, 0x9c, 0xad, 0x3a, 0x0b, 0x58, 0x69)
  }

  function RowD(k: bv8): (v: bv8)
    requires k < 16
    ensures v == Serial(0xd0 | k)
  {
    Entry(k, 0x04, 0x35, 0x66, 0x57, 0xc0, 0xf1, 0xa2, 0x93,
          0xbd, 0x8c, 0xdf, 0xee, 0x79, 0x48, 0x1b, 0x2a)
  }

  function RowE(k: bv8): (v: bv8)
    requires k < 16
    ensures v == Serial(0xe0 | k)
  {
    Entry(k, 0xc1, 0xf0, 0xa3, 0x92, 0x05, 0x34, 0x67, 0x56,
          0x78, 0x49, 0x1a, 0x2b, 0xbc, 0x8d, 0xde, 0xef)
  }

  function RowF(k: bv8): (v: bv8)
    requires k < 16
    ensures v == Serial(0xf0 | k)
  {
    Entry(k, 0x82, 0xb3, 0xe0, 0xd1, 0x46, 0x77, 0x24, 0x15,
          0x3b, 0x0a, 0x59, 0x68, 0xff, 0xce, 0x9d, 0xac)
  }

  /** Every entry is the remainder of its index. */
  function Table(x: bv8): (v: bv8)
    ensures v == Serial(x)
  {
    var k := x & 0x0f;
    assert x == (x & 0xf0) | k && k < 16 by {
      hide *;
    }
    hide Serial;
    match x & 0xf0
    case 0x00 => Row0(k)
    case 0x10 => Row1(k)
    case 0x20 => Row2(k)
    case 0x30 => Row3(k)
    case 0x40 => Row4(k)
    case 0x50 => Row5(k)
    case 0x60 => Row6(k)
    case 0x70 => Row7(k)
    case 0x80 => Row8(k)
    case 0x90 => Row9(k)
    case 0xa0 => RowA(k)
    case 0xb0 => RowB(k)
    case 0xc0 => RowC(k)
    case 0xd0 => RowD(k)
    case 0xe0 => RowE(k)
    case _ => RowF(k)
  }

  // ----- The code -----

  function Step(crc: Byte, d: Byte): Byte {
    Byte(Serial(Xor(crc, d).bits))
  }

  function Fold(crc: Byte, data: seq<Byte>): Byte
    decreases |data|
  {
    if data == [] then crc else Fold(Step(crc, data[0]), data[1..])
  }

  function Crc(data: seq<Byte>): Byte {
    Fold(ZERO, data)
  }

  /** GetCRC8; the length parameter has 16 bits. */
  method GetCRC8(data: seq<Byte>) returns (crc: Byte)
    requires |data| < 0x1_0000
    ensures crc == Crc(data)
  {
    crc := ZERO;
    var i := 0;
    while i < |data|
      invariant 0 <= i <= |data| && Fold(crc, data[i..]) == Crc(data)
    {
      assert data[i..][1..] == data[i + 1..];
      crc := Byte(Table(crc.bits ^ data[i].bits));
      i := i + 1;
    }
  }

  // ----- Long division of polynomials -----

  /** x^8 + x^5 + x^4 + 1, highest power first. */
  const POLY := [true, false, false, true, true, false, false, false, true]

  function Bits(x: Byte): (b: seq<bool>)
    ensures |b| == 8
  {
    [x.bits & 0x80 != 0, x.bits & 0x40 != 0, x.bits & 0x20 != 0, x.bits & 0x10 != 0,
     x.bits & 0x08 != 0, x.bits & 0x04 != 0, x.bits & 0x02 != 0, x.bits & 0x01 != 0]
  }

  function BitsOf(data: seq<Byte>): (b: seq<bool>)
    ensures |b| == 8 * |data|
  {
    if data == [] then [] else Bits(data[0]) + BitsOf(data[1..])
  }

  function XorBits(a: seq<bool>, b: seq<bool>): (c: seq<bool>)
    requires |a| == |b|
    ensures |c| == |a|
  {
    seq(|a|, i requires 0 <= i < |a| => a[i] != b[i])
  }

  /** What is left of the dividend: while it is too long, subtract the divisor under its leading
      bit if that is set, and drop that bit. */
  function Remainder(dividend: seq<bool>): (r: seq<bool>)
    ensures |r| <= 8
    decreases |dividend|
  {
    if |dividend| <= 8 then dividend
    else if !dividend[0] then Remainder(dividend[1..])
    else Remainder(XorBits(dividend[..9], POLY)[1..] + dividend[9..])
  }

  function One(b: bool): bv8 {
    if b then 1 else 0
  }

  function ShiftIn(w: Byte, b: bool): Byte {
    Byte(Shift(w.bits) ^ One(b))
  }

  lemma ShiftInBits(w: Byte, b: bool)
    ensures Bits(ShiftIn(w, b))
         == if Bits(w)[0] then XorBits(Bits(w) + [b], POLY)[1..] else (Bits(w) + [b])[1..]
  {}

  lemma DivideBit(w: Byte, b: bool, rest: seq<bool>)
    ensures Remainder(Bits(w) + [b] + rest) == Remainder(Bits(ShiftIn(w, b)) + rest)
  {
    ShiftInBits(w, b);
    hide Bits, ShiftIn, XorBits;
    var d := Bits(w) + [b] + rest;
    assert d[..9] == Bits(w) + [b] && d[9..] == rest;
    assert d[1..] == (Bits(w) + [b])[1..] + rest;
  }

  lemma OneBits(y: bv8)
    ensures var b := Bits(Byte(y));
      && One(b[0]) == y >> 7 && One(b[1]) == (y >> 6) & 1
      && One(b[2]) == (y >> 5) & 1 && One(b[3]) == (y >> 4) & 1
      && One(b[4]) == (y >> 3) & 1 && One(b[5]) == (y >> 2) & 1
      && One(b[6]) == (y >> 1) & 1 && One(b[7]) == y & 1
  {}

  lemma NextBit(y: bv8)
    ensures y >> 6 == ((y >> 7) << 1) ^ ((y >> 6) & 1) && y >> 5 == ((y >> 6) << 1) ^ ((y >> 5) & 1)
    ensures y >> 4 == ((y >> 5) << 1) ^ ((y >> 4) & 1) && y >> 3 == ((y >> 4) << 1) ^ ((y >> 3) & 1)
    ensures y >> 2 == ((y >> 3) << 1) ^ ((y >> 2) & 1) && y >> 1 == ((y >> 2) << 1) ^ ((y >> 1) & 1)
    ensures y == ((y >> 1) << 1) ^ (y & 1)
    ensures (y >> 7) & 0x80 == (y >> 6) & 0x80 == (y >> 5) & 0x80 == (y >> 4) & 0x80 == 0
    ensures (y >> 3) & 0x80 == (y >> 2) & 0x80 == (y >> 1) & 0x80 == 0
  {}

  /** A byte without its last k bits. */
  function Down(b: Byte, k: nat): Byte {
    Byte(if k == 0 then b.bits else if k == 1 then b.bits >> 1 else if k == 2 then b.bits >> 2
         else if k == 3 then b.bits >> 3 else if k == 4 then b.bits >> 4 else if k == 5 then b.bits >> 5
         else if k == 6 then b.bits >> 6 else if k == 7 then b.bits >> 7 else 0)
  }

  function Shifted(x: Byte): Byte {
    Byte(Shift(x.bits))
  }

  ghost predicate Enters(u: Byte, v: Byte, bit: bool) {
    u.bits & 0x80 == 0 && v.bits == (u.bits << 1) ^ One(bit)
  }

  lemma DownLow(b: Byte, k: nat)
    requires k < 4
    ensures Enters(Down(b, k + 1), Down(b, k), Bits(b)[7 - k])
  {
    OneBits(b.bits);
    NextBit(b.bits);
    hide One, Bits;
  }

  lemma DownHigh(b: Byte, k: nat)
    requires 4 <= k < 8
    ensures Enters(Down(b, k + 1), Down(b, k), Bits(b)[7 - k])
  {
    OneBits(b.bits);
    NextBit(b.bits);
    hide One, Bits;
  }

  /** Bit k enters: x is the register as it would be without b. */
  lemma EnterBit(x: Byte, b: Byte, k: nat)
    requires k < 8
    ensures ShiftIn(Xor(x, Down(b, k + 1)), Bits(b)[7 - k]) == Xor(Shifted(x), Down(b, k))
  {
    if k < 4 { DownLow(b, k); } else { DownHigh(b, k); }
    hide Down, Bits;
    Enter(x, Down(b, k + 1), Down(b, k), Bits(b)[7 - k]);
    hide *;
  }

  lemma Enter(x: Byte, u: Byte, v: Byte, bit: bool)
    requires Enters(u, v, bit)
    ensures ShiftIn(Xor(x, u), bit) == Xor(Shifted(x), v)
  {}

  /** Dividing through one more byte brings eight shifts and adds that byte. */
  lemma DivideByte(w: Byte, b: Byte, rest: seq<bool>)
    ensures Remainder(Bits(w) + Bits(b) + rest) == Remainder(Bits(Xor(Byte(Serial(w.bits)), b)) + rest)
  {
    DivideFrom(w, w, b, 8, rest);
    EightShifts(w);
    DownEnds(w, b);
    hide Shifts, Down, Bits, Serial, Remainder, Xor;
    assert Bits(b)[..0] == [] && Bits(b)[0..] == Bits(b);
  }

  lemma DownEnds(x: Byte, b: Byte)
    ensures Xor(x, Down(b, 8)) == x && Down(b, 0) == b
  {}

  function Shifts(x: Byte, k: nat): Byte
    decreases k
  {
    if k == 0 then x else Shifts(Shifted(x), k - 1)
  }

  lemma EightShifts(x: Byte)
    ensures Shifts(x, 8) == Byte(Serial(x.bits))
  {
    var x2 := Shifted(Shifted(x));
    var x4 := Shifted(Shifted(x2));
    var x6 := Shifted(Shifted(x4));
    assert Shifts(x6, 2) == Shifted(Shifted(x6));
    assert Shifts(x4, 4) == Shifts(x6, 2);
    assert Shifts(x2, 6) == Shifts(x4, 4);
    assert Shifts(x, 8) == Shifts(x2, 6);
    hide Shift;
  }

  /** With k bits of b still to come. */
  lemma {:induction false} DivideFrom(w: Byte, x: Byte, b: Byte, k: nat, rest: seq<bool>)
    requires k <= 8 && w == Xor(x, Down(b, k))
    ensures Remainder(Bits(w) + Bits(b)[8 - k..] + rest) == Remainder(Bits(Xor(Shifts(x, k), Down(b, 0))) + rest)
    decreases k
  {
    hide Bits, Down, Xor, Remainder, ShiftIn, Shifted;
    if k == 0 {
      assert Bits(w) + Bits(b)[8..] == Bits(w);
    } else {
      var bit, later := Bits(b)[8 - k], Bits(b)[9 - k..];
      assert Bits(w) + Bits(b)[8 - k..] + rest == Bits(w) + [bit] + (later + rest);
      DivideBit(w, bit, later + rest);
      EnterBit(x, b, k - 1);
      var v := ShiftIn(w, bit);
      assert Bits(v) + (later + rest) == Bits(v) + later + rest;
      DivideFrom(v, Shifted(x), b, k - 1, rest);
    }
  }

  lemma {:induction false} DivideAll(w: Byte, data: seq<Byte>)
    ensures Remainder(Bits(w) + BitsOf(data) + Bits(ZERO)) == Bits(Fold(Byte(Serial(w.bits)), data))
    decreases |data|
  {
    hide Bits, Remainder, Serial, Xor;
    if data == [] {
      assert Bits(w) + BitsOf(data) + Bits(ZERO) == Bits(w) + Bits(ZERO) + [];
      DivideByte(w, ZERO, []);
      NothingAdded(Byte(Serial(w.bits)));
      ShortRemainder(Byte(Serial(w.bits)));
    } else {
      var v := Xor(Byte(Serial(w.bits)), data[0]);
      assert Bits(w) + BitsOf(data) + Bits(ZERO)
          == Bits(w) + Bits(data[0]) + (BitsOf(data[1..]) + Bits(ZERO));
      DivideByte(w, data[0], BitsOf(data[1..]) + Bits(ZERO));
      assert Bits(v) + (BitsOf(data[1..]) + Bits(ZERO)) == Bits(v) + BitsOf(data[1..]) + Bits(ZERO);
      DivideAll(v, data[1..]);
    }
  }

  lemma NothingAdded(x: Byte)
    ensures Xor(x, ZERO) == x && Xor(ZERO, x) == x && Serial(0) == 0
  {}

  lemma ShortRemainder(x: Byte)
    ensures Remainder(Bits(x) + []) == Bits(x) && Remainder(Bits(x)) == Bits(x)
  {
    hide Bits;
    assert Bits(x) + [] == Bits(x);
  }

  /** The table-driven CRC of every message is the remainder of long division of the message,
      followed by eight zero bits, by x^8 + x^5 + x^4 + 1. */
  lemma CrcIsRemainder(data: seq<Byte>)
    ensures Bits(Crc(data)) == Remainder(BitsOf(data) + Bits(ZERO))
  {
    hide Bits, Remainder, Serial, Xor;
    if data == [] {
      assert BitsOf(data) + Bits(ZERO) == Bits(ZERO);
      ShortRemainder(ZERO);
    } else {
      DivideAll(data[0], data[1..]);
      NothingAdded(data[0]);
    }
  }

  lemma {:induction false} FoldJoin(crc: Byte, a: seq<Byte>, b: seq<Byte>)
    ensures Fold(crc, a + b) == Fold(Fold(crc, a), b)
    decreases |a|
  {
    hide Step;
    if a == [] {
      assert a + b == b;
    } else {
      assert (a + b)[1..] == a[1..] + b;
      FoldJoin(Step(crc, a[0]), a[1..], b);
    }
  }

  lemma XorSelf(x: Byte, y: Byte)
    ensures Xor(x, y) == ZERO <==> x == y
  {}

  /** A message followed by its CRC leaves no remainder, and followed by any other byte it does. */
  lemma CheckByte(data: seq<Byte>, check: Byte)
    ensures Crc(data + [check]) == ZERO <==> check == Crc(data)
  {
    var c := Crc(data);
    FoldJoin(ZERO, data, [check]);
    assert [check][1..] == [];
    assert Crc(data + [check]) == Step(c, check);
    XorSelf(c, check);
    SerialZero(Xor(c, check));
    hide Xor, Serial, Fold;
  }

  lemma SerialZero(x: Byte)
    ensures Byte(Serial(x.bits)) == ZERO <==> x == ZERO
  {}

  // ----- Linearity and the errors found -----

  lemma ShiftLinear(x: Byte, y: Byte)
    ensures Shifted(Xor(x, y)) == Xor(Shifted(x), Shifted(y))
  {}

  lemma {:induction false} ShiftsLinear(x: Byte, y: Byte, k: nat)
    ensures Shifts(Xor(x, y), k) == Xor(Shifts(x, k), Shifts(y, k))
    decreases k
  {
    hide Xor, Shifted;
    if k > 0 {
      ShiftLinear(x, y);
      ShiftsLinear(Shifted(x), Shifted(y), k - 1);
    }
  }

  lemma SerialLinear(x: Byte, y: Byte)
    ensures Byte(Serial(Xor(x, y).bits)) == Xor(Byte(Serial(x.bits)), Byte(Serial(y.bits)))
  {
    EightShifts(x);
    EightShifts(y);
    EightShifts(Xor(x, y));
    ShiftsLinear(x, y, 8);
    hide *;
  }

  function XorData(a: seq<Byte>, b: seq<Byte>): (c: seq<Byte>)
    requires |a| == |b|
    ensures |c| == |a|
  {
    if a == [] then [] else [Xor(a[0], b[0])] + XorData(a[1..], b[1..])
  }

  lemma Regroup(a: Byte, b: Byte, c: Byte, d: Byte)
    ensures Xor(Xor(a, b), Xor(c, d)) == Xor(Xor(a, c), Xor(b, d))
  {}

  lemma StepLinear(x: Byte, y: Byte, a: Byte, b: Byte)
    ensures Step(Xor(x, y), Xor(a, b)) == Xor(Step(x, a), Step(y, b))
  {
    Regroup(x, y, a, b);
    SerialLinear(Xor(x, a), Xor(y, b));
    hide Xor, Serial;
  }

  lemma {:induction false} FoldLinear(x: Byte, y: Byte, a: seq<Byte>, b: seq<Byte>)
    requires |a| == |b|
    ensures Fold(Xor(x, y), XorData(a, b)) == Xor(Fold(x, a), Fold(y, b))
    decreases |a|
  {
    hide Xor, Step;
    if a != [] {
      StepLinear(x, y, a[0], b[0]);
      FoldLinear(Step(x, a[0]), Step(y, b[0]), a[1..], b[1..]);
    }
  }

  /** On messages of one length the CRC of the difference is the difference of the CRCs, so an
      error goes unseen exactly when its own CRC is zero. */
  lemma CrcLinear(a: seq<Byte>, b: seq<Byte>)
    requires |a| == |b|
    ensures Crc(XorData(a, b)) == Xor(Crc(a), Crc(b))
    ensures Crc(a) == Crc(b) <==> Crc(XorData(a, b)) == ZERO
  {
    NothingAdded(ZERO);
    FoldLinear(ZERO, ZERO, a, b);
    XorSelf(Crc(a), Crc(b));
    hide Xor, Fold, XorData;
  }

  lemma StepInjective(x: Byte, y: Byte, d: Byte)
    requires x != y
    ensures Step(x, d) != Step(y, d)
  {
    XorSelf(x, y);
    XorSelf(d, d);
    StepLinear(x, y, d, d);
    NothingAdded(Xor(x, y));
    SerialZero(Xor(x, y));
    XorSelf(Step(x, d), Step(y, d));
    hide Xor, Serial;
  }

  lemma {:induction false} FoldInjective(x: Byte, y: Byte, data: seq<Byte>)
    requires x != y
    ensures Fold(x, data) != Fold(y, data)
    decreases |data|
  {
    hide Step;
    if data != [] {
      StepInjective(x, y, data[0]);
      FoldInjective(Step(x, data[0]), Step(y, data[0]), data[1..]);
    }
  }

  /** A changed byte changes the CRC. */
  lemma SeesOneByte(before: seq<Byte>, a: Byte, b: Byte, after: seq<Byte>)
    requires a != b
    ensures Crc(before + [a] + after) != Crc(before + [b] + after)
  {
    var c := Crc(before);
    FoldJoin(ZERO, before + [a], after);
    FoldJoin(ZERO, before + [b], after);
    FoldJoin(ZERO, before, [a]);
    FoldJoin(ZERO, before, [b]);
    assert [a][1..] == [] && [b][1..] == [];
    assert Crc(before + [a]) == Step(c, a) && Crc(before + [b]) == Step(c, b);
    StepInjective(a, b, c);
    XorCommutes(c, a);
    XorCommutes(c, b);
    hide Xor, Serial, Fold;
    FoldInjective(Step(c, a), Step(c, b), after);
  }

  lemma XorCommutes(x: Byte, y: Byte)
    ensures Xor(x, y) == Xor(y, x)
  {}

  /** The last k bits of a byte, at the top of the next. */
  function Spill(b: Byte, k: nat): Byte {
    Byte(if k == 0 then 0 else if k == 1 then b.bits << 7 else if k == 2 then b.bits << 6
         else if k == 3 then b.bits << 5 else if k == 4 then b.bits << 4 else if k == 5 then b.bits << 3
         else if k == 6 then b.bits << 2 else if k == 7 then b.bits << 1 else b.bits)
  }

  lemma BurstLeaves(v: bv8, k: nat)
    requires v != 0 && k <= 8
    ensures Serial(Down(Byte(v), k).bits) != Spill(Byte(v), k).bits
  {
    if k == 0 {
    } else if k == 1 {
    } else if k == 2 {
    } else if k == 3 {
    } else if k == 4 {
    } else if k == 5 {
    } else if k == 6 {
    } else if k == 7 {
    }
  }

  lemma TwoSteps(c: Byte, a0: Byte, a1: Byte, b0: Byte, b1: Byte, v: Byte, k: nat)
    requires v != ZERO && k <= 8 && Xor(a0, b0) == Down(v, k) && Xor(a1, b1) == Spill(v, k)
    ensures Step(Step(c, a0), a1) != Step(Step(c, b0), b1)
  {
    BurstLeaves(v.bits, k);
    var x, y := Step(c, a0), Step(c, b0);
    XorSelf(c, c);
    NothingAdded(Down(v, k));
    StepLinear(c, c, a0, b0);
    assert Xor(x, y) == Byte(Serial(Down(v, k).bits));
    XorSelf(Xor(x, y), Spill(v, k));
    SerialZero(Xor(Xor(x, y), Spill(v, k)));
    StepLinear(x, y, a1, b1);
    XorSelf(Step(x, a1), Step(y, b1));
    hide Xor, Serial, Down, Spill;
  }

  /** So does every burst of errors no longer than eight bits, wherever it starts: v is the burst,
      k how many of its bits are in the second byte. */
  lemma SeesBurst(before: seq<Byte>, a0: Byte, a1: Byte, b0: Byte, b1: Byte, after: seq<Byte>, v: Byte, k: nat)
    requires v != ZERO && k <= 8 && Xor(a0, b0) == Down(v, k) && Xor(a1, b1) == Spill(v, k)
    ensures Crc(before + [a0, a1] + after) != Crc(before + [b0, b1] + after)
  {
    var c := Crc(before);
    TwoSteps(c, a0, a1, b0, b1, v, k);
    hide Xor, Serial, Down, Spill, Step;
    FoldTwo(c, a0, a1);
    FoldTwo(c, b0, b1);
    FoldJoin(ZERO, before + [a0, a1], after);
    FoldJoin(ZERO, before + [b0, b1], after);
    FoldJoin(ZERO, before, [a0, a1]);
    FoldJoin(ZERO, before, [b0, b1]);
    FoldInjective(Step(Step(c, a0), a1), Step(Step(c, b0), b1), after);
  }

  lemma FoldTwo(c: Byte, a: Byte, b: Byte)
    ensures Fold(c, [a, b]) == Step(Step(c, a), b)
  {
    hide Step;
    assert [a, b][1..] == [b] && [b][1..] == [];
    assert Fold(Step(Step(c, a), b), []) == Step(Step(c, a), b);
    assert Fold(Step(c, a), [b]) == Step(Step(c, a), b);
  }
}
