/** Framing of the NVR protocol: messages with a 10-byte head, cut out of a TCP stream that
    arrives in arbitrary pieces. */
module Framing {
  import opened Common

  type Byte = b: int | 0 <= b < 256

  const HEAD: int := 10
  const START: Byte := 0xCB
  const MAX_PAYLOAD: int := 1048
  const BUFFER: int := 2048

  /** A message as the callback gets it: only the low byte of the command arrives. */
  datatype Message = Message(cmd: Byte, payload: seq<Byte>)

  function Length(hi: Byte, lo: Byte): (n: nat)
    ensures n < 0x1_0000
  {
    hi * 256 + lo
  }

  /** What the head of the bytes says about them. */
  datatype Front = Short | Garbage | Partial | Whole(message: Message, size: nat)

  function Look(bytes: seq<Byte>): (f: Front)
    ensures f.Whole? ==> HEAD <= f.size <= |bytes| && f.size <= HEAD + MAX_PAYLOAD
    ensures f.Partial? ==> HEAD <= |bytes| < HEAD + MAX_PAYLOAD
    ensures f.Short? <==> |bytes| < HEAD
  {
    if |bytes| < HEAD then Short
    else if bytes[0] != START then Garbage
    else
      var n := Length(bytes[3], bytes[4]);
      if n > MAX_PAYLOAD then Garbage
      else if n <= |bytes| - HEAD then Whole(Message(bytes[2], bytes[HEAD..HEAD + n]), HEAD + n)
      else Partial
  }

  /** What a piece of the stream leads to: the messages delivered and the bytes kept. */
  datatype Outcome = Outcome(messages: seq<Message>, kept: seq<Byte>)

  /** The loop over the bytes at hand. Garbage makes it drop everything that is left. */
  function Cut(bytes: seq<Byte>): (o: Outcome)
    ensures |o.kept| <= HEAD + MAX_PAYLOAD - 1
    ensures |o.kept| <= |bytes|
    decreases |bytes|
  {
    if bytes == [] then Outcome([], [])
    else match Look(bytes)
      case Short => Outcome([], bytes)
      case Garbage => Outcome([], [])
      case Partial => Outcome([], bytes)
      case Whole(message, size) =>
        var rest := Cut(bytes[size..]);
        Outcome([message] + rest.messages, rest.kept)
  }

  /** A well-formed stream so far: whole messages, then the beginning of one. */
  predicate WellFormed(stream: seq<Byte>)
    decreases |stream|
  {
    || stream == []
    || match Look(stream)
       case Short => stream[0] == START && (|stream| >= 5 ==> Length(stream[3], stream[4]) <= MAX_PAYLOAD)
       case Garbage => false
       case Partial => true
       case Whole(_, size) => WellFormed(stream[size..])
  }

  /** Feeding the next piece to a receiver that has kept some bytes. */
  function Feed(kept: seq<Byte>, piece: seq<Byte>): Outcome {
    Cut(kept + piece)
  }

  /** The pieces of a stream one after the other. */
  function FeedAll(kept: seq<Byte>, pieces: seq<seq<Byte>>): Outcome {
    if pieces == [] then Outcome([], kept)
    else
      var before := FeedAll(kept, pieces[..|pieces| - 1]);
      var last := Feed(before.kept, pieces[|pieces| - 1]);
      Outcome(before.messages + last.messages, last.kept)
  }

  // ----- Fragmentation does not matter

  /** Cutting in two steps: what is kept of the first part comes before the second part. */
  lemma {:induction false} CutInTwo(a: seq<Byte>, b: seq<Byte>)
    requires WellFormed(a + b)
    ensures Cut(a + b).messages == Cut(a).messages + Cut(Cut(a).kept + b).messages
    ensures Cut(a + b).kept == Cut(Cut(a).kept + b).kept
    decreases |a|
  {
    if a == [] {
      assert a + b == b && Cut(a).kept + b == b;
    } else if Look(a).Whole? {
      var size := Look(a).size;
      assert (a + b)[HEAD..size] == a[HEAD..size];
      assert Look(a + b) == Look(a);
      assert (a + b)[size..] == a[size..] + b;
      CutInTwo(a[size..], b);
    } else {
      KeptWhole(a, b);
    }
  }

  /** The beginning of a message is kept as it is. */
  lemma KeptWhole(a: seq<Byte>, b: seq<Byte>)
    requires a != [] && !Look(a).Whole? && WellFormed(a + b)
    ensures Cut(a) == Outcome([], a)
  {
    if |a| >= HEAD {
      assert (a + b)[0] == a[0] && (a + b)[3] == a[3] && (a + b)[4] == a[4];
    }
  }

  lemma {:induction false} PrefixWellFormed(a: seq<Byte>, b: seq<Byte>)
    requires WellFormed(a + b)
    ensures WellFormed(a)
    decreases |a|
  {
    if a != [] {
      assert (a + b)[0] == a[0];
      assert |a| >= 5 ==> (a + b)[3] == a[3] && (a + b)[4] == a[4];
      if Look(a).Whole? {
        var size := Look(a).size;
        assert (a + b)[HEAD..size] == a[HEAD..size];
        assert Look(a + b) == Look(a);
        assert (a + b)[size..] == a[size..] + b;
        PrefixWellFormed(a[size..], b);
      }
    }
  }

  /** For any stream and any way recv cuts it up, the messages delivered and the bytes kept
      are those of the stream taken as a whole. What was kept from before counts as its
      beginning: nothing resets it when a new connection is made. */
  lemma {:induction false} AnyFragmentation(kept: seq<Byte>, pieces: seq<seq<Byte>>)
    requires WellFormed(kept + Joined(pieces)) && Cut(kept) == Outcome([], kept)
    ensures FeedAll(kept, pieces) == Cut(kept + Joined(pieces))
    decreases |pieces|
  {
    if pieces == [] {
      assert kept + [] == kept;
    } else {
      var before := pieces[..|pieces| - 1];
      var last := pieces[|pieces| - 1];
      assert kept + Joined(pieces) == (kept + Joined(before)) + last;
      PrefixWellFormed(kept + Joined(before), last);
      AnyFragmentation(kept, before);
      CutInTwo(kept + Joined(before), last);
    }
  }

  // ----- The sender's side

  /** A frame on the wire: a 16-bit command, four reserved bytes and a check byte. */
  datatype Frame = Frame(cmd: nat, reserved: seq<Byte>, check: Byte, payload: seq<Byte>)

  predicate ValidFrame(f: Frame) {
    f.cmd < 0x1_0000 && |f.reserved| == 4 && |f.payload| <= MAX_PAYLOAD
  }

  function Head(f: Frame): (h: seq<Byte>)
    requires ValidFrame(f)
    ensures |h| == HEAD
  {
    [START, f.cmd / 256, f.cmd % 256, |f.payload| / 256, |f.payload| % 256]
    + f.reserved + [f.check]
  }

  function Encode(f: Frame): seq<Byte>
    requires ValidFrame(f)
  {
    Head(f) + f.payload
  }

  function Received(f: Frame): Message
    requires ValidFrame(f)
  {
    Message(f.cmd % 256, f.payload)
  }

  function EncodeAll(frames: seq<Frame>): seq<Byte>
    requires forall f :: f in frames ==> ValidFrame(f)
  {
    if frames == [] then [] else Encode(frames[0]) + EncodeAll(frames[1..])
  }

  function ReceivedAll(frames: seq<Frame>): seq<Message>
    requires forall f :: f in frames ==> ValidFrame(f)
  {
    if frames == [] then [] else [Received(frames[0])] + ReceivedAll(frames[1..])
  }

  /** Nothing, or part of a message. */
  predicate Incomplete(tail: seq<Byte>) {
    WellFormed(tail) && (tail == [] || !Look(tail).Whole?)
  }

  lemma LookAtFrame(f: Frame, rest: seq<Byte>)
    requires ValidFrame(f)
    ensures Look(Encode(f) + rest) == Whole(Received(f), HEAD + |f.payload|)
    ensures (Encode(f) + rest)[HEAD + |f.payload|..] == rest
  {
    var bytes := Encode(f) + rest;
    assert bytes[..HEAD] == Head(f);
    assert bytes[0] == Head(f)[0] && bytes[2] == Head(f)[2] && bytes[3] == Head(f)[3] && bytes[4] == Head(f)[4];
    assert bytes[HEAD..HEAD + |f.payload|] == f.payload;
  }

  lemma {:induction false} CutFrames(frames: seq<Frame>, tail: seq<Byte>)
    requires (forall f :: f in frames ==> ValidFrame(f)) && Incomplete(tail)
    ensures WellFormed(EncodeAll(frames) + tail)
    ensures Cut(EncodeAll(frames) + tail) == Outcome(ReceivedAll(frames), tail)
  {
    if frames == [] {
      assert EncodeAll(frames) + tail == tail;
    } else {
      hide Look;
      var rest := EncodeAll(frames[1..]) + tail;
      assert EncodeAll(frames) + tail == Encode(frames[0]) + rest;
      CutFrames(frames[1..], tail);
      LookAtFrame(frames[0], rest);
    }
  }

  /** Whatever frames are sent, and however recv cuts the stream up, the callback gets exactly
      those messages, in order, and exactly the unfinished rest is kept. */
  lemma StreamDelivered(frames: seq<Frame>, tail: seq<Byte>, pieces: seq<seq<Byte>>)
    requires (forall f :: f in frames ==> ValidFrame(f)) && Incomplete(tail)
    requires Joined(pieces) == EncodeAll(frames) + tail
    ensures FeedAll([], pieces) == Outcome(ReceivedAll(frames), tail)
  {
    CutFrames(frames, tail);
    assert [] + Joined(pieces) == Joined(pieces);
    AnyFragmentation([], pieces);
  }

  // ----- The next connection

  /** The leftover of a connection that broke off is not reset. These are the messages of a new
      connection that sends whole frames. */
  ghost predicate Delivers(kept: seq<Byte>, frames: seq<Frame>, pieces: seq<seq<Byte>>) {
    (forall f :: f in frames ==> ValidFrame(f)) && Joined(pieces) == EncodeAll(frames) ==>
      FeedAll(kept, pieces).messages == ReceivedAll(frames)
  }

  /** A frame without payload that a leftover turns into something else. */
  function Victim(kept: seq<Byte>): (f: Frame)
    ensures ValidFrame(f) && f.payload == []
  {
    var third: int := if |kept| > 2 then kept[2] else 0;
    Frame(if |kept| == 1 then 1 else if |kept| == 2 then 0 else (third + 1) % 256, [0, 0, 0, 0], 0, [])
  }

  lemma HeadBytes(f: Frame)
    requires ValidFrame(f) && f.payload == [] && f.cmd < 256
    ensures Encode(f) == Head(f) && Head(f)[0] == START && Head(f)[1] == 0 && Head(f)[2] == f.cmd
    ensures Head(f)[3] == 0 && Head(f)[4] == 0
  {}

  lemma NotDelivered(bytes: seq<Byte>, m: Message)
    requires |bytes| >= HEAD && m.payload == []
    requires Look(bytes).Whole? ==> Length(bytes[3], bytes[4]) > 0 || bytes[2] != m.cmd
    ensures Cut(bytes).messages != [m]
  {
    if Look(bytes).Whole? {
      assert Cut(bytes).messages[0] == Look(bytes).message;
    }
  }

  lemma VictimLost(kept: seq<Byte>)
    requires Incomplete(kept) && kept != []
    ensures Feed(kept, Encode(Victim(kept))).messages != [Received(Victim(kept))]
  {
    var f := Victim(kept);
    HeadBytes(f);
    var bytes := kept + Head(f);
    hide Cut, Head, Look;
    if |kept| == 1 {
      assert bytes[3] == Head(f)[2] == 1;
    } else if |kept| == 2 {
      assert bytes[2] == Head(f)[0];
    } else {
      assert bytes[2] == kept[2];
    }
    NotDelivered(bytes, Received(f));
  }

  /** Every sequence of frames is delivered as it was sent, however recv cuts it up, exactly when
      nothing is left over from before. */
  lemma NextConnection(kept: seq<Byte>)
    requires Incomplete(kept)
    ensures (forall frames: seq<Frame>, pieces: seq<seq<Byte>> :: Delivers(kept, frames, pieces)) <==> kept == []
  {
    if kept == [] {
      forall frames: seq<Frame>, pieces: seq<seq<Byte>>
        ensures Delivers(kept, frames, pieces)
      {
        if (forall f :: f in frames ==> ValidFrame(f)) && Joined(pieces) == EncodeAll(frames) {
          assert EncodeAll(frames) + [] == EncodeAll(frames);
          StreamDelivered(frames, [], pieces);
        }
      }
    } else {
      var f := Victim(kept);
      var frames, pieces := [f], [Encode(f)];
      VictimLost(kept);
      FeedOne(kept, Encode(f));
      JustOne(f);
      hide Feed, Encode, Received, Victim;
      assert !Delivers(kept, frames, pieces);
    }
  }

  lemma JustOne(f: Frame)
    requires ValidFrame(f)
    ensures Joined([Encode(f)]) == EncodeAll([f]) && ReceivedAll([f]) == [Received(f)]
  {
    hide Encode, Received;
    var pieces := [Encode(f)];
    assert pieces[..0] == [] && [] + Encode(f) == Encode(f);
    assert [f][1..] == [] && EncodeAll([]) == [] && Encode(f) + [] == Encode(f);
  }

  /** The beginning of a message whose length, as far as it is known, is accepted. */
  predicate Begun(bytes: seq<Byte>) {
    bytes != [] && bytes[0] == START && (|bytes| >= 5 ==> Length(bytes[3], bytes[4]) <= MAX_PAYLOAD)
  }

  predicate Enough(bytes: seq<Byte>) {
    |bytes| >= HEAD && |bytes| >= HEAD + Length(bytes[3], bytes[4])
  }

  lemma NotEnough(bytes: seq<Byte>)
    requires Begun(bytes) && !Enough(bytes)
    ensures Cut(bytes) == Outcome([], bytes)
  {}

  lemma FirstOfEnough(bytes: seq<Byte>)
    requires Begun(bytes) && Enough(bytes)
    ensures var o := Cut(bytes);
      o.messages != [] && o.messages[0] == Message(bytes[2], bytes[HEAD..HEAD + Length(bytes[3], bytes[4])])
  {
    assert Look(bytes).Whole?;
  }

  lemma BegunPrefix(a: seq<Byte>, b: seq<Byte>)
    requires a != [] && Begun(a + b)
    ensures Begun(a)
    ensures Enough(a) ==>
      && Enough(a + b) && (a + b)[2] == a[2]
      && (a + b)[HEAD..HEAD + Length((a + b)[3], (a + b)[4])] == a[HEAD..HEAD + Length(a[3], a[4])]
  {
    assert forall i :: 0 <= i < |a| ==> (a + b)[i] == a[i];
  }

  /** The leftover and what the new connection sends first are taken for one message: the bytes that
      the leftover lacks of a head, and as many more as the length in it says. Until they are there
      nothing is delivered. */
  lemma {:induction false} Swallowed(kept: seq<Byte>, pieces: seq<seq<Byte>>)
    requires Incomplete(kept) && kept != [] && Begun(kept + Joined(pieces))
    ensures var all, o := kept + Joined(pieces), FeedAll(kept, pieces);
      if !Enough(all) then o == Outcome([], all)
      else o.messages != [] && o.messages[0] == Message(all[2], all[HEAD..HEAD + Length(all[3], all[4])])
    decreases |pieces|
  {
    if pieces == [] {
      assert kept + [] == kept;
    } else {
      var before, piece := pieces[..|pieces| - 1], pieces[|pieces| - 1];
      var part, all := kept + Joined(before), kept + Joined(pieces);
      assert all == part + piece;
      hide Cut, Look, Begun, Enough, Incomplete;
      BegunPrefix(part, piece);
      Swallowed(kept, before);
      if !Enough(part) {
        if Enough(all) {
          FirstOfEnough(all);
        } else {
          NotEnough(all);
        }
      }
    }
  }

  lemma {:induction false} HeadUnfinished(kept: seq<Byte>, pieces: seq<seq<Byte>>)
    requires |kept + Joined(pieces)| < HEAD
    ensures FeedAll(kept, pieces) == Outcome([], kept + Joined(pieces))
    decreases |pieces|
  {
    if pieces == [] {
      assert kept + [] == kept;
    } else {
      var before, piece := pieces[..|pieces| - 1], pieces[|pieces| - 1];
      assert kept + Joined(pieces) == kept + Joined(before) + piece;
      HeadUnfinished(kept, before);
    }
  }

  /** If the length in the head that the two make up is too big, the piece that completes this head is
      thrown away as a whole, and the leftover with it: the frames that begin in it are lost, and the
      next piece is read as if a frame began there. */
  lemma HeadTooLong(kept: seq<Byte>, before: seq<seq<Byte>>, piece: seq<Byte>)
    requires |kept + Joined(before)| < HEAD <= |kept + Joined(before) + piece|
    requires var all := kept + Joined(before) + piece; Length(all[3], all[4]) > MAX_PAYLOAD
    ensures FeedAll(kept, before + [piece]) == Outcome([], [])
  {
    var pieces := before + [piece];
    assert pieces[..|pieces| - 1] == before;
    HeadUnfinished(kept, before);
    assert Look(kept + Joined(before) + piece) == Garbage;
  }

  /** For example: a leftover head takes a frame for its payload. */
  lemma StaleLeftover(f: Frame)
    requires ValidFrame(f) && |f.payload| == 0
    ensures FeedAll([], [STALE]) == Outcome([], STALE)
    ensures FeedAll(STALE, [Encode(f)]) == Outcome([Message(2, Encode(f))], [])
  {
    assert Length(STALE[3], STALE[4]) == 10;
    assert [] + STALE == STALE && Look(STALE) == Partial;
    FeedOne([], STALE);
    var bytes := STALE + Encode(f);
    assert bytes[0] == START && bytes[2] == 2 && bytes[3] == 0 && bytes[4] == 10;
    assert bytes[HEAD..HEAD + 10] == Encode(f);
    assert Look(bytes) == Whole(Message(2, Encode(f)), 20);
    assert bytes[20..] == [];
    assert Cut(bytes).messages == [Message(2, Encode(f))];
    FeedOne(STALE, Encode(f));
  }

  /** The head of a message of ten bytes that never came. */
  const STALE: seq<Byte> := [START, 0, 2, 0, 10, 0, 0, 0, 0, 0]

  lemma SliceOfSlice(s: array<Byte>, a: nat, b: nat, i: nat, j: nat)
    requires a <= b <= s.Length && i <= j <= b - a
    ensures s[a..b][i..j] == s[a + i..a + j]
  {
    var slice, part := s[a..b], s[a + i..a + j];
    forall k | 0 <= k < j - i
      ensures slice[i..j][k] == part[k]
    {
      assert slice[i..j][k] == slice[i + k] == s[a + (i + k)];
      assert part[k] == s[a + i + k];
    }
  }

  lemma FeedOne(kept: seq<Byte>, piece: seq<Byte>)
    ensures FeedAll(kept, [piece]) == Feed(kept, piece)
  {
    hide Cut;
    assert [piece][..0] == [];
  }

  // ----- PMSG_SendPmsgData

  const MAX_SENT: int := 1014

  function Xor(a: Byte, b: Byte): Byte {
    ((a as bv8) ^ (b as bv8)) as int
  }

  function XorAll(data: seq<Byte>): Byte {
    if data == [] then 0 else Xor(XorAll(data[..|data| - 1]), data[|data| - 1])
  }

  /** The masks of the eight bits. */
  predicate IsBit(mask: bv8) {
    || mask == 1 || mask == 2 || mask == 4 || mask == 8
    || mask == 16 || mask == 32 || mask == 64 || mask == 128
  }

  predicate Bit(x: bv8, mask: bv8) {
    x & mask != 0
  }

  predicate HasBit(b: Byte, mask: bv8) {
    Bit(b as bv8, mask)
  }

  /** How many bytes have the bit. */
  function Ones(data: seq<Byte>, mask: bv8): nat {
    if data == [] then 0 else Ones(data[..|data| - 1], mask) + if HasBit(data[|data| - 1], mask) then 1 else 0
  }

  lemma XorBits(x: bv8, y: bv8, z: bv8, mask: bv8)
    requires IsBit(mask) && z == x ^ y
    ensures Bit(z, mask) <==> Bit(x, mask) != Bit(y, mask)
  {}

  lemma XorBack(a: Byte, b: Byte)
    ensures Xor(a, b) as bv8 == (a as bv8) ^ (b as bv8)
  {}

  lemma XorBit(a: Byte, b: Byte, mask: bv8)
    requires IsBit(mask)
    ensures HasBit(Xor(a, b), mask) <==> HasBit(a, mask) != HasBit(b, mask)
  {
    XorBack(a, b);
    hide Xor, IsBit, Bit;
    XorBits(a as bv8, b as bv8, Xor(a, b) as bv8, mask);
  }

  lemma NoBit(mask: bv8)
    ensures !HasBit(0, mask)
  {}

  /** Every bit of the check byte is the parity of that bit over the payload. */
  lemma {:induction false} CheckIsParity(data: seq<Byte>, mask: bv8)
    requires IsBit(mask)
    ensures HasBit(XorAll(data), mask) <==> Ones(data, mask) % 2 == 1
    decreases |data|
  {
    hide Xor, IsBit, HasBit, Bit;
    if data == [] {
      NoBit(mask);
    } else {
      CheckIsParity(data[..|data| - 1], mask);
      XorBit(XorAll(data[..|data| - 1]), data[|data| - 1], mask);
    }
  }

  lemma XorZero(b: Byte)
    ensures Xor(0, b) == b && Xor(b, 0) == b
  {}

  lemma XorCommutes(a: Byte, b: Byte)
    ensures Xor(a, b) == Xor(b, a)
  {}

  lemma XorSelf(b: Byte)
    ensures Xor(b, b) == 0
  {}

  lemma XorAssociates(a: Byte, b: Byte, c: Byte)
    ensures Xor(a, Xor(b, c)) == Xor(Xor(a, b), c)
  {
    XorBack(a, b);
    XorBack(b, c);
  }

  /** A byte is got back by adding the other once more. */
  lemma XorUndone(a: Byte, b: Byte)
    ensures Xor(Xor(a, b), b) == a && Xor(Xor(a, b), a) == b
  {
    hide Xor;
    XorCommutes(a, b);
    XorAssociates(a, b, b);
    XorAssociates(b, a, a);
    XorSelf(a);
    XorSelf(b);
    XorZero(a);
    XorZero(b);
  }

  /** The check byte of one byte is that byte, and that of a payload put together the sum of theirs. */
  lemma {:induction false} CheckAdds(a: seq<Byte>, b: seq<Byte>)
    ensures XorAll(a + b) == Xor(XorAll(a), XorAll(b))
    ensures forall v: Byte :: XorAll([v]) == v
    decreases |b|
  {
    hide Xor;
    forall v: Byte
      ensures XorAll([v]) == v
    {
      assert [v][..0] == [];
      XorZero(v);
    }
    if b == [] {
      assert a + b == a;
      XorZero(XorAll(a));
    } else {
      var n := |b| - 1;
      assert (a + b)[..|a| + n] == a + b[..n];
      CheckAdds(a, b[..n]);
      XorAssociates(XorAll(a), XorAll(b[..n]), b[n]);
    }
  }

  /** GetMsgDataEcc. */
  method GetMsgDataEcc(data: seq<Byte>) returns (ecc: Byte)
    ensures ecc == XorAll(data)
  {
    ecc := 0;
    for i := 0 to |data|
      invariant ecc == XorAll(data[..i])
    {
      assert data[..i + 1][..i] == data[..i];
      ecc := Xor(ecc, data[i]);
    }
    assert data[..|data|] == data;
  }

  /** The frame sent for a payload: longer ones are cut off at 1014 bytes. */
  function SentFrame(cmd: nat, data: seq<Byte>): (f: Frame)
    requires cmd < 0x1_0000
    ensures ValidFrame(f)
  {
    var sent := if |data| > MAX_SENT then data[..MAX_SENT] else data;
    Frame(cmd, [0, 0, 0, 0], XorAll(sent), sent)
  }

  method CopyPayload(msg: array<Byte>, data: seq<Byte>)
    requires HEAD + |data| <= msg.Length
    modifies msg
    ensures msg[HEAD..HEAD + |data|] == data
    ensures forall k :: 0 <= k < HEAD ==> msg[k] == old(msg[k])
  {
    for i := 0 to |data|
      invariant msg[HEAD..HEAD + i] == data[..i]
      invariant forall k :: 0 <= k < HEAD ==> msg[k] == old(msg[k])
    {
      msg[HEAD + i] := data[i];
    }
  }

  method FillHead(msg: array<Byte>, cmd: nat, len: nat, ecc: Byte)
    requires cmd < 0x1_0000 && len < 0x1_0000 && msg.Length >= HEAD
    modifies msg
    ensures msg[..HEAD] == [START, cmd / 256, cmd % 256, len / 256, len % 256] + old(msg[5..9]) + [ecc]
    ensures forall k :: HEAD <= k < msg.Length ==> msg[k] == old(msg[k])
  {
    msg[0] := START;
    msg[1], msg[2] := cmd / 256, cmd % 256;
    msg[3], msg[4] := len / 256, len % 256;
    msg[9] := ecc;
  }

  /** PMSG_SendPmsgData up to the send: the bytes handed to the socket. */
  method SendPmsgData(cmd: nat, data: seq<Byte>) returns (sent: seq<Byte>)
    requires cmd < 0x1_0000
    ensures sent == Encode(SentFrame(cmd, data))
  {
    hide XorAll;
    var len := |data|;
    if len > 1024 - HEAD {
      len := 1024 - HEAD;
    }
    var msg := new Byte[1024](_ => 0);
    CopyPayload(msg, data[..len]);
    var ecc := 0;
    if len > 0 {
      ecc := GetMsgDataEcc(msg[HEAD..HEAD + len]);
    } else {
      NothingToXor();
    }
    assert msg[5..9] == [0, 0, 0, 0];
    FillHead(msg, cmd, len, ecc);
    assert data[..|data|] == data;
    sent := msg[..HEAD + len];
    assert sent == msg[..HEAD] + msg[HEAD..HEAD + len];
  }

  lemma NothingToXor()
    ensures XorAll([]) == 0
  {}

  /** The bytes on the wire: the start byte, command and length with the high byte first, four zero bytes,
      the check byte, and what fits of the payload. */
  lemma SentBytes(cmd: nat, data: seq<Byte>)
    requires cmd < 0x1_0000
    ensures var bytes := Encode(SentFrame(cmd, data));
      var sent := if |data| <= 1014 then data else data[..1014];
      && |bytes| == 10 + |sent| && bytes[10..] == sent
      && bytes[..5] == [0xCB, cmd / 256, cmd % 256, |sent| / 256, |sent| % 256]
      && bytes[5..9] == [0, 0, 0, 0] && XorAll(sent + [bytes[9]]) == 0
  {
    hide XorAll;
    var sent := SentFrame(cmd, data).payload;
    CheckCloses(sent);
  }

  lemma CheckCloses(data: seq<Byte>)
    ensures XorAll(data + [XorAll(data)]) == 0
  {
    hide Xor;
    assert (data + [XorAll(data)])[..|data|] == data;
    XorSelf(XorAll(data));
  }

  /** What is sent decodes to itself if and only if the command fits in a byte and the payload
      in a buffer; the check byte is the one that makes the payload add up to zero. */
  lemma SentDecodes(cmd: nat, data: seq<Byte>)
    requires cmd < 0x1_0000
    ensures var f := SentFrame(cmd, data);
      && Cut(Encode(f)) == Outcome([Received(f)], [])
      && (Received(f).cmd == cmd && Received(f).payload == data <==> cmd <= 255 && |data| <= MAX_SENT)
      && XorAll(f.payload + [f.check]) == 0
  {
    var f := SentFrame(cmd, data);
    CutFrames([f], []);
    assert EncodeAll([f]) + [] == Encode(f);
    assert ReceivedAll([f]) == [Received(f)];
    assert (f.payload + [f.check])[..|f.payload|] == f.payload;
    XorSelf(f.check);
  }

  // ----- The receiving thread

  /** The two buffers of CliProcessThread. */
  class Receiver {
    const recvBuf: array<Byte>
    const leaveBuf: array<Byte>
    var preLeaveLen: nat

    ghost predicate Valid()
      reads this
    {
      recvBuf.Length == BUFFER && leaveBuf.Length == BUFFER && recvBuf != leaveBuf
      && preLeaveLen < HEAD + MAX_PAYLOAD
    }

    ghost function Kept(): seq<Byte>
      requires Valid()
      reads this, leaveBuf
    {
      leaveBuf[..preLeaveLen]
    }

    constructor ()
      ensures Valid() && Kept() == []
      ensures fresh(recvBuf) && fresh(leaveBuf)
    {
      recvBuf := new Byte[BUFFER](_ => 0);
      leaveBuf := new Byte[BUFFER](_ => 0);
      preLeaveLen := 0;
    }

    /** How many bytes recv is asked for: always some. */
    function Room(): (n: nat)
      requires Valid()
      reads this
      ensures n >= BUFFER - HEAD - MAX_PAYLOAD
    {
      BUFFER - preLeaveLen - 1
    }

    method Copy(dst: array<Byte>, at: nat, src: seq<Byte>)
      requires at + |src| <= dst.Length
      modifies dst
      ensures dst[at..at + |src|] == src
      ensures dst[..at] == old(dst[..at])
      ensures dst[at + |src|..] == old(dst[at + |src|..])
    {
      for i := 0 to |src|
        invariant dst[at..at + i] == src[..i]
        invariant dst[..at] == old(dst[..at])
        invariant dst[at + i..] == old(dst[at + i..])
      {
        dst[at + i] := src[i];
      }
    }

    /** One piece from recv, and the loop that cuts it up. */
    method OnRecv(piece: seq<Byte>) returns (messages: seq<Message>)
      requires Valid() && 0 < |piece| <= Room()
      modifies this, recvBuf, leaveBuf
      ensures Valid()
      ensures Outcome(messages, Kept()) == Feed(old(Kept()), piece)
    {
      ghost var all := Kept() + piece;
      Copy(recvBuf, preLeaveLen, piece);
      if preLeaveLen > 0 {
        Copy(recvBuf, 0, leaveBuf[..preLeaveLen]);
      }
      assert recvBuf[..|all|] == all;
      messages := CutBuffer(|piece| + preLeaveLen);
    }

    /** The inner loop, over the first n bytes of the buffer. */
    method CutBuffer(n: nat) returns (messages: seq<Message>)
      requires Valid() && preLeaveLen < n < BUFFER
      modifies this, leaveBuf
      ensures Valid()
      ensures Outcome(messages, Kept()) == Cut(recvBuf[..n])
    {
      hide Cut, Look;
      ghost var total := Cut(recvBuf[..n]);
      messages := [];
      var offset, leave := 0, n;
      while leave > 0
        invariant 0 <= offset <= n && leave == n - offset
        invariant offset > 0 ==> preLeaveLen == 0
        invariant preLeaveLen < HEAD + MAX_PAYLOAD
        invariant total == Then(messages, Cut(recvBuf[offset..n]))
      {
        ghost var bytes := recvBuf[offset..n];
        CutStep(bytes);
        LookCases(bytes);
        if leave < HEAD {
          KeepRest(offset, n);
          return;
        }
        if recvBuf[offset] != START {
          preLeaveLen := 0;
          return;
        }
        var len := Length(recvBuf[offset + 3], recvBuf[offset + 4]);
        if len > MAX_PAYLOAD {
          preLeaveLen := 0;
          return;
        }
        var cmd := recvBuf[offset + 2];
        if len <= leave - HEAD {
          SliceOfSlice(recvBuf, offset, n, HEAD, HEAD + len);
          SliceOfSlice(recvBuf, offset, n, HEAD + len, leave);
          messages := messages + [Message(cmd, recvBuf[offset + HEAD..offset + HEAD + len])];
          leave := leave - (len + HEAD);
          offset := offset + (len + HEAD);
          preLeaveLen := 0;
        } else {
          KeepRest(offset, n);
          return;
        }
      }
      CutNothing();
    }

    /** memcpy of the unfinished message to the leftover buffer. */
    method KeepRest(offset: nat, n: nat)
      requires Valid() && offset <= n <= BUFFER && n - offset < HEAD + MAX_PAYLOAD
      modifies this, leaveBuf
      ensures Valid() && Kept() == recvBuf[offset..n]
    {
      Copy(leaveBuf, 0, recvBuf[offset..n]);
      preLeaveLen := n - offset;
      assert leaveBuf[0..preLeaveLen] == leaveBuf[..preLeaveLen];
    }

    /** A connection: every piece that recv returns. */
    method Receive(pieces: seq<seq<Byte>>) returns (messages: seq<Message>)
      requires Valid() && forall k :: 0 <= k < |pieces| ==>
        0 < |pieces[k]| <= BUFFER - |FeedAll(Kept(), pieces[..k]).kept| - 1
      modifies this, recvBuf, leaveBuf
      ensures Valid()
      ensures Outcome(messages, Kept()) == FeedAll(old(Kept()), pieces)
    {
      hide Feed;
      messages := [];
      for k := 0 to |pieces|
        invariant Valid() && Outcome(messages, Kept()) == FeedAll(old(Kept()), pieces[..k])
      {
        var more := OnRecv(pieces[k]);
        messages := messages + more;
        assert pieces[..k + 1][..k] == pieces[..k];
      }
      assert pieces[..|pieces|] == pieces;
    }
  }

  function Then(messages: seq<Message>, o: Outcome): Outcome {
    Outcome(messages + o.messages, o.kept)
  }

  lemma CutNothing()
    ensures Cut([]) == Outcome([], [])
  {}

  lemma CutStep(bytes: seq<Byte>)
    requires bytes != []
    ensures Look(bytes).Garbage? ==> Cut(bytes) == Outcome([], [])
    ensures Look(bytes).Short? || Look(bytes).Partial? ==> Cut(bytes) == Outcome([], bytes)
    ensures Look(bytes).Whole? ==> Cut(bytes) == Then([Look(bytes).message], Cut(bytes[Look(bytes).size..]))
  {}

  lemma LookCases(bytes: seq<Byte>)
    ensures |bytes| < HEAD ==> Look(bytes) == Short
    ensures |bytes| >= HEAD && bytes[0] != START ==> Look(bytes) == Garbage
    ensures |bytes| >= HEAD && bytes[0] == START ==>
      var len := Length(bytes[3], bytes[4]);
      if len > MAX_PAYLOAD then Look(bytes) == Garbage
      else if len <= |bytes| - HEAD then Look(bytes) == Whole(Message(bytes[2], bytes[HEAD..HEAD + len]), HEAD + len)
      else Look(bytes) == Partial
  {}
}
