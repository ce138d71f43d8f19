/** Byte buffers and chaining-state arrays as the C code handles them. */
module ByteBuffers {
  import opened Rfc1321

  ghost function RegsOf(state: array<Word>): Regs
    requires state.Length == 4
    reads state
  {
    Regs(state[0], state[1], state[2], state[3])
  }

  /** memcpy: src replaces |src| bytes of dst from position at. */
  method CopyBytes(dst: array<Byte>, at: nat, src: seq<Byte>)
    requires at + |src| <= dst.Length
    modifies dst
    ensures dst[..] == old(dst[..at]) + src + old(dst[at + |src|..])
  {
    for i := 0 to |src|
      invariant dst[..at] == old(dst[..at])
      invariant dst[at..at + i] == src[..i]
      invariant dst[at + i..] == old(dst[at + i..])
    {
      dst[at + i] := src[i];
    }
  }

  /** Little-endian load of the sixteen words of a block. */
  method Decode(block: seq<Byte>) returns (x: seq<Word>)
    requires |block| == 64
    ensures x == Words(block)
  {
    hide DecodeWord;
    x := [];
    var j := 0;
    while j < 64
      invariant 0 <= j <= 64 && j == 4 * |x|
      invariant x == Words(block)[..|x|]
    {
      x := x + [DecodeWord(block[j], block[j + 1], block[j + 2], block[j + 3])];
      j := j + 4;
    }
  }

  // ----- How a message divides into whole blocks and a buffered rest

  ghost function Whole(m: seq<Byte>): (w: seq<Byte>)
    ensures |w| % 64 == 0
  {
    m[..|m| - |m| % 64]
  }

  ghost function Rest(m: seq<Byte>): (r: seq<Byte>)
    ensures |r| == |m| % 64
  {
    m[|m| - |m| % 64..]
  }

  /** The buffered rest and the first bytes of the input complete a block. */
  lemma FirstBlock(fed: seq<Byte>, input: seq<Byte>, part: nat)
    requires part == 64 - |fed| % 64 <= |input|
    ensures (|fed| + part) % 64 == 0
    ensures Chain((fed + input)[..|fed| + part]) == Compress(Chain(Whole(fed)), Words(Rest(fed) + input[..part]))
  {
    hide Chain, Compress, Words;
    assert (fed + input)[..|fed| + part] == Whole(fed) + (Rest(fed) + input[..part]);
    ChainAppend(Whole(fed), Rest(fed) + input[..part]);
  }

  /** 64 more bytes of the input extend the chain by a block. */
  lemma NextBlock(fed: seq<Byte>, input: seq<Byte>, i: nat)
    requires i + 64 <= |input| && (|fed| + i) % 64 == 0
    ensures Chain((fed + input)[..|fed| + (i + 64)])
         == Compress(Chain((fed + input)[..|fed| + i]), Words(input[i..i + 64]))
  {
    hide Chain, Compress, Words;
    var all := fed + input;
    assert all[..|fed| + (i + 64)] == all[..|fed| + i] + input[i..i + 64];
    ChainAppend(all[..|fed| + i], input[i..i + 64]);
  }

  lemma NothingBuffered(fed: seq<Byte>, input: seq<Byte>)
    requires |fed| % 64 == 0
    ensures Whole(fed) == (fed + input)[..|fed|]
  {}

  lemma RestOfJoin(fed: seq<Byte>, input: seq<Byte>, i: nat)
    requires i <= |input| <= i + 63 && (|fed| + i) % 64 == 0
    ensures |fed + input| % 64 == |input| - i
    ensures Whole(fed + input) == (fed + input)[..|fed| + i] && Rest(fed + input) == input[i..]
  {}

  lemma ShortJoin(fed: seq<Byte>, input: seq<Byte>)
    requires |fed| % 64 + |input| < 64
    ensures |fed + input| % 64 == |fed| % 64 + |input|
    ensures Whole(fed + input) == Whole(fed) && Rest(fed + input) == Rest(fed) + input
  {}

  lemma WholeOfBlocks(m: seq<Byte>)
    requires |m| % 64 == 0
    ensures Whole(m) == m
  {}
}
