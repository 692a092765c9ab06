/** Streaming MD4 (mdfour.c) around an abstract compression of 64-byte blocks: the
  * result does not depend on how the input is cut up, and the blocks compressed are
  * those of the message padded by sections 3.1 and 3.2 of RFC 1320.
  */
module Mdfour {
  import opened Codec

  const BLOCK: nat := 64
  const WORD64: nat := 0x1_0000_0000_0000_0000

  /** The four 32-bit words of the accumulator. */
  datatype Chain = Chain(a: nat, b: nat, c: nat, d: nat)

  const INIT := Chain(0x67452301, 0xefcdab89, 0x98badcfe, 0x10325476)

  type Compress = (Chain, seq<Byte>) -> Chain

  /** The whole 64-byte blocks of m compressed one after the other. */
  ghost function Fold(f: Compress, c: Chain, m: seq<Byte>): Chain
    decreases |m|
  {
    if |m| < BLOCK then c else Fold(f, f(c, m[..BLOCK]), m[BLOCK..])
  }

  lemma {:induction false} FoldConcat(f: Compress, c: Chain, a: seq<Byte>, b: seq<Byte>)
    requires |a| % BLOCK == 0
    ensures Fold(f, c, a + b) == Fold(f, Fold(f, c, a), b)
    decreases |a|
  {
    if |a| == 0 {
      assert a + b == b;
    } else {
      assert (a + b)[..BLOCK] == a[..BLOCK] && (a + b)[BLOCK..] == a[BLOCK..] + b;
      FoldConcat(f, f(c, a[..BLOCK]), a[BLOCK..], b);
    }
  }

  /** Least significant byte first. */
  function LittleEndian(v: nat, len: nat): (s: seq<Byte>)
    ensures |s| == len
  {
    if len == 0 then [] else [v % 256] + LittleEndian(v / 256, len - 1)
  }

  lemma {:induction false} LittleEndianAt(v: nat, len: nat, j: nat)
    requires j < len
    ensures LittleEndian(v, len)[j] == v / Pow256(j) % 256
  {
    if j > 0 {
      LittleEndianAt(v / 256, len - 1, j - 1);
      DivTwice(v, Pow256(j - 1));
    }
  }

  lemma DivTwice(v: nat, p: nat)
    requires p > 0
    ensures v / 256 / p == v / (256 * p)
  {
    var q := v / 256;
    ModUnique(v, 256 * p, q / p, q % p * 256 + v % 256);
  }

  function Zeros(n: nat): (s: seq<Byte>)
    ensures |s| == n && forall i :: 0 <= i < n ==> s[i] == 0
  {
    seq(n, _ => 0)
  }

  /** How many zero bytes follow the first byte of padding: as few as leave room for
    * the length in the last block.
    */
  function ZeroCount(n: nat): (k: nat)
    ensures (n + 1 + k) % BLOCK == BLOCK - 8 && k < BLOCK
  {
    if n % BLOCK < 56 then 55 - n % BLOCK else 119 - n % BLOCK
  }

  /** A one bit, zeros up to 448 modulo 512, and the low 64 bits of the bit length. */
  function Padded(m: seq<Byte>): seq<Byte> {
    m + [0x80] + Zeros(ZeroCount(|m|)) + LittleEndian(8 * |m| % WORD64, 8)
  }

  lemma RoundUp(n: nat, k: nat)
    requires (n + 1 + k) % BLOCK == BLOCK - 8
    ensures (n + 1 + k + 8) % BLOCK == 0
  {
  }

  /** Padding makes whole blocks, and the shortest that hold the length. */
  lemma PaddedWhole(m: seq<Byte>)
    ensures |Padded(m)| % BLOCK == 0 && |m| + 9 <= |Padded(m)| < |m| + 9 + BLOCK && m <= Padded(m)
  {
    RoundUp(|m|, ZeroCount(|m|));
    var zeros, count := Zeros(ZeroCount(|m|)), LittleEndian(8 * |m| % WORD64, 8);
    assert |m + [0x80] + zeros + count| == |m| + 1 + ZeroCount(|m|) + 8;
  }

  /** The padding byte by byte, from the end of the message on: 0x80, zeros up to the last
    * eight bytes of the last 64-byte block, and in those the number of bits modulo 2^64,
    * least significant byte first.
    */
  lemma PaddedByIndex(m: seq<Byte>, k: nat)
    requires k < |Padded(m)|
    ensures var n, end := |m|, |Padded(m)|;
      && end % 64 == 0 && n + 9 <= end <= n + 72
      && Padded(m)[k] ==
           if k < n then m[k]
           else if k == n then 0x80
           else if k < end - 8 then 0
           else 8 * n % 0x1_0000_0000_0000_0000 / Pow256(k - (end - 8)) % 256
  {
    var n, end := |m|, |Padded(m)|;
    PaddedWhole(m);
    if k >= end - 8 {
      LittleEndianAt(8 * n % WORD64, 8, k - (end - 8));
    }
  }

  ghost function Md4(f: Compress, m: seq<Byte>): (out: seq<Byte>)
    ensures |out| == 16
  {
    var c := Fold(f, INIT, Padded(m));
    LittleEndian(c.a, 4) + LittleEndian(c.b, 4) + LittleEndian(c.c, 4) + LittleEndian(c.d, 4)
  }

  /** The digest byte by byte: the four words that compressing the padded message makes of the
    * initial words, each least significant byte first.
    */
  lemma Md4ByIndex(f: Compress, m: seq<Byte>, j: nat)
    requires j < 4
    ensures var c := Fold(f, Chain(0x67452301, 0xefcdab89, 0x98badcfe, 0x10325476), Padded(m));
      && Md4(f, m)[j] == c.a / Pow256(j) % 256 && Md4(f, m)[4 + j] == c.b / Pow256(j) % 256
      && Md4(f, m)[8 + j] == c.c / Pow256(j) % 256 && Md4(f, m)[12 + j] == c.d / Pow256(j) % 256
  {
    var c := Fold(f, INIT, Padded(m));
    LittleEndianAt(c.a, 4, j);
    LittleEndianAt(c.b, 4, j);
    LittleEndianAt(c.c, 4, j);
    LittleEndianAt(c.d, 4, j);
  }

  class Accumulator {
    const block: Compress
    var chain: Chain
    /** A 64-bit count of the bytes fed. */
    var totalN: nat
    var tailLen: nat
    const tail: array<Byte>
    /** Everything fed so far. */
    ghost var message: seq<Byte>

    ghost function Whole(): nat
      requires tailLen <= |message|
      reads this
    {
      |message| - tailLen
    }

    /** Of what was fed, whole blocks are in the chain and the rest is in the tail. */
    ghost predicate Sound()
      reads this, tail
    {
      && tail.Length == BLOCK && tailLen < BLOCK && tailLen <= |message|
      && Whole() % BLOCK == 0 && tail[..tailLen] == message[Whole()..]
      && chain == Fold(block, INIT, message[..Whole()])
    }

    ghost predicate Valid()
      reads this, tail
    {
      Sound() && totalN == |message| % WORD64
    }

    constructor (block: Compress)
      ensures Valid() && fresh(tail) && message == [] && this.block == block
    {
      this.block := block;
      chain, totalN, tailLen, message := INIT, 0, 0, [];
      tail := new Byte[BLOCK];
    }

    /** Copies bytes into the tail buffer. */
    method Keep(data: seq<Byte>)
      requires tail.Length == BLOCK && tailLen + |data| <= BLOCK
      modifies tail
      ensures tail[..tailLen] == old(tail[..tailLen]) && tail[tailLen..tailLen + |data|] == data
    {
      for i := 0 to |data|
        invariant tail[..tailLen] == old(tail[..tailLen]) && tail[tailLen..tailLen + i] == data[..i]
      {
        tail[tailLen + i] := data[i];
        assert tail[tailLen..tailLen + i + 1] == tail[tailLen..tailLen + i] + [data[i]];
      }
    }

    /** Makes the tail up to a whole block. */
    method FillTail(data: seq<Byte>)
      requires Sound() && |data| == BLOCK - tailLen
      modifies this`chain, this`tailLen, this`message, tail
      ensures Sound() && tailLen == 0 && message == old(message) + data
    {
      ghost var head, last := message[..Whole()], message[Whole()..];
      assert message == head + last;
      Keep(data);
      assert tail[..] == tail[..tailLen] + tail[tailLen..tailLen + |data|];
      FoldBlock(block, INIT, head, tail[..]);
      assert message + data == head + tail[..];
      chain := block(chain, tail[..]);
      tailLen := 0;
      message := message + data;
      assert message[..|message|] == message;
    }

    method TakeBlock(data: seq<Byte>)
      requires Sound() && tailLen == 0 && |data| == BLOCK
      modifies this`chain, this`message
      ensures Sound() && message == old(message) + data
    {
      assert message[..Whole()] == message;
      FoldBlock(block, INIT, message, data);
      chain := block(chain, data);
      message := message + data;
      assert message[..Whole()] == message;
    }

    method KeepRest(data: seq<Byte>)
      requires Sound() && tailLen + |data| < BLOCK
      modifies this`tailLen, this`message, tail
      ensures Sound() && message == old(message) + data
    {
      ghost var head, last := message[..Whole()], message[Whole()..];
      assert message == head + last;
      Keep(data);
      assert tail[..tailLen + |data|] == tail[..tailLen] + tail[tailLen..tailLen + |data|];
      tailLen := tailLen + |data|;
      message := message + data;
      assert message == head + (last + data);
    }

    /** Fills the tail, takes whole blocks, and keeps the rest. */
    method Absorb(data: seq<Byte>)
      requires Sound()
      modifies this`chain, this`tailLen, this`message, tail
      ensures Sound() && message == old(message) + data
    {
      var i, n := 0, |data|;
      ghost var was := message;
      assert message == was + data[..0];
      if tailLen > 0 {
        var gap := BLOCK - tailLen;
        if gap <= n {
          FillTail(data[..gap]);
          i, n := gap, n - gap;
        }
      }
      while n >= BLOCK
        invariant 0 <= i <= |data| && i + n == |data| && Sound() && message == was + data[..i]
        invariant n >= BLOCK - tailLen ==> tailLen == 0
      {
        TakeBlock(data[i..i + BLOCK]);
        assert was + data[..i + BLOCK] == was + data[..i] + data[i..i + BLOCK];
        i, n := i + BLOCK, n - BLOCK;
      }
      assert was + data == was + data[..i] + data[i..];
      if n > 0 {
        KeepRest(data[i..]);
      }
    }

    /** rs_mdfour_update. */
    method Update(data: seq<Byte>)
      requires Valid()
      modifies this, tail
      ensures Valid() && message == old(message) + data
    {
      AddMod(|message|, |data|);
      totalN := (totalN + |data|) % WORD64;
      Absorb(data);
    }

    /** rs_mdfour_tail: pads what was fed. */
    method Finish()
      requires Valid()
      modifies this, tail
      ensures Valid() && message == Padded(old(message)) && tailLen == 0
    {
      var buf := CountBytes();
      var padLen := if tailLen < 56 then 56 - tailLen else 120 - tailLen;
      PadLength(|message|, tailLen, padLen);
      PaddedParts(message);
      Pad(padLen, buf);
    }

    /** The low 64 bits of the bit length of what was fed. */
    method CountBytes() returns (buf: seq<Byte>)
      requires Valid()
      ensures buf == LittleEndian(8 * |message| % WORD64, 8)
    {
      BitCount(|message|);
      buf := LittleEndian(totalN * 8 % WORD64, 8);
    }

    /** Feeds the padding and then the count. */
    method Pad(padLen: nat, buf: seq<Byte>)
      requires Valid() && padLen > 0 && message + ([0x80] + Zeros(padLen - 1)) + buf == Padded(message)
      modifies this, tail
      ensures Valid() && message == Padded(old(message)) && tailLen == 0
    {
      PaddedWhole(message);
      Update([0x80] + Zeros(padLen - 1));
      Update(buf);
      WholeBlocks(|message|, tailLen);
    }

    /** rs_mdfour_result. */
    method Result() returns (out: seq<Byte>)
      requires Valid()
      modifies this, tail
      ensures out == Md4(block, old(message))
    {
      Finish();
      assert message[..|message|] == message;
      out := LittleEndian(chain.a, 4) + LittleEndian(chain.b, 4) + LittleEndian(chain.c, 4) + LittleEndian(chain.d, 4);
    }
  }

  lemma AddMod(a: nat, n: nat)
    ensures (a % WORD64 + n) % WORD64 == (a + n) % WORD64
  {
    var q := a / WORD64;
    assert a + n == (a % WORD64 + n) + WORD64 * q;
    ModUnique(a + n, WORD64, (a % WORD64 + n) / WORD64 + q, (a % WORD64 + n) % WORD64);
  }

  lemma FoldBlock(f: Compress, c: Chain, m: seq<Byte>, b: seq<Byte>)
    requires |m| % BLOCK == 0 && |b| == BLOCK
    ensures Fold(f, c, m + b) == f(Fold(f, c, m), b)
  {
    FoldConcat(f, c, m, b);
    assert b[..BLOCK] == b && Fold(f, f(Fold(f, c, m), b), b[BLOCK..]) == f(Fold(f, c, m), b);
  }

  /** The padding of the last block is as long as ZeroCount says, and one more. */
  lemma PadLength(n: nat, tailLen: nat, padLen: nat)
    requires tailLen < BLOCK && tailLen <= n && (n - tailLen) % BLOCK == 0
    requires padLen == if tailLen < 56 then 56 - tailLen else 120 - tailLen
    ensures padLen == ZeroCount(n) + 1
  {
    assert n % BLOCK == tailLen;
  }

  lemma PaddedParts(m: seq<Byte>)
    ensures m + ([0x80] + Zeros(ZeroCount(|m|))) + LittleEndian(8 * |m| % WORD64, 8) == Padded(m)
  {
    var zeros := Zeros(ZeroCount(|m|));
    assert m + ([0x80] + zeros) == m + [0x80] + zeros;
  }

  lemma WholeBlocks(n: nat, tailLen: nat)
    requires n % BLOCK == 0 && tailLen < BLOCK && tailLen <= n && (n - tailLen) % BLOCK == 0
    ensures tailLen == 0
  {
  }

  lemma BitCount(n: nat)
    ensures (n % WORD64) * 8 % WORD64 == 8 * n % WORD64
  {
    var q := n / WORD64;
    assert 8 * n == 8 * (n % WORD64) + WORD64 * (8 * q);
    ModUnique(8 * n, WORD64, 8 * (n % WORD64) / WORD64 + 8 * q, 8 * (n % WORD64) % WORD64);
  }

  function Concat(chunks: seq<seq<Byte>>): seq<Byte> {
    if chunks == [] then [] else Concat(chunks[..|chunks| - 1]) + chunks[|chunks| - 1]
  }

  /** However the message is cut up, the result is the MD4 of the whole. */
  method SumChunks(block: Compress, chunks: seq<seq<Byte>>) returns (out: seq<Byte>)
    ensures out == Md4(block, Concat(chunks))
  {
    var md := new Accumulator(block);
    for i := 0 to |chunks|
      invariant md.Valid() && md.block == block && md.message == Concat(chunks[..i]) && fresh(md) && fresh(md.tail)
    {
      assert chunks[..i + 1][..i] == chunks[..i];
      md.Update(chunks[i]);
    }
    assert chunks[..|chunks|] == chunks;
    out := md.Result();
  }
}
