/** The files byte by byte: where a signature holds what, and how a delta begins and ends.
  */
module Formats {
  import opened Codec
  import opened PatchSpec
  import opened Search
  import opened DeltaSpec
  import opened SigSpec
  import Rollsum

  /** Integers in files are big-endian: the first byte counts most. */
  lemma {:induction false} FirstCountsMost(b: Byte, s: seq<Byte>)
    ensures Unsigned([b] + s) == b * Pow256(|s|) + Unsigned(s)
  {
    var t := [b] + s;
    if s == [] {
      assert t[..0] == [];
    } else {
      var front := s[..|s| - 1];
      assert t[..|t| - 1] == [b] + front;
      FirstCountsMost(b, front);
      TimesMore(b, Pow256(|front|), Unsigned(front), 256, s[|s| - 1]);
    }
  }

  lemma TimesMore(b: int, p: int, u: int, m: int, last: int)
    ensures (b * p + u) * m + last == b * (m * p) + (u * m + last)
  {
  }

  lemma Unsigned4(a: Byte, b: Byte, c: Byte, d: Byte)
    ensures Unsigned([a, b, c, d]) == a * 0x100_0000 + b * 0x1_0000 + c * 0x100 + d
  {
    assert [a, b, c, d] == [a] + [b, c, d] && [b, c, d] == [b] + [c, d] && [c, d] == [c] + [d];
    Pow256Values();
    FirstCountsMost(a, [b, c, d]);
    FirstCountsMost(b, [c, d]);
    FirstCountsMost(c, [d]);
  }

  // ---------- signatures ----------

  ghost function EntrySize(r: Recipe): Pos {
    4 + r.strongLen
  }

  lemma SumSize(r: Recipe, w: seq<Byte>)
    requires Sane(r)
    ensures |BlockBytes(r, w)| == EntrySize(r)
    ensures Unsigned(BlockBytes(r, w)[..4]) == Rollsum.WeakSum(w)
    ensures BlockBytes(r, w)[4..] == r.strong(w)[..r.strongLen]
  {
    BlockBytesUnfold(r, w);
    SliceConcat(NetInt(ToInt32(Rollsum.WeakSum(w)), 4), r.strong(w)[..r.strongLen]);
    Rollsum.DigestRange(Rollsum.Sum1(w), Rollsum.Sum2(w));
    WeakReadBack(Rollsum.WeakSum(w));
  }

  lemma WeakReadBack(weak: int)
    requires 0 <= weak < 0x1_0000_0000
    ensures Unsigned(NetInt(ToInt32(weak), 4)) == weak
  {
    NetIntInverse(ToInt32(weak), 4);
    Pow256Values();
    ConversionsFit(weak);
  }

  /** The entries follow each other, in the order of the blocks. */
  lemma {:induction false} EntryAt(r: Recipe, f: seq<Byte>, p: nat, i: nat)
    requires Sane(r) && p + Offset(r.blockLen, i) < |f|
    ensures var at := Offset(EntrySize(r), i);
      && at + EntrySize(r) <= |BlocksFrom(r, f, p)|
      && BlocksFrom(r, f, p)[at..at + EntrySize(r)] == BlockBytes(r, Window(f, r.blockLen, p + Offset(r.blockLen, i)))
    decreases i
  {
    var w := Window(f, r.blockLen, p);
    var rest := BlocksFrom(r, f, p + |w|);
    SumSize(r, w);
    assert BlocksFrom(r, f, p) == BlockBytes(r, w) + rest;
    if i > 0 {
      EntryAt(r, f, p + r.blockLen, i - 1);
      Later(BlockBytes(r, w), rest, Offset(EntrySize(r), i - 1), EntrySize(r));
    }
  }

  lemma Later(a: seq<Byte>, b: seq<Byte>, at: nat, n: nat)
    requires at + n <= |b|
    ensures (a + b)[|a| + at..|a| + at + n] == b[at..at + n]
  {
  }

  lemma {:induction false} EntriesFill(r: Recipe, f: seq<Byte>, p: nat, index: nat)
    requires Sane(r) && p <= |f|
    ensures |BlocksFrom(r, f, p)| == Offset(EntrySize(r), |SumsFrom(r, f, p, index)|)
    decreases |f| - p
  {
    if p < |f| {
      var w := Window(f, r.blockLen, p);
      SumSize(r, w);
      SumsStep(r, f, p, index);
      EntriesFill(r, f, p + |w|, index + 1);
    }
  }

  /** A signature file begins with the magic number, the block length and the length of the
    * strong sums, and has an entry for each block.
    */
  lemma SignatureLayout(r: Recipe, f: seq<Byte>)
    requires Sane(r)
    ensures var s := SigBytes(r, f);
      && |s| == 12 + CeilDiv(|f|, r.blockLen) * (4 + r.strongLen)
      && s[..4] == [0x72, 0x73, 0x01, 0x36]
      && Unsigned(s[4..8]) == r.blockLen && Unsigned(s[8..12]) == r.strongLen
  {
    HeaderLayout(r, BlocksFrom(r, f, 0));
    EntriesFill(r, f, 0, 1);
    SignatureEntries(r, f);
    OffsetIs(EntrySize(r), CeilDiv(|f|, r.blockLen));
  }

  /** At at, a file holds these two sums. */
  ghost predicate EntryHolds(s: seq<Byte>, at: nat, weak: int, strong: seq<Byte>) {
    && at + 4 + |strong| <= |s|
    && Unsigned(s[at..at + 4]) == weak && s[at + 4..at + 4 + |strong|] == strong
  }

  ghost predicate HoldsIs(ok: bool, s: seq<Byte>, at: nat, r: Recipe, w: seq<Byte>)
    requires Sane(r)
  {
    forall k {:trigger Open(k)} :: Open(k) ==>
      ok == EntryHolds(s, at, Rollsum.WeakSum(w), r.strong(w)[..r.strongLen])
  }

  /** At at, a file holds the sums of w; folded until HoldsUnfold opens it. */
  ghost predicate Holds(s: seq<Byte>, at: nat, r: Recipe, w: seq<Byte>)
    requires Sane(r)
  {
    assert HoldsIs(EntryHolds(s, at, Rollsum.WeakSum(w), r.strong(w)[..r.strongLen]), s, at, r, w);
    var ok :| HoldsIs(ok, s, at, r, w);
    ok
  }

  lemma HoldsUnfold(s: seq<Byte>, at: nat, r: Recipe, w: seq<Byte>)
    requires Sane(r)
    ensures Holds(s, at, r, w) == EntryHolds(s, at, Rollsum.WeakSum(w), r.strong(w)[..r.strongLen])
  {
    assert Open(0);
  }

  lemma EntryHeld(header: seq<Byte>, blocks: seq<Byte>, at: nat, r: Recipe, w: seq<Byte>)
    requires Sane(r) && |header| == 12 && at + EntrySize(r) <= |blocks|
    requires blocks[at..at + EntrySize(r)] == BlockBytes(r, w)
    ensures Holds(header + blocks, 12 + at, r, w)
  {
    SumSize(r, w);
    HoldsUnfold(header + blocks, 12 + at, r, w);
    EntryLayout(header, blocks, at, BlockBytes(r, w), Rollsum.WeakSum(w));
  }

  /** Entry i holds the weak sum of block i and the first bytes of its strong sum. */
  lemma SignatureEntryLayout(r: Recipe, f: seq<Byte>, i: nat, start: nat, w: seq<Byte>, at: nat)
    requires Sane(r) && start == i * r.blockLen && start < |f| && w == Window(f, r.blockLen, start)
    requires at == 12 + i * (4 + r.strongLen)
    ensures EntryHolds(SigBytes(r, f), at, Rollsum.WeakSum(w), r.strong(w)[..r.strongLen])
  {
    OffsetIs(r.blockLen, i);
    OffsetIs(EntrySize(r), i);
    EntryFound(r, f, i, w);
    HoldsUnfold(SigBytes(r, f), at, r, w);
  }

  lemma EntryFound(r: Recipe, f: seq<Byte>, i: nat, w: seq<Byte>)
    requires Sane(r) && Offset(r.blockLen, i) < |f| && w == Window(f, r.blockLen, Offset(r.blockLen, i))
    ensures Holds(SigBytes(r, f), 12 + Offset(EntrySize(r), i), r, w)
  {
    EntryAt(r, f, 0, i);
    EntryHeld(SigHeader(r), BlocksFrom(r, f, 0), Offset(EntrySize(r), i), r, w);
  }

  lemma HeaderLayout(r: Recipe, blocks: seq<Byte>)
    requires Sane(r)
    ensures var s := SigHeader(r) + blocks;
      && |s| == 12 + |blocks| && s[..4] == [0x72, 0x73, 0x01, 0x36]
      && Unsigned(s[4..8]) == r.blockLen && Unsigned(s[8..12]) == r.strongLen
  {
    ThreeFours(NetInt(SIG_MAGIC, 4), NetInt(r.blockLen, 4), NetInt(r.strongLen, 4), blocks);
    MagicBytes();
    Pow256Values();
    ReadBack(r.blockLen, 4);
    ReadBack(r.strongLen, 4);
  }

  lemma ThreeFours(a: seq<Byte>, b: seq<Byte>, c: seq<Byte>, d: seq<Byte>)
    requires |a| == |b| == |c| == 4
    ensures var s := a + b + c + d;
      |s| == 12 + |d| && s[..4] == a && s[4..8] == b && s[8..12] == c
  {
  }

  lemma EntryLayout(header: seq<Byte>, blocks: seq<Byte>, at: nat, entry: seq<Byte>, weak: int)
    requires |header| == 12 && |entry| >= 4 && at + |entry| <= |blocks| && blocks[at..at + |entry|] == entry
    requires Unsigned(entry[..4]) == weak
    ensures EntryHolds(header + blocks, 12 + at, weak, entry[4..])
  {
    var s := header + blocks;
    assert s[12 + at..12 + at + |entry|] == entry;
    assert s[12 + at..12 + at + 4] == entry[..4];
    assert s[12 + at + 4..12 + at + |entry|] == entry[4..];
  }

  lemma MagicBytes()
    ensures NetInt(SIG_MAGIC, 4) == [0x72, 0x73, 0x01, 0x36]
    ensures NetInt(DELTA_MAGIC, 4) == [0x72, 0x73, 0x02, 0x36]
  {
    assert NetInt(0x72, 1) == [0x72];
    assert NetInt(0x7273, 2) == [0x72, 0x73];
    assert NetInt(0x727301, 3) == [0x72, 0x73, 0x01];
    assert NetInt(0x727302, 3) == [0x72, 0x73, 0x02];
  }

  // ---------- deltas ----------

  /** A delta begins with its magic number and ends with the zero byte. */
  lemma DeltaEnds(plan: Plan, f: seq<Byte>)
    requires Fits(plan, f)
    ensures var s := DeltaBytes(plan, f);
      |s| >= 5 && s[..4] == [0x72, 0x73, 0x02, 0x36] && s[|s| - 1] == 0
  {
    MagicBytes();
  }

  /** A command byte by byte: a literal is its byte, the length at the smallest width and the
    * data; a copy is its byte, the position and then the length, each at its smallest width.
    */
  lemma LiteralLayout(data: seq<Byte>, n: nat)
    requires |data| < MAX_INT && Smallest(n, |data|)
    ensures var s := Encode(LiteralCmd(data));
      |s| == 1 + n + |data| && s[0] == 0x41 + WidthIndex(n) && Unsigned(s[1..1 + n]) == |data| && s[1 + n..] == data
  {
    SmallestIs(n, |data|);
    ReadBack(|data|, n);
    ReadParts(Encode(LiteralCmd(data)), 0x41 + WidthIndex(n), NetInt(|data|, n), data, |data|);
  }

  lemma CopyLayout(pos: nat, len: nat, n: nat, k: nat)
    requires pos < MAX_LONG && len < MAX_LONG && Smallest(n, pos) && Smallest(k, len)
    ensures var s := Encode(CopyCmd(pos, len));
      && |s| == 1 + n + k && s[0] == 0x45 + 4 * WidthIndex(n) + WidthIndex(k)
      && Unsigned(s[1..1 + n]) == pos && Unsigned(s[1 + n..]) == len
  {
    SmallestIs(n, pos);
    SmallestIs(k, len);
    ReadBack(pos, n);
    ReadBack(len, k);
    ReadParts(Encode(CopyCmd(pos, len)), 0x45 + 4 * WidthIndex(n) + WidthIndex(k), NetInt(pos, n), NetInt(len, k), pos);
  }

  lemma ReadParts(s: seq<Byte>, op: Byte, a: seq<Byte>, b: seq<Byte>, x: nat)
    requires s == [op] + a + b && Unsigned(a) == x
    ensures |s| == 1 + |a| + |b| && s[0] == op && Unsigned(s[1..1 + |a|]) == x && s[1 + |a|..] == b
  {
    assert s[1..1 + |a|] == a && s[1 + |a|..] == b;
  }

  lemma WidthsInOrder()
    ensures WidthIndex(1) == 0 && WidthIndex(2) == 1 && WidthIndex(4) == 2 && WidthIndex(8) == 3
  {
  }

  /** Of the widths 1, 2, 4 and 8, n is the smallest that holds v. */
  ghost predicate Smallest(n: nat, v: nat) {
    0 < n <= 8 && n in {1, 2, 4, 8} && v < Pow256(n) && forall k :: k in {1, 2, 4, 8} && v < Pow256(k) ==> n <= k
  }

  lemma SmallestIs(n: nat, v: nat)
    requires v < MAX_LONG && Smallest(n, v)
    ensures IntLen(v) == n
  {
    IntLenSmallest(v, n);
    IntLenSmallest(v, IntLen(v));
  }

  lemma ReadBack(v: nat, n: nat)
    requires v < Pow256(n)
    ensures Unsigned(NetInt(v, n)) == v
  {
    NetIntInverse(v, n);
    ModUnique(v, Pow256(n), 0, v);
  }
}
