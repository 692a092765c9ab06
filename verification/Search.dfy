/** The signature in memory and its lookup table (sumset.h, search.c). */
module Search {
  import opened Codec
  import opened Wrappers
  import Rollsum

  /** The full strong checksum of a block; MD4 in librsync. */
  type Strong = seq<Byte> -> seq<Byte>

  const MD4_LENGTH: nat := 16
  const TABLE_SIZE: nat := 0x1_0000
  const NULL_TAG: int := -1

  /** Blocks are numbered from 1; strong holds the truncated sum. */
  datatype BlockSig = BlockSig(index: nat, weak: int, strong: seq<Byte>)

  datatype Signature = Signature(blockLen: nat, strongLen: nat, blocks: seq<BlockSig>)

  predicate ValidSignature(sig: Signature) {
    && sig.blockLen >= 1
    && sig.strongLen <= MD4_LENGTH
    && forall i :: 0 <= i < |sig.blocks| ==>
      && sig.blocks[i].index == i + 1
      && 0 <= sig.blocks[i].weak < Rollsum.WORD
      && |sig.blocks[i].strong| == sig.strongLen
  }

  datatype Target = Target(tag: nat, block: nat)

  function Tag(weak: int): (t: nat)
    requires 0 <= weak < Rollsum.WORD
    ensures t < TABLE_SIZE
  {
    (weak % 0x1_0000 + weak / 0x1_0000) % 0x1_0000
  }

  /** The tag of a window is the sum of both its sums, modulo 2^16. */
  lemma TagOfWindow(w: seq<Byte>, weak: int)
    requires weak == Rollsum.WeakSum(w) && 0 <= weak < Rollsum.WORD
    ensures Tag(weak) == (Rollsum.Total(Rollsum.Terms1(w)) + Rollsum.Total(Rollsum.Terms2(w))) % 0x1_0000
  {
    Rollsum.WeakSumByIndex(w);
    Rollsum.ModAddBoth(Rollsum.Total(Rollsum.Terms1(w)), Rollsum.Total(Rollsum.Terms2(w)), 0x1_0000);
  }

  function Unsorted(sig: Signature): seq<Target>
    requires ValidSignature(sig)
  {
    seq(|sig.blocks|, i requires 0 <= i < |sig.blocks| => Target(Tag(sig.blocks[i].weak), i))
  }

  ghost predicate SortedByTag(ts: seq<Target>) {
    forall i, j :: 0 <= i < j < |ts| ==> ts[i].tag <= ts[j].tag
  }

  /** What any qsort leaves, stable or not. */
  ghost predicate Sorts(sorted: seq<Target>, ts: seq<Target>) {
    multiset(sorted) == multiset(ts) && SortedByTag(sorted)
  }

  ghost predicate ValidTargets(sig: Signature, targets: seq<Target>) {
    ValidSignature(sig) && Sorts(targets, Unsorted(sig))
  }

  ghost predicate Names(targets: seq<Target>, j: nat, i: nat) {
    j < |targets| && targets[j].block == i
  }

  ghost predicate Named(targets: seq<Target>, i: nat) {
    exists j :: Names(targets, j, i)
  }

  lemma TargetsAreBlocks(sig: Signature, targets: seq<Target>)
    requires ValidTargets(sig, targets)
    ensures |targets| == |sig.blocks|
    ensures forall j :: 0 <= j < |targets| ==>
      targets[j].block < |sig.blocks| && targets[j].tag == Tag(sig.blocks[targets[j].block].weak)
    ensures forall i: nat :: i < |sig.blocks| ==> Named(targets, i)
  {
    var us := Unsorted(sig);
    assert |multiset(targets)| == |multiset(us)|;
    forall j | 0 <= j < |targets|
      ensures targets[j].block < |sig.blocks| && targets[j].tag == Tag(sig.blocks[targets[j].block].weak)
    {
      assert targets[j] in multiset(us);
    }
    forall i: nat | i < |sig.blocks| ensures Named(targets, i) {
      assert us[i] in multiset(targets);
      var j :| 0 <= j < |targets| && targets[j] == us[i];
      assert Names(targets, j, i);
    }
  }

  ghost predicate Agrees(b: BlockSig, weak: int, strong: seq<Byte>) {
    b.weak == weak && b.strong == strong
  }

  /** The linear scan: the first target, in table order, whose block has both sums. */
  ghost function FirstHit(sig: Signature, targets: seq<Target>, weak: int, strong: seq<Byte>,
                          from: nat): (r: Option<nat>)
    requires from <= |targets| && forall j :: 0 <= j < |targets| ==> targets[j].block < |sig.blocks|
    ensures r.Some? ==> r.value < |sig.blocks| && Agrees(sig.blocks[r.value], weak, strong)
    ensures r.None? ==> forall j :: from <= j < |targets| ==> !Agrees(sig.blocks[targets[j].block], weak, strong)
    decreases |targets| - from
  {
    if from == |targets| then None
    else if Agrees(sig.blocks[targets[from].block], weak, strong) then Some(targets[from].block)
    else FirstHit(sig, targets, weak, strong, from + 1)
  }

  /** A loaded signature with its sorted targets and the strong sum in use. */
  datatype Matcher = Matcher(sig: Signature, targets: seq<Target>, strong: Strong) {
    ghost predicate Valid() {
      && ValidTargets(sig, targets)
      && forall w :: |strong(w)| == MD4_LENGTH
    }

    ghost function Truncated(w: seq<Byte>): seq<Byte>
      requires Valid()
    {
      strong(w)[..sig.strongLen]
    }

    ghost function Hit(w: seq<Byte>): (r: Option<nat>)
      requires Valid()
      ensures r.Some? ==> r.value < |sig.blocks| && Agrees(sig.blocks[r.value], Rollsum.WeakSum(w), Truncated(w))
    {
      TargetsAreBlocks(sig, targets);
      FirstHit(sig, targets, Rollsum.WeakSum(w), Truncated(w), 0)
    }

    /** The basis offset a window is matched at. */
    ghost function Lookup(w: seq<Byte>): Option<nat> {
      if !Valid() then None
      else
        var h := Hit(w);
        if h.None? then None else Some((sig.blocks[h.value].index - 1) * sig.blockLen)
    }
  }

  /** A window matches if and only if some block has both its sums, however the
    * sort ordered equal tags, and the offset found is such a block's.
    */
  lemma LookupExact(m: Matcher, w: seq<Byte>)
    requires m.Valid()
    ensures m.Lookup(w).Some? <==>
      exists i :: 0 <= i < |m.sig.blocks| && Agrees(m.sig.blocks[i], Rollsum.WeakSum(w), m.Truncated(w))
    ensures m.Lookup(w).Some? ==>
      exists i :: 0 <= i < |m.sig.blocks| && Agrees(m.sig.blocks[i], Rollsum.WeakSum(w), m.Truncated(w))
        && m.Lookup(w).value == i * m.sig.blockLen
  {
    TargetsAreBlocks(m.sig, m.targets);
    if i :| 0 <= i < |m.sig.blocks| && Agrees(m.sig.blocks[i], Rollsum.WeakSum(w), m.Truncated(w)) {
      assert Named(m.targets, i);
      var j :| Names(m.targets, j, i);
    }
  }

  ghost predicate FirstIndex(targets: seq<Target>, tag: int, v: int) {
    if v == NULL_TAG then forall j :: 0 <= j < |targets| ==> targets[j].tag != tag
    else 0 <= v < |targets| && targets[v].tag == tag && forall j :: 0 <= j < v ==> targets[j].tag != tag
  }

  /** No block with this weak sum among targets of other tags. */
  lemma OtherTagsMiss(m: Matcher, weak: int, strong: seq<Byte>, from: nat, to: nat)
    requires m.Valid() && 0 <= weak < Rollsum.WORD && from <= to <= |m.targets|
    requires forall j :: from <= j < to ==> m.targets[j].tag != Tag(weak)
    requires forall j :: 0 <= j < |m.targets| ==> m.targets[j].block < |m.sig.blocks|
    ensures FirstHit(m.sig, m.targets, weak, strong, from) == FirstHit(m.sig, m.targets, weak, strong, to)
    decreases |m.targets| - from
  {
    TargetsAreBlocks(m.sig, m.targets);
    if from < to {
      OtherTagsMiss(m, weak, strong, from + 1, to);
    }
  }

  class HashTable {
    const m: Matcher
    const tagTable: array<int>

    ghost predicate Valid()
      reads tagTable
    {
      && m.Valid()
      && tagTable.Length == TABLE_SIZE
      && forall t :: 0 <= t < TABLE_SIZE ==> FirstIndex(m.targets, t, tagTable[t])
    }

    /** rs_build_hash_table, given the order qsort left the targets in. */
    constructor (m: Matcher)
      requires m.Valid()
      ensures Valid() && this.m == m && fresh(tagTable)
    {
      var table := new int[TABLE_SIZE];
      for i := 0 to TABLE_SIZE
        invariant forall t :: 0 <= t < i ==> table[t] == NULL_TAG
      {
        table[i] := NULL_TAG;
      }
      TargetsAreBlocks(m.sig, m.targets);
      for i := |m.targets| downto 0
        invariant forall t :: 0 <= t < TABLE_SIZE ==>
          if table[t] == NULL_TAG then forall j :: i <= j < |m.targets| ==> m.targets[j].tag != t
          else i <= table[t] < |m.targets| && m.targets[table[t]].tag == t &&
               forall j :: i <= j < table[t] ==> m.targets[j].tag != t
      {
        assert m.targets[i].tag < TABLE_SIZE;
        table[m.targets[i].tag] := i;
      }
      this.m := m;
      tagTable := table;
    }

    method SearchForBlock(weak: int, inbuf: seq<Byte>) returns (where: Option<nat>)
      requires Valid() && weak == Rollsum.WeakSum(inbuf)
      ensures where == m.Lookup(inbuf)
    {
      Rollsum.DigestRange(Rollsum.Sum1(inbuf), Rollsum.Sum2(inbuf));
      TargetsAreBlocks(m.sig, m.targets);
      var truncated := m.strong(inbuf)[..m.sig.strongLen];
      var tag := Tag(weak);
      var j := tagTable[tag];
      if j == NULL_TAG {
        OtherTagsMiss(m, weak, truncated, 0, |m.targets|);
        return None;
      }
      OtherTagsMiss(m, weak, truncated, 0, j);
      while j < |m.targets| && m.targets[j].tag == tag
        invariant 0 <= j <= |m.targets|
        invariant FirstHit(m.sig, m.targets, weak, truncated, 0) == FirstHit(m.sig, m.targets, weak, truncated, j)
        invariant forall k :: j <= k < |m.targets| ==> tag <= m.targets[k].tag
      {
        var b := m.sig.blocks[m.targets[j].block];
        if weak == b.weak && truncated == b.strong {
          Rollsum.ProductNonNegative(b.index - 1, m.sig.blockLen);
          return Some((b.index - 1) * m.sig.blockLen);
        }
        j := j + 1;
      }
      OtherTagsMiss(m, weak, truncated, j, |m.targets|);
      return None;
    }
  }
}
