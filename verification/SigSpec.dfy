/** Signature files: what the signature job writes (mksum.c), what loading any
  * stream gives (readsums.c), and that loading undoes writing.
  */
module SigSpec {
  import opened Codec
  import opened PatchSpec
  import opened Search
  import opened DeltaSpec
  import Rollsum

  /** How a signature is made: block length, truncation and strong sum. */
  datatype Recipe = Recipe(blockLen: Pos, strongLen: nat, strong: Strong)

  ghost predicate Sane(r: Recipe) {
    r.blockLen < MAX_INT && 0 < r.strongLen <= MD4_LENGTH && forall w :: |r.strong(w)| == MD4_LENGTH
  }

  /** The sums of one block; the unsigned weak sum passes through a C int. */
  ghost function SumBytes(r: Recipe, w: seq<Byte>): seq<Byte>
    requires Sane(r)
  {
    NetInt(ToInt32(Rollsum.WeakSum(w)), 4) + r.strong(w)[..r.strongLen]
  }

  ghost predicate BytesAre(b: seq<Byte>, r: Recipe, w: seq<Byte>)
    requires Sane(r)
  {
    forall k {:trigger Open(k)} :: Open(k) ==> b == SumBytes(r, w)
  }

  /** SumBytes, folded until BlockBytesUnfold opens it. */
  ghost function BlockBytes(r: Recipe, w: seq<Byte>): seq<Byte>
    requires Sane(r)
  {
    assert BytesAre(SumBytes(r, w), r, w);
    var b :| BytesAre(b, r, w);
    b
  }

  lemma BlockBytesUnfold(r: Recipe, w: seq<Byte>)
    requires Sane(r)
    ensures BlockBytes(r, w) == SumBytes(r, w)
  {
    assert Open(0);
  }

  /** The sums of the blocks of f from offset p on; only the last may be short. */
  ghost function BlocksFrom(r: Recipe, f: seq<Byte>, p: nat): seq<Byte>
    requires Sane(r) && p <= |f|
    decreases |f| - p
  {
    if p == |f| then []
    else
      var w := Window(f, r.blockLen, p);
      BlockBytes(r, w) + BlocksFrom(r, f, p + |w|)
  }

  ghost function SigHeader(r: Recipe): seq<Byte> {
    NetInt(SIG_MAGIC, 4) + NetInt(r.blockLen, 4) + NetInt(r.strongLen, 4)
  }

  ghost function SigBytes(r: Recipe, f: seq<Byte>): seq<Byte>
    requires Sane(r)
  {
    SigHeader(r) + BlocksFrom(r, f, 0)
  }

  ghost function SumsOf(r: Recipe, w: seq<Byte>, index: nat): BlockSig
    requires Sane(r)
  {
    BlockSig(index, Rollsum.WeakSum(w), r.strong(w)[..r.strongLen])
  }

  ghost function SumsFrom(r: Recipe, f: seq<Byte>, p: nat, index: nat): seq<BlockSig>
    requires Sane(r) && p <= |f|
    decreases |f| - p
  {
    if p == |f| then []
    else
      var w := Window(f, r.blockLen, p);
      [SumsOf(r, w, index)] + SumsFrom(r, f, p + |w|, index + 1)
  }

  ghost function SignatureOf(r: Recipe, f: seq<Byte>): Signature
    requires Sane(r)
  {
    Signature(r.blockLen, r.strongLen, SumsFrom(r, f, 0, 1))
  }

  // ---------- loading ----------

  datatype LoadStage =
    | AtMagic
    | AtBlockLen
    | AtStrongLen(blockLen: nat)
    | AtWeak(sig: Signature)
    | AtStrong(sig: Signature, weak: int)

  /** The signature loaded and how loading ends; Blocked means never. */
  datatype Loaded = Loaded(sig: Signature, result: Result)

  const NO_SIGNATURE := Signature(0, 0, [])

  ghost function Fails(r: Result): Loaded { Loaded(NO_SIGNATURE, r) }

  /** A read of n bytes at offset at of a stream that does not hold them. */
  function ShortRead(s: seq<Byte>, at: nat): Result {
    if at >= |s| then InputEnded else Blocked
  }

  /** A four-byte read into a C int. */
  function Int4(s: seq<Byte>, at: nat): int
    requires at + 4 <= |s|
  {
    ToInt32(Param(s[at..at + 4]))
  }

  function AddSum(sig: Signature, weak: int, strong: seq<Byte>): Signature {
    sig.(blocks := sig.blocks + [BlockSig(|sig.blocks| + 1, weak, strong)])
  }

  ghost function LoadFrom(s: seq<Byte>, at: nat, stage: LoadStage): Loaded
    requires at <= |s|
    decreases |s| - at, if stage.AtWeak? then 0 else 1
  {
    match stage
    case AtMagic =>
      if at + 4 > |s| then Fails(ShortRead(s, at))
      else if Int4(s, at) != SIG_MAGIC then Fails(BadMagic)
      else LoadFrom(s, at + 4, AtBlockLen)
    case AtBlockLen =>
      if at + 4 > |s| then Fails(ShortRead(s, at))
      else if Int4(s, at) < 1 then Fails(Corrupt)
      else LoadFrom(s, at + 4, AtStrongLen(Int4(s, at)))
    case AtStrongLen(blockLen) =>
      if at + 4 > |s| then Fails(ShortRead(s, at))
      else if Int4(s, at) < 0 || Int4(s, at) > MD4_LENGTH then Fails(Corrupt)
      else LoadFrom(s, at + 4, AtWeak(Signature(blockLen, Int4(s, at), [])))
    case AtWeak(sig) =>
      if at == |s| then Loaded(sig, Done)
      else if at + 4 > |s| then Fails(Blocked)
      else LoadFrom(s, at + 4, AtStrong(sig, Int4(s, at) % Rollsum.WORD))
    case AtStrong(sig, weak) =>
      if at + sig.strongLen > |s| then Fails(ShortRead(s, at))
      else LoadFrom(s, at + sig.strongLen, AtWeak(AddSum(sig, weak, s[at..at + sig.strongLen])))
  }

  /** The quantifier only keeps LoadFrom folded until LoadUnfold opens it. */
  ghost predicate LoadIs(o: Loaded, s: seq<Byte>, at: nat, stage: LoadStage)
    requires at <= |s|
  {
    forall k {:trigger Open(k)} :: Open(k) ==> o == LoadFrom(s, at, stage)
  }

  /** The outcome of loading s from offset at and the given stage on. */
  ghost function Load(s: seq<Byte>, at: nat, stage: LoadStage): Loaded
    requires at <= |s|
  {
    assert LoadIs(LoadFrom(s, at, stage), s, at, stage);
    var o :| LoadIs(o, s, at, stage);
    o
  }

  lemma LoadUnfold(s: seq<Byte>, at: nat, stage: LoadStage)
    requires at <= |s|
    ensures Load(s, at, stage) == LoadFrom(s, at, stage)
  {
    assert Open(0);
  }

  lemma StepShort(s: seq<Byte>, at: nat, stage: LoadStage)
    requires at <= |s| < at + (if stage.AtStrong? then stage.sig.strongLen else 4)
    ensures Load(s, at, stage) ==
            if stage.AtWeak? && at == |s| then Loaded(stage.sig, Done) else Fails(ShortRead(s, at))
  {
    LoadUnfold(s, at, stage);
  }

  lemma StepMagicNumber(s: seq<Byte>, at: nat)
    requires at + 4 <= |s|
    ensures Load(s, at, AtMagic) == if Int4(s, at) != SIG_MAGIC then Fails(BadMagic) else Load(s, at + 4, AtBlockLen)
  {
    LoadUnfold(s, at, AtMagic);
    LoadUnfold(s, at + 4, AtBlockLen);
  }

  lemma StepBlockLen(s: seq<Byte>, at: nat)
    requires at + 4 <= |s|
    ensures Int4(s, at) < 1 ==> Load(s, at, AtBlockLen) == Fails(Corrupt)
    ensures Int4(s, at) >= 1 ==> Load(s, at, AtBlockLen) == Load(s, at + 4, AtStrongLen(Int4(s, at)))
  {
    LoadUnfold(s, at, AtBlockLen);
    if Int4(s, at) >= 1 {
      LoadUnfold(s, at + 4, AtStrongLen(Int4(s, at)));
    }
  }

  lemma StepStrongLen(s: seq<Byte>, at: nat, blockLen: nat)
    requires at + 4 <= |s|
    ensures Int4(s, at) < 0 || Int4(s, at) > MD4_LENGTH ==> Load(s, at, AtStrongLen(blockLen)) == Fails(Corrupt)
    ensures 0 <= Int4(s, at) <= MD4_LENGTH ==>
      Load(s, at, AtStrongLen(blockLen)) == Load(s, at + 4, AtWeak(Signature(blockLen, Int4(s, at), [])))
  {
    LoadUnfold(s, at, AtStrongLen(blockLen));
    if 0 <= Int4(s, at) {
      LoadUnfold(s, at + 4, AtWeak(Signature(blockLen, Int4(s, at), [])));
    }
  }

  lemma StepWeak(s: seq<Byte>, at: nat, sig: Signature)
    requires at + 4 <= |s|
    ensures Load(s, at, AtWeak(sig)) == Load(s, at + 4, AtStrong(sig, Int4(s, at) % Rollsum.WORD))
  {
    LoadUnfold(s, at, AtWeak(sig));
    LoadUnfold(s, at + 4, AtStrong(sig, Int4(s, at) % Rollsum.WORD));
  }

  lemma StepStrong(s: seq<Byte>, at: nat, sig: Signature, weak: int)
    requires at + sig.strongLen <= |s|
    ensures Load(s, at, AtStrong(sig, weak)) ==
            Load(s, at + sig.strongLen, AtWeak(AddSum(sig, weak, s[at..at + sig.strongLen])))
  {
    LoadUnfold(s, at, AtStrong(sig, weak));
    LoadUnfold(s, at + sig.strongLen, AtWeak(AddSum(sig, weak, s[at..at + sig.strongLen])));
  }

  // ---------- which streams are waited on ----------

  /** A field of the header that is there cannot be loaded. */
  ghost predicate HeaderFault(s: seq<Byte>) {
    || (|s| >= 4 && Int4(s, 0) != SIG_MAGIC)
    || (|s| >= 8 && Int4(s, 4) < 1)
    || (|s| >= 12 && !(0 <= Int4(s, 8) <= MD4_LENGTH))
  }

  /** n bytes of entries, each with a strong sum of strongLen bytes, stop inside a field. */
  ghost predicate CutField(n: nat, strongLen: nat) {
    n % (4 + strongLen) != 0 && n % (4 + strongLen) != 4
  }

  /** Exactly the signatures with a good header that are cut off inside a field, header or
    * entry, are waited on for ever.
    */
  lemma LoadWaits(s: seq<Byte>)
    ensures Load(s, 0, AtMagic).result == Blocked <==>
      !HeaderFault(s) && if |s| < 12 then |s| % 4 != 0 else CutField(|s| - 12, Int4(s, 8))
  {
    if |s| < 4 {
      StepShort(s, 0, AtMagic);
    } else {
      StepMagicNumber(s, 0);
      if Int4(s, 0) == SIG_MAGIC {
        LengthsWait(s);
      }
    }
  }

  lemma LengthsWait(s: seq<Byte>)
    requires |s| >= 4 && Int4(s, 0) == SIG_MAGIC
    ensures Load(s, 4, AtBlockLen).result == Blocked <==>
      !HeaderFault(s) && if |s| < 12 then |s| % 4 != 0 else CutField(|s| - 12, Int4(s, 8))
  {
    if |s| < 8 {
      StepShort(s, 4, AtBlockLen);
    } else {
      StepBlockLen(s, 4);
      if Int4(s, 4) >= 1 {
        if |s| < 12 {
          StepShort(s, 8, AtStrongLen(Int4(s, 4)));
        } else {
          StepStrongLen(s, 8, Int4(s, 4));
          if 0 <= Int4(s, 8) <= MD4_LENGTH {
            EntriesWait(s, 12, Signature(Int4(s, 4), Int4(s, 8), []));
          }
        }
      }
    }
  }

  lemma {:induction false} EntriesWait(s: seq<Byte>, at: nat, sig: Signature)
    requires at <= |s|
    ensures Load(s, at, AtWeak(sig)).result == Blocked <==> CutField(|s| - at, sig.strongLen)
    decreases |s| - at
  {
    var n, size := |s| - at, 4 + sig.strongLen;
    if n < 4 {
      ModUnique(n, size, 0, n);
      StepShort(s, at, AtWeak(sig));
    } else {
      var weak := Int4(s, at) % Rollsum.WORD;
      StepWeak(s, at, sig);
      if n < size {
        ModUnique(n, size, 0, n);
        StepShort(s, at + 4, AtStrong(sig, weak));
      } else {
        StepStrong(s, at + 4, sig, weak);
        EntriesWait(s, at + size, AddSum(sig, weak, s[at + 4..at + size]));
        ModUnique(n, size, (n - size) / size + 1, (n - size) % size);
      }
    }
  }

  /** The shortest such stream: the first byte of the magic number. */
  lemma OneByteWaits()
    ensures Load(NetInt(SIG_MAGIC, 4)[..1], 0, AtMagic).result == Blocked
  {
    LoadWaits(NetInt(SIG_MAGIC, 4)[..1]);
  }

  ghost predicate LeadsIs(ok: bool, o: Loaded, s: seq<Byte>, at: nat, stage: LoadStage)
    requires at <= |s|
  {
    forall k {:trigger Open(k)} :: Open(k) ==> ok == (o == Load(s, at, stage))
  }

  /** Loading on from offset at leads to o; folded until LeadsUnfold opens it. */
  ghost predicate Leads(o: Loaded, s: seq<Byte>, at: nat, stage: LoadStage)
    requires at <= |s|
  {
    assert LeadsIs(o == Load(s, at, stage), o, s, at, stage);
    var ok :| LeadsIs(ok, o, s, at, stage);
    ok
  }

  lemma LeadsUnfold(o: Loaded, s: seq<Byte>, at: nat, stage: LoadStage)
    requires at <= |s|
    ensures Leads(o, s, at, stage) == (o == Load(s, at, stage))
  {
    assert Open(0);
  }

  /** A read that fails at stage decides the outcome, unless more input can come. */
  lemma LeadsShort(o: Loaded, s: seq<Byte>, at: nat, stage: LoadStage)
    requires at <= |s| < at + (if stage.AtStrong? then stage.sig.strongLen else 4) && Leads(o, s, at, stage)
    ensures o == if stage.AtWeak? && at == |s| then Loaded(stage.sig, Done) else Fails(ShortRead(s, at))
  {
    LeadsUnfold(o, s, at, stage);
    StepShort(s, at, stage);
  }

  lemma LeadsMagic(o: Loaded, s: seq<Byte>, at: nat)
    requires at + 4 <= |s| && Leads(o, s, at, AtMagic)
    ensures if Int4(s, at) != SIG_MAGIC then o == Fails(BadMagic) else Leads(o, s, at + 4, AtBlockLen)
  {
    LeadsUnfold(o, s, at, AtMagic);
    LeadsUnfold(o, s, at + 4, AtBlockLen);
    StepMagicNumber(s, at);
  }

  lemma LeadsBlockLen(o: Loaded, s: seq<Byte>, at: nat)
    requires at + 4 <= |s| && Leads(o, s, at, AtBlockLen)
    ensures if Int4(s, at) < 1 then o == Fails(Corrupt) else Leads(o, s, at + 4, AtStrongLen(Int4(s, at)))
  {
    LeadsUnfold(o, s, at, AtBlockLen);
    StepBlockLen(s, at);
    if Int4(s, at) >= 1 {
      LeadsUnfold(o, s, at + 4, AtStrongLen(Int4(s, at)));
    }
  }

  lemma LeadsStrongLen(o: Loaded, s: seq<Byte>, at: nat, blockLen: nat)
    requires at + 4 <= |s| && Leads(o, s, at, AtStrongLen(blockLen))
    ensures if Int4(s, at) < 0 || Int4(s, at) > MD4_LENGTH then o == Fails(Corrupt)
            else Leads(o, s, at + 4, AtWeak(Signature(blockLen, Int4(s, at), [])))
  {
    LeadsUnfold(o, s, at, AtStrongLen(blockLen));
    StepStrongLen(s, at, blockLen);
    if 0 <= Int4(s, at) {
      LeadsUnfold(o, s, at + 4, AtWeak(Signature(blockLen, Int4(s, at), [])));
    }
  }

  lemma LeadsWeak(o: Loaded, s: seq<Byte>, at: nat, sig: Signature)
    requires at + 4 <= |s| && Leads(o, s, at, AtWeak(sig))
    ensures Leads(o, s, at + 4, AtStrong(sig, Int4(s, at) % Rollsum.WORD))
  {
    LeadsUnfold(o, s, at, AtWeak(sig));
    LeadsUnfold(o, s, at + 4, AtStrong(sig, Int4(s, at) % Rollsum.WORD));
    StepWeak(s, at, sig);
  }

  lemma LeadsStrong(o: Loaded, s: seq<Byte>, at: nat, sig: Signature, weak: int)
    requires at + sig.strongLen <= |s| && Leads(o, s, at, AtStrong(sig, weak))
    ensures Leads(o, s, at + sig.strongLen, AtWeak(AddSum(sig, weak, s[at..at + sig.strongLen])))
  {
    LeadsUnfold(o, s, at, AtStrong(sig, weak));
    LeadsUnfold(o, s, at + sig.strongLen, AtWeak(AddSum(sig, weak, s[at..at + sig.strongLen])));
    StepStrong(s, at, sig, weak);
  }

  // ---------- loading undoes writing ----------

  /** A 32-bit value, signed or not, survives four bytes. */
  lemma Int4Inverse(v: int)
    ensures ToInt32(Param(NetInt(v, 4))) == ToInt32(v)
  {
    Int32OfParam(NetInt(v, 4));
    Pow256Values();
    NetIntInverse(v, 4);
  }

  lemma WeakInverse(weak: int)
    requires 0 <= weak < Rollsum.WORD
    ensures ToInt32(Param(NetInt(ToInt32(weak), 4))) % Rollsum.WORD == weak
  {
    Int4Inverse(ToInt32(weak));
    ToSignedCongruent(ToInt32(weak), Rollsum.WORD);
    ToSignedCongruent(weak, Rollsum.WORD);
  }

  /** s holds t at offset at. */
  ghost predicate HasAt(s: seq<Byte>, at: nat, t: seq<Byte>) {
    at + |t| <= |s| && s[at..at + |t|] == t
  }

  lemma HasParts(s: seq<Byte>, at: nat, a: seq<Byte>, b: seq<Byte>)
    requires HasAt(s, at, a + b)
    ensures HasAt(s, at, a) && HasAt(s, at + |a|, b)
  {
    SliceConcat(a, b);
    assert s[at..at + |a|] == s[at..at + |a + b|][..|a|];
    assert s[at + |a|..at + |a| + |b|] == s[at..at + |a + b|][|a|..];
  }

  lemma DropParts(s: seq<Byte>, at: nat, a: seq<Byte>, b: seq<Byte>)
    requires at <= |s| && s[at..] == a + b
    ensures at + |a| <= |s| && s[at + |a|..] == b && HasAt(s, at, a)
  {
    SliceConcat(a, b);
    assert s[at..at + |a|] == s[at..][..|a|];
    assert s[at + |a|..] == s[at..][|a|..];
  }

  lemma LoadBlock(r: Recipe, s: seq<Byte>, at: nat, w: seq<Byte>, sig: Signature)
    requires Sane(r) && sig.strongLen == r.strongLen && HasAt(s, at, BlockBytes(r, w))
    ensures Load(s, at, AtWeak(sig))
         == Load(s, at + |BlockBytes(r, w)|, AtWeak(sig.(blocks := sig.blocks + [SumsOf(r, w, |sig.blocks| + 1)])))
  {
    var weak, strong := Rollsum.WeakSum(w), r.strong(w)[..r.strongLen];
    BlockBytesUnfold(r, w);
    Rollsum.DigestRange(Rollsum.Sum1(w), Rollsum.Sum2(w));
    HasParts(s, at, NetInt(ToInt32(weak), 4), strong);
    WeakInverse(weak);
    StepWeak(s, at, sig);
    StepStrong(s, at + 4, sig, weak);
  }

  /** The blocks still to be written or loaded, and their sums. */
  datatype Remainder = Remainder(bytes: seq<Byte>, sums: seq<BlockSig>)

  ghost predicate RemainingIs(x: Remainder, r: Recipe, f: seq<Byte>, p: nat, index: nat)
    requires Sane(r) && p <= |f|
  {
    forall k {:trigger Open(k)} :: Open(k) ==> x == Remainder(BlocksFrom(r, f, p), SumsFrom(r, f, p, index))
  }

  /** BlocksFrom and SumsFrom, folded until RemainingUnfold opens them. */
  ghost function Remaining(r: Recipe, f: seq<Byte>, p: nat, index: nat): Remainder
    requires Sane(r) && p <= |f|
  {
    assert RemainingIs(Remainder(BlocksFrom(r, f, p), SumsFrom(r, f, p, index)), r, f, p, index);
    var x :| RemainingIs(x, r, f, p, index);
    x
  }

  lemma RemainingUnfold(r: Recipe, f: seq<Byte>, p: nat, index: nat)
    requires Sane(r) && p <= |f|
    ensures Remaining(r, f, p, index).bytes == BlocksFrom(r, f, p)
    ensures Remaining(r, f, p, index).sums == SumsFrom(r, f, p, index)
  {
    assert Open(0);
  }

  lemma RemainingEnd(r: Recipe, f: seq<Byte>, index: nat)
    requires Sane(r)
    ensures Remaining(r, f, |f|, index).bytes == [] && Remaining(r, f, |f|, index).sums == []
  {
    RemainingUnfold(r, f, |f|, index);
  }

  /** What is left from p on is the block at p and what is left after it. */
  lemma RemainingStep(r: Recipe, f: seq<Byte>, p: nat, index: nat) returns (w: seq<Byte>)
    requires Sane(r) && p < |f|
    ensures w == Window(f, r.blockLen, p) && 0 < |w| <= |f| - p
    ensures Remaining(r, f, p, index).bytes == BlockBytes(r, w) + Remaining(r, f, p + |w|, index + 1).bytes
    ensures Remaining(r, f, p, index).sums == [SumsOf(r, w, index)] + Remaining(r, f, p + |w|, index + 1).sums
  {
    w := Window(f, r.blockLen, p);
    StepBytes(r, f, p, index, w);
    StepSums(r, f, p, index, w);
  }

  lemma StepBytes(r: Recipe, f: seq<Byte>, p: nat, index: nat, w: seq<Byte>)
    requires Sane(r) && p < |f| && w == Window(f, r.blockLen, p)
    ensures Remaining(r, f, p, index).bytes == BlockBytes(r, w) + Remaining(r, f, p + |w|, index + 1).bytes
  {
    RemainingUnfold(r, f, p, index);
    RemainingUnfold(r, f, p + |w|, index + 1);
    BlocksStep(r, f, p);
  }

  lemma StepSums(r: Recipe, f: seq<Byte>, p: nat, index: nat, w: seq<Byte>)
    requires Sane(r) && p < |f| && w == Window(f, r.blockLen, p)
    ensures Remaining(r, f, p, index).sums == [SumsOf(r, w, index)] + Remaining(r, f, p + |w|, index + 1).sums
  {
    RemainingUnfold(r, f, p, index);
    RemainingUnfold(r, f, p + |w|, index + 1);
    SumsStep(r, f, p, index);
  }

  lemma BlocksStep(r: Recipe, f: seq<Byte>, p: nat)
    requires Sane(r) && p < |f|
    ensures var w := Window(f, r.blockLen, p); BlocksFrom(r, f, p) == BlockBytes(r, w) + BlocksFrom(r, f, p + |w|)
  {
  }

  lemma SumsStep(r: Recipe, f: seq<Byte>, p: nat, index: nat)
    requires Sane(r) && p < |f|
    ensures var w := Window(f, r.blockLen, p);
      SumsFrom(r, f, p, index) == [SumsOf(r, w, index)] + SumsFrom(r, f, p + |w|, index + 1)
  {
  }

  lemma PushFront<T>(a: seq<T>, x: T, b: seq<T>)
    ensures a + [x] + b == a + ([x] + b)
  {
  }

  /** From the first block to the end of the stream: all is what is loaded already and what is to come. */
  lemma {:induction false} LoadBlocks(r: Recipe, s: seq<Byte>, at: nat, f: seq<Byte>, p: nat, sig: Signature,
                                      all: seq<BlockSig>)
    requires Sane(r) && p <= |f| && sig.strongLen == r.strongLen
    requires at <= |s| && s[at..] == Remaining(r, f, p, |sig.blocks| + 1).bytes
    requires all == sig.blocks + Remaining(r, f, p, |sig.blocks| + 1).sums
    ensures Load(s, at, AtWeak(sig)) == Loaded(sig.(blocks := all), Done)
    decreases |f| - p
  {
    var index := |sig.blocks| + 1;
    if p == |f| {
      RemainingEnd(r, f, index);
      StepShort(s, at, AtWeak(sig));
      assert sig.blocks + [] == sig.blocks;
    } else {
      var w := RemainingStep(r, f, p, index);
      var sum := SumsOf(r, w, index);
      var b, q, more := BlockBytes(r, w), p + |w|, sig.blocks + [sum];
      var rest := Remaining(r, f, q, index + 1);
      DropParts(s, at, b, rest.bytes);
      LoadBlock(r, s, at, w, sig);
      PushFront(sig.blocks, sum, rest.sums);
      assert |more| + 1 == index + 1;
      LoadBlocks(r, s, at + |b|, f, q, sig.(blocks := more), all);
    }
  }

  lemma LoadHeader(s: seq<Byte>, a: seq<Byte>, b: seq<Byte>, c: seq<Byte>, blockLen: nat, strongLen: nat)
    requires |a| == |b| == |c| == 4 && HasAt(s, 0, a) && HasAt(s, 4, b) && HasAt(s, 8, c)
    requires ToInt32(Param(a)) == SIG_MAGIC && ToInt32(Param(b)) == blockLen >= 1
    requires ToInt32(Param(c)) == strongLen <= MD4_LENGTH
    ensures Load(s, 0, AtMagic) == Load(s, 12, AtWeak(Signature(blockLen, strongLen, [])))
  {
    StepMagicNumber(s, 0);
    StepBlockLen(s, 4);
    StepStrongLen(s, 8, blockLen);
  }

  lemma HeaderParts(s: seq<Byte>, a: seq<Byte>, b: seq<Byte>, c: seq<Byte>, rest: seq<Byte>)
    requires s == a + b + c + rest
    ensures HasAt(s, 0, a) && HasAt(s, |a|, b) && HasAt(s, |a| + |b|, c) && s[|a| + |b| + |c|..] == rest
  {
  }

  lemma LoadInverseOf(r: Recipe, f: seq<Byte>, a: seq<Byte>, b: seq<Byte>, c: seq<Byte>)
    requires Sane(r) && |a| == |b| == |c| == 4
    requires ToInt32(Param(a)) == SIG_MAGIC && ToInt32(Param(b)) == r.blockLen && ToInt32(Param(c)) == r.strongLen
    ensures Load(a + b + c + Remaining(r, f, 0, 1).bytes, 0, AtMagic)
         == Loaded(Signature(r.blockLen, r.strongLen, Remaining(r, f, 0, 1).sums), Done)
  {
    var rest := Remaining(r, f, 0, 1);
    var s := a + b + c + rest.bytes;
    HeaderParts(s, a, b, c, rest.bytes);
    LoadHeader(s, a, b, c, r.blockLen, r.strongLen);
    assert [] + rest.sums == rest.sums;
    LoadBlocks(r, s, 12, f, 0, Signature(r.blockLen, r.strongLen, []), rest.sums);
  }

  lemma HeaderInverse(v: nat) returns (a: seq<Byte>)
    requires v < MAX_INT
    ensures a == NetInt(v, 4) && |a| == 4 && ToInt32(Param(a)) == v
  {
    var n := 4;
    a := NetInt(v, n);
    Int4Inverse(v);
  }

  /** Loading a generated signature gives exactly the sums of the file's blocks. */
  lemma LoadInverse(r: Recipe, f: seq<Byte>)
    requires Sane(r)
    ensures Load(SigBytes(r, f), 0, AtMagic) == Loaded(SignatureOf(r, f), Done)
  {
    var magic := SIG_MAGIC;
    var a := HeaderInverse(magic);
    var b := HeaderInverse(r.blockLen);
    var c := HeaderInverse(r.strongLen);
    LoadInverseOf(r, f, a, b, c);
    RemainingUnfold(r, f, 0, 1);
  }

  // ---------- what a signature holds ----------

  /** Where block i starts. */
  ghost function Offset(d: Pos, i: nat): nat {
    if i == 0 then 0 else Offset(d, i - 1) + d
  }

  lemma {:induction false} OffsetIs(d: Pos, i: nat)
    ensures Offset(d, i) == i * d
  {
    if i > 0 {
      OffsetIs(d, i - 1);
      assert i * d == (i - 1) * d + d;
    }
  }

  /** b holds the sums of block i of f, and i is its index less one. */
  ghost predicate IsSum(r: Recipe, f: seq<Byte>, b: BlockSig, i: nat)
    requires Sane(r)
  {
    Offset(r.blockLen, i) < |f| && b == SumsOf(r, Window(f, r.blockLen, Offset(r.blockLen, i)), i + 1)
  }

  lemma {:induction false} SumAt(r: Recipe, f: seq<Byte>, i: nat, k: nat)
    requires Sane(r) && Offset(r.blockLen, i) <= |f| && k < |SumsFrom(r, f, Offset(r.blockLen, i), i + 1)|
    ensures IsSum(r, f, SumsFrom(r, f, Offset(r.blockLen, i), i + 1)[k], i + k)
    decreases k
  {
    if k == 0 {
      SumsStep(r, f, Offset(r.blockLen, i), i + 1);
    } else {
      SumLater(r, f, i, k);
      SumAt(r, f, i + 1, k - 1);
    }
  }

  lemma SumLater(r: Recipe, f: seq<Byte>, i: nat, k: nat)
    requires Sane(r) && Offset(r.blockLen, i) <= |f|
    requires 0 < k < |SumsFrom(r, f, Offset(r.blockLen, i), i + 1)|
    ensures Offset(r.blockLen, i + 1) <= |f| && k - 1 < |SumsFrom(r, f, Offset(r.blockLen, i + 1), i + 2)|
    ensures SumsFrom(r, f, Offset(r.blockLen, i), i + 1)[k] == SumsFrom(r, f, Offset(r.blockLen, i + 1), i + 2)[k - 1]
  {
    ShortIsLast(r, f, i);
    SumsStep(r, f, Offset(r.blockLen, i), i + 1);
  }

  lemma ShortIsLast(r: Recipe, f: seq<Byte>, i: nat)
    requires Sane(r) && Offset(r.blockLen, i) <= |f|
    ensures |SumsFrom(r, f, Offset(r.blockLen, i), i + 1)| > 1 ==> Offset(r.blockLen, i) + r.blockLen <= |f|
  {
    var p := Offset(r.blockLen, i);
    if p < |f| < p + r.blockLen {
      assert SumsFrom(r, f, |f|, i + 2) == [];
    }
  }

  lemma {:induction false} SumsCount(r: Recipe, f: seq<Byte>, i: nat)
    requires Sane(r) && Offset(r.blockLen, i) <= |f|
    ensures var n := |SumsFrom(r, f, Offset(r.blockLen, i), i + 1)|;
      Offset(r.blockLen, i + n) >= |f| && (n > 0 ==> Offset(r.blockLen, i + n - 1) < |f|)
    decreases |f| - Offset(r.blockLen, i)
  {
    var p := Offset(r.blockLen, i);
    if p < |f| {
      if p + r.blockLen <= |f| {
        SumsCount(r, f, i + 1);
      } else {
        assert SumsFrom(r, f, |f|, i + 2) == [];
      }
    }
  }

  function CeilDiv(n: nat, d: Pos): nat {
    (n + d - 1) / d
  }

  lemma CeilIs(n: nat, d: Pos, k: nat)
    requires k * d >= n && (k > 0 ==> (k - 1) * d < n)
    ensures k == CeilDiv(n, d)
  {
    if k == 0 {
      ModUnique(d - 1, d, 0, d - 1);
    } else {
      assert k * d == (k - 1) * d + d;
      ModUnique(n + d - 1, d, k, n + d - 1 - k * d);
    }
  }

  /** One entry for each block, numbered from 1, only the last possibly short. */
  lemma SignatureEntries(r: Recipe, f: seq<Byte>)
    requires Sane(r)
    ensures |SignatureOf(r, f).blocks| == CeilDiv(|f|, r.blockLen)
    ensures forall i :: 0 <= i < |SignatureOf(r, f).blocks| ==> IsSum(r, f, SignatureOf(r, f).blocks[i], i)
    ensures ValidSignature(SignatureOf(r, f))
  {
    var sums := SumsFrom(r, f, 0, 1);
    SumsCount(r, f, 0);
    OffsetIs(r.blockLen, |sums|);
    if |sums| > 0 {
      OffsetIs(r.blockLen, |sums| - 1);
    }
    CeilIs(|f|, r.blockLen, |sums|);
    forall i | 0 <= i < |sums| ensures IsSum(r, f, sums[i], i) && 0 <= sums[i].weak < Rollsum.WORD {
      SumAt(r, f, 0, i);
      var w := Window(f, r.blockLen, Offset(r.blockLen, i));
      Rollsum.DigestRange(Rollsum.Sum1(w), Rollsum.Sum2(w));
    }
  }

  // ---------- what a signature job still has to send ----------

  /** With the sums of count blocks sent, what is left from p on makes the signature. */
  ghost predicate Owing(r: Recipe, f: seq<Byte>, sent: seq<Byte>, count: nat, p: nat)
    requires Sane(r) && p <= |f|
  {
    && sent + Remaining(r, f, p, count + 1).bytes == SigHeader(r) + Remaining(r, f, 0, 1).bytes
    && count + |Remaining(r, f, p, count + 1).sums| == |Remaining(r, f, 0, 1).sums|
  }

  /** The quantifier only keeps Owing folded until OnScheduleUnfold opens it. */
  ghost predicate OnScheduleIs(ok: bool, r: Recipe, f: seq<Byte>, sent: seq<Byte>, count: nat, p: nat)
    requires Sane(r) && p <= |f|
  {
    forall k {:trigger Open(k)} :: Open(k) ==> ok == Owing(r, f, sent, count, p)
  }

  ghost predicate OnSchedule(r: Recipe, f: seq<Byte>, sent: seq<Byte>, count: nat, p: nat)
    requires Sane(r) && p <= |f|
  {
    assert OnScheduleIs(Owing(r, f, sent, count, p), r, f, sent, count, p);
    var ok :| OnScheduleIs(ok, r, f, sent, count, p);
    ok
  }

  lemma OnScheduleUnfold(r: Recipe, f: seq<Byte>, sent: seq<Byte>, count: nat, p: nat)
    requires Sane(r) && p <= |f|
    ensures OnSchedule(r, f, sent, count, p) == Owing(r, f, sent, count, p)
  {
    assert Open(0);
  }

  lemma OnScheduleStart(r: Recipe, f: seq<Byte>)
    requires Sane(r)
    ensures OnSchedule(r, f, SigHeader(r), 0, 0)
  {
    OnScheduleUnfold(r, f, SigHeader(r), 0, 0);
  }

  lemma OnScheduleBlock(r: Recipe, f: seq<Byte>, sent: seq<Byte>, count: nat, p: nat, w: seq<Byte>)
    requires Sane(r) && p < |f| && w == Window(f, r.blockLen, p) && OnSchedule(r, f, sent, count, p)
    ensures OnSchedule(r, f, sent + BlockBytes(r, w), count + 1, p + |w|)
  {
    OnScheduleUnfold(r, f, sent, count, p);
    OwingBlock(r, f, sent, count, p, w);
    OnScheduleUnfold(r, f, sent + BlockBytes(r, w), count + 1, p + |w|);
  }

  lemma OwingBlock(r: Recipe, f: seq<Byte>, sent: seq<Byte>, count: nat, p: nat, w: seq<Byte>)
    requires Sane(r) && p < |f| && w == Window(f, r.blockLen, p) && Owing(r, f, sent, count, p)
    ensures p + |w| <= |f| && Owing(r, f, sent + BlockBytes(r, w), count + 1, p + |w|)
  {
    StepOwed(r, f, p, count + 1, w);
    OwingNext(r, f, sent, count, p, |w|, BlockBytes(r, w));
  }

  lemma StepOwed(r: Recipe, f: seq<Byte>, p: nat, index: nat, w: seq<Byte>)
    requires Sane(r) && p < |f| && w == Window(f, r.blockLen, p)
    ensures Remaining(r, f, p, index).bytes == BlockBytes(r, w) + Remaining(r, f, p + |w|, index + 1).bytes
    ensures |Remaining(r, f, p, index).sums| == 1 + |Remaining(r, f, p + |w|, index + 1).sums|
  {
    StepBytes(r, f, p, index, w);
    StepSums(r, f, p, index, w);
  }

  lemma OwingNext(r: Recipe, f: seq<Byte>, sent: seq<Byte>, count: nat, p: nat, n: nat, block: seq<Byte>)
    requires Sane(r) && p + n <= |f| && Owing(r, f, sent, count, p)
    requires Remaining(r, f, p, count + 1).bytes == block + Remaining(r, f, p + n, count + 2).bytes
    requires |Remaining(r, f, p, count + 1).sums| == 1 + |Remaining(r, f, p + n, count + 2).sums|
    ensures Owing(r, f, sent + block, count + 1, p + n)
  {
    SendFirst(sent, block, Remaining(r, f, p + n, count + 2).bytes, Remaining(r, f, p, count + 1).bytes);
  }

  /** Sending the first part of what is left leaves the second. */
  lemma SendFirst<T>(sent: seq<T>, first: seq<T>, second: seq<T>, left: seq<T>)
    requires left == first + second
    ensures sent + first + second == sent + left
  {
  }

  lemma OnScheduleEnd(r: Recipe, f: seq<Byte>, sent: seq<Byte>, count: nat)
    requires Sane(r) && OnSchedule(r, f, sent, count, |f|)
    ensures sent == SigBytes(r, f) && count == CeilDiv(|f|, r.blockLen)
  {
    OnScheduleUnfold(r, f, sent, count, |f|);
    RemainingEnd(r, f, count + 1);
    RemainingUnfold(r, f, 0, 1);
    assert sent + [] == sent;
    SignatureEntries(r, f);
  }

  lemma OnScheduleBound(r: Recipe, f: seq<Byte>, sent: seq<Byte>, count: nat, p: nat)
    requires Sane(r) && p <= |f| && OnSchedule(r, f, sent, count, p)
    ensures |sent| <= |SigBytes(r, f)|
  {
    OnScheduleUnfold(r, f, sent, count, p);
    RemainingUnfold(r, f, 0, 1);
  }
}
