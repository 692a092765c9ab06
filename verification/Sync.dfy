/** One file brought over to another machine: signature, load, delta and patch
  * run one after the other (rdiff.c, whole.c), each job fed and drained in pieces
  * of any size.
  */
module Sync {
  import opened Codec
  import opened PatchSpec
  import opened Search
  import opened DeltaSpec
  import opened SigSpec
  import DeltaJob
  import SigJob
  import LoadJob
  import PatchJob
  import Rollsum

  /** Block i of the basis and a window of the new file with equal sums are equal. */
  ghost predicate SumsTell(r: Recipe, basis: seq<Byte>, f: seq<Byte>, p: nat, i: nat)
    requires Sane(r) && p < |f|
  {
    var w := Window(f, r.blockLen, p);
    Offset(r.blockLen, i) < |basis| ==>
      var b := Window(basis, r.blockLen, Offset(r.blockLen, i));
      Rollsum.WeakSum(w) == Rollsum.WeakSum(b) && r.strong(w)[..r.strongLen] == r.strong(b)[..r.strongLen] ==> w == b
  }

  /** The hypothesis everything rests on: no block of the basis collides with a
    * different window of the new file.
    */
  ghost predicate NoCollision(r: Recipe, basis: seq<Byte>, f: seq<Byte>)
    requires Sane(r)
  {
    forall p: nat, i: nat :: p < |f| ==> SumsTell(r, basis, f, p, i)
  }

  ghost predicate Uses(m: Matcher, r: Recipe, basis: seq<Byte>) {
    Sane(r) && m.Valid() && m.sig == SignatureOf(r, basis) && m.strong == r.strong
  }

  /** A match names a block of the basis with both sums of the window. */
  lemma HitIsBlock(m: Matcher, r: Recipe, basis: seq<Byte>, w: seq<Byte>) returns (i: nat)
    requires Uses(m, r, basis) && m.Lookup(w).Some?
    ensures m.Lookup(w).value == Offset(r.blockLen, i) < |basis|
    ensures var b := Window(basis, r.blockLen, Offset(r.blockLen, i));
      Rollsum.WeakSum(w) == Rollsum.WeakSum(b) && r.strong(w)[..r.strongLen] == r.strong(b)[..r.strongLen]
  {
    LookupExact(m, w);
    SignatureEntries(r, basis);
    i :| 0 <= i < |m.sig.blocks| && Agrees(m.sig.blocks[i], Rollsum.WeakSum(w), m.Truncated(w))
      && m.Lookup(w).value == i * m.sig.blockLen;
    assert IsSum(r, basis, m.sig.blocks[i], i);
    OffsetIs(r.blockLen, i);
  }

  /** Without collisions every match the delta makes is true of the basis. */
  lemma NoCollisionMatchesTrue(m: Matcher, r: Recipe, basis: seq<Byte>, f: seq<Byte>, bufLen: nat)
    requires Uses(m, r, basis) && NoCollision(r, basis, f)
    ensures MatchesTrue(DeltaJob.PlanOf(m, bufLen), basis, f)
  {
    var plan := DeltaJob.PlanOf(m, bufLen);
    forall p | 0 <= p < |f| ensures MatchTrue(plan, basis, Window(f, plan.blockLen, p)) {
      var w := Window(f, plan.blockLen, p);
      if m.Lookup(w).Some? {
        var i := HitIsBlock(m, r, basis, w);
        assert SumsTell(r, basis, f, p, i);
      }
    }
  }

  lemma PlanFits(m: Matcher, r: Recipe, basis: seq<Byte>, f: seq<Byte>, bufLen: nat)
    requires Uses(m, r, basis) && |basis| < MAX_LONG && |f| < MAX_LONG && bufLen < MAX_INT
    ensures Fits(DeltaJob.PlanOf(m, bufLen), f)
  {
    var plan := DeltaJob.PlanOf(m, bufLen);
    forall w | plan.lookup(w).Some? ensures plan.lookup(w).value < MAX_LONG {
      var i := HitIsBlock(m, r, basis, w);
    }
  }

  // ---------- what need not be sent ----------

  /** Every block of the new file is a block of the basis, wherever it was there. */
  ghost predicate BlocksKnown(r: Recipe, basis: seq<Byte>, f: seq<Byte>) {
    forall i: nat :: KnownAt(r, basis, f, i)
  }

  ghost predicate KnownAt(r: Recipe, basis: seq<Byte>, f: seq<Byte>, i: nat) {
    Offset(r.blockLen, i) < |f| ==> BlockKnown(r, basis, Window(f, r.blockLen, Offset(r.blockLen, i)))
  }

  ghost predicate BlockKnown(r: Recipe, basis: seq<Byte>, w: seq<Byte>) {
    exists j: nat :: Offset(r.blockLen, j) < |basis| && Window(basis, r.blockLen, Offset(r.blockLen, j)) == w
  }

  /** A block of the basis is always found again, collisions or not. */
  lemma KnownIsFound(m: Matcher, r: Recipe, basis: seq<Byte>, w: seq<Byte>)
    requires Uses(m, r, basis) && BlockKnown(r, basis, w)
    ensures m.Lookup(w).Some?
  {
    var j: nat :| Offset(r.blockLen, j) < |basis| && Window(basis, r.blockLen, Offset(r.blockLen, j)) == w;
    LookupExact(m, w);
    SignatureEntries(r, basis);
    BlockCounted(r, basis, j);
    assert IsSum(r, basis, m.sig.blocks[j], j);
    assert Agrees(m.sig.blocks[j], Rollsum.WeakSum(w), m.Truncated(w));
  }

  lemma BlockCounted(r: Recipe, basis: seq<Byte>, j: nat)
    requires Sane(r) && Offset(r.blockLen, j) < |basis|
    ensures j < |SignatureOf(r, basis).blocks|
  {
    SumsCount(r, basis, 0);
    var n := |SignatureOf(r, basis).blocks|;
    if n <= j {
      OffsetGrows(r.blockLen, n, j);
    }
  }

  lemma {:induction false} OffsetGrows(d: Pos, i: nat, j: nat)
    requires i <= j
    ensures Offset(d, i) <= Offset(d, j)
  {
    if i < j {
      OffsetGrows(d, i, j - 1);
    }
  }

  ghost predicate OnlyCopies(cs: seq<Cmd>) {
    forall k :: 0 <= k < |cs| ==> cs[k].CopyCmd?
  }

  lemma {:induction false} CopiesOnly(m: Matcher, r: Recipe, basis: seq<Byte>, f: seq<Byte>, bufLen: nat, i: nat,
                                      p: nat, last: Last)
    requires Uses(m, r, basis) && BlocksKnown(r, basis, f) && last.len <= p <= |f| && (last.Match? || last.len == 0)
    requires p == |f| || p == Offset(r.blockLen, i)
    ensures OnlyCopies(Greedy(DeltaJob.PlanOf(m, bufLen), f, p, last))
    decreases |f| - p
  {
    var plan := DeltaJob.PlanOf(m, bufLen);
    if p < |f| {
      var s := Decide(plan, f, p, last);
      BlockMatches(m, r, basis, f, bufLen, i, p, last);
      CopiesOnly(m, r, basis, f, bufLen, i + 1, p + s.advance, s.last);
    }
    CopiesStep(plan, f, p, last);
  }

  lemma CopiesStep(plan: Plan, f: seq<Byte>, p: nat, last: Last)
    requires last.len <= p <= |f| && (last.Match? || last.len == 0)
    requires p < |f| ==> var s := Decide(plan, f, p, last); OnlyCopies(Greedy(plan, f, p + s.advance, s.last))
    ensures OnlyCopies(Greedy(plan, f, p, last))
  {
    if p < |f| {
      var s := Decide(plan, f, p, last);
      GreedyStep(plan, f, p, last);
      CopiesPrepend(s, Flush(f, p, last), Greedy(plan, f, p + s.advance, s.last));
    }
  }

  /** At the beginning of a block the scan finds a match and goes on to the next. */
  lemma BlockMatches(m: Matcher, r: Recipe, basis: seq<Byte>, f: seq<Byte>, bufLen: nat, i: nat, p: nat, last: Last)
    requires Uses(m, r, basis) && BlocksKnown(r, basis, f) && p == Offset(r.blockLen, i) < |f|
    ensures var s := Decide(DeltaJob.PlanOf(m, bufLen), f, p, last);
      s.last.Match? && (p + s.advance == |f| || p + s.advance == Offset(r.blockLen, i + 1))
  {
    assert KnownAt(r, basis, f, i);
    KnownIsFound(m, r, basis, Window(f, r.blockLen, p));
  }

  lemma CopiesPrepend(s: Step, flush: seq<Cmd>, rest: seq<Cmd>)
    requires OnlyCopies(flush) && OnlyCopies(rest)
    ensures OnlyCopies(Prepend(s, flush, rest))
  {
  }

  lemma {:induction false} CopiesCarryNone(cs: seq<Cmd>)
    requires OnlyCopies(cs)
    ensures LitBytes(LogOf(cs)) == 0
  {
    if cs != [] {
      CopiesCarryNone(cs[1..]);
      assert LogOf(cs)[1..] == LogOf(cs[1..]);
    }
  }

  /** Of a file made of blocks of the basis, unchanged or put in another order, not one byte
    * is sent.
    */
  lemma KnownBlocksNotSent(m: Matcher, r: Recipe, basis: seq<Byte>, f: seq<Byte>, bufLen: nat)
    requires Uses(m, r, basis) && BlocksKnown(r, basis, f)
    ensures Stats(LogOf(Commands(DeltaJob.PlanOf(m, bufLen), f))).litBytes == 0
  {
    var cs := Commands(DeltaJob.PlanOf(m, bufLen), f);
    CopiesOnly(m, r, basis, f, bufLen, 0, 0, Miss(0));
    CopiesCarryNone(cs);
    StatsTotal(LogOf(cs));
  }

  lemma UnchangedIsKnown(r: Recipe, basis: seq<Byte>)
    ensures BlocksKnown(r, basis, basis)
  {
  }

  // ---------- the jobs in sequence ----------

  method MakeSignature(blockLen: Pos, strongLen: nat, strong: Strong, basis: seq<Byte>) returns (sigFile: seq<Byte>)
    requires Sane(Recipe(blockLen, strongLen, strong))
    ensures sigFile == SigBytes(Recipe(blockLen, strongLen, strong), basis)
  {
    var job := new SigJob.SigJob(blockLen, strongLen, strong, basis);
    var r := job.Drive(basis);
    sigFile := job.pipe.output;
  }

  method LoadSignature(ghost r: Recipe, ghost basis: seq<Byte>, sigFile: seq<Byte>) returns (sig: Signature)
    requires Sane(r) && sigFile == SigBytes(r, basis)
    ensures sig == SignatureOf(r, basis)
  {
    LoadInverse(r, basis);
    var job := new LoadJob.LoadJob(sigFile);
    var result := job.Drive(sigFile);
    sig := job.signature;
  }

  method MakeDelta(sig: Signature, qsort: seq<Target> -> seq<Target>, ghost r: Recipe, strong: Strong,
                   ghost basis: seq<Byte>, f: seq<Byte>, bufLen: nat)
    returns (delta: seq<Byte>, stats: Tally, ghost m: Matcher)
    requires Sane(r) && sig == SignatureOf(r, basis) && strong == r.strong && (forall ts :: Sorts(qsort(ts), ts))
    requires |basis| < MAX_LONG && |f| < MAX_LONG && bufLen < MAX_INT
    ensures Uses(m, r, basis) && Fits(DeltaJob.PlanOf(m, bufLen), f)
    ensures delta == DeltaBytes(DeltaJob.PlanOf(m, bufLen), f)
    ensures stats == Stats(LogOf(Commands(DeltaJob.PlanOf(m, bufLen), f)))
  {
    SignatureEntries(r, basis);
    var matcher := Matcher(sig, qsort(Unsorted(sig)), strong);
    m := matcher;
    PlanFits(m, r, basis, f, bufLen);
    var table := new HashTable(matcher);
    var job := new DeltaJob.DeltaJob(table, bufLen, f);
    var result := job.Drive(f);
    delta, stats := job.pipe.output, job.stats;
  }

  method ApplyPatch(basis: seq<Byte>, delta: seq<Byte>, ghost f: seq<Byte>, ghost log: seq<LogEntry>)
    returns (r: Result, result: seq<Byte>, stats: Tally)
    requires Interpret(basis, delta) == Outcome(f, log, Done)
    ensures r == Done && result == f && stats == Stats(log)
  {
    RestUnfold(basis, Magic, delta);
    var job := new PatchJob.PatchJob(basis, delta);
    r := job.Drive(delta);
    result, stats := job.pipe.output, job.stats;
  }

  /** For every basis, new file, block length, strong sum and (unstable) sort, and
    * for every schedule of buffers in every one of the four jobs, the patched
    * basis is the new file unless the sums collide, and both ends count alike.
    */
  method Rsync(basis: seq<Byte>, f: seq<Byte>, blockLen: Pos, strongLen: nat, strong: Strong,
               qsort: seq<Target> -> seq<Target>, bufLen: nat)
    returns (r: Result, result: seq<Byte>, sent: Tally, received: Tally, traffic: nat)
    requires Sane(Recipe(blockLen, strongLen, strong)) && (forall ts :: Sorts(qsort(ts), ts))
    requires |basis| < MAX_LONG && |f| < MAX_LONG && bufLen < MAX_INT
    requires NoCollision(Recipe(blockLen, strongLen, strong), basis, f)
    ensures r == Done && result == f && sent == received
    ensures sent.litBytes + sent.copyBytes == |f|
    ensures traffic == 5 + sent.litBytes + sent.litCmdBytes + sent.copyCmdBytes
    ensures BlocksKnown(Recipe(blockLen, strongLen, strong), basis, f) ==> sent.litBytes == 0
  {
    ghost var recipe := Recipe(blockLen, strongLen, strong);
    var sigFile := MakeSignature(blockLen, strongLen, strong, basis);
    var sig := LoadSignature(recipe, basis, sigFile);
    var delta;
    ghost var m;
    delta, sent, m := MakeDelta(sig, qsort, recipe, strong, basis, f, bufLen);
    ghost var plan := DeltaJob.PlanOf(m, bufLen);
    NoCollisionMatchesTrue(m, recipe, basis, f, bufLen);
    DeltaReproduces(plan, basis, f);
    DeltaAccounts(plan, f);
    if BlocksKnown(recipe, basis, f) {
      KnownBlocksNotSent(m, recipe, basis, f, bufLen);
    }
    traffic := |delta|;
    r, result, received := ApplyPatch(basis, delta, f, LogOf(Commands(plan, f)));
  }
}
