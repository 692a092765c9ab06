/** The delta of a whole file: the greedy matcher of delta.c as a function of the
  * file alone, with no buffers, and why patching with it gives the file back.
  */
module DeltaSpec {
  import opened Codec
  import opened Wrappers
  import opened PatchSpec
  import opened Search

  type Pos = n: nat | n > 0 witness 1

  /** What the scan depends on: the block length, the size at which misses are
    * flushed, and where each window is found in the basis.
    */
  datatype Plan = Plan(blockLen: Pos, bufLen: nat, lookup: seq<Byte> -> Option<nat>)

  /** The match or miss still being extended when the scan is at p: a match of
    * len bytes at basis offset pos, or the last len bytes as a miss.
    */
  datatype Last = Match(pos: nat, len: nat) | Miss(len: nat)

  ghost function Window(f: seq<Byte>, blockLen: nat, p: nat): (w: seq<Byte>)
    requires p <= |f|
    ensures |w| == if p + blockLen <= |f| then blockLen else |f| - p
  {
    if p + blockLen <= |f| then f[p..p + blockLen] else f[p..]
  }

  lemma WindowRotates(f: seq<Byte>, blockLen: Pos, p: nat)
    requires p + blockLen < |f|
    ensures Window(f, blockLen, p + 1) == Window(f, blockLen, p)[1..] + [f[p + blockLen]]
  {
  }

  lemma WindowShrinks(f: seq<Byte>, blockLen: nat, p: nat)
    requires p < |f| <= p + blockLen
    ensures Window(f, blockLen, p + 1) == Window(f, blockLen, p)[1..]
  {
  }

  /** The command that flushes last. */
  ghost function Flush(f: seq<Byte>, p: nat, last: Last): (cs: seq<Cmd>)
    requires last.len <= p <= |f|
    ensures |cs| <= 1
  {
    match last
    case Match(pos, len) => [CopyCmd(pos, len)]
    case Miss(len) => if len == 0 then [] else [LiteralCmd(f[p - len..p])]
  }

  /** One decision of the matcher at p < |f|: whether last is flushed, how far the
    * scan advances and what is being extended afterwards.
    */
  datatype Step = Step(flushed: bool, advance: Pos, last: Last)

  ghost function Decide(plan: Plan, f: seq<Byte>, p: nat, last: Last): (s: Step)
    requires p < |f|
    ensures s.advance <= |f| - p
    ensures s.last.len == s.advance + if s.flushed then 0 else last.len
  {
    var w := Window(f, plan.blockLen, p);
    match plan.lookup(w)
    case Some(where) =>
      if last.Match? && last.pos + last.len == where then Step(false, |w|, Match(last.pos, last.len + |w|))
      else Step(true, |w|, Match(where, |w|))
    case None =>
      if last.Match? || last.len >= plan.bufLen then Step(true, 1, Miss(1))
      else Step(false, 1, Miss(last.len + 1))
  }

  ghost function Prepend(s: Step, flush: seq<Cmd>, rest: seq<Cmd>): seq<Cmd> {
    if s.flushed then flush + rest else rest
  }

  ghost function Greedy(plan: Plan, f: seq<Byte>, p: nat, last: Last): seq<Cmd>
    requires last.len <= p <= |f|
    decreases |f| - p
  {
    if p == |f| then Flush(f, p, last)
    else
      var s := Decide(plan, f, p, last);
      Prepend(s, Flush(f, p, last), Greedy(plan, f, p + s.advance, s.last))
  }

  lemma GreedyStep(plan: Plan, f: seq<Byte>, p: nat, last: Last)
    requires last.len <= p < |f|
    ensures var s := Decide(plan, f, p, last);
      Greedy(plan, f, p, last) == Prepend(s, Flush(f, p, last), Greedy(plan, f, p + s.advance, s.last))
  {
  }

  ghost function Commands(plan: Plan, f: seq<Byte>): seq<Cmd> {
    Greedy(plan, f, 0, Miss(0))
  }

  // ---------- neighbouring commands are merged ----------

  /** Two neighbours could not have been one command: the copies are not of adjacent parts of
    * the basis, or the first literal has the size at which misses are flushed.
    */
  ghost predicate Apart(plan: Plan, a: Cmd, b: Cmd) {
    && (a.CopyCmd? && b.CopyCmd? ==> a.pos + a.len != b.pos)
    && (a.LiteralCmd? && b.LiteralCmd? ==> |a.data| > 0 && |a.data| >= plan.bufLen)
  }

  ghost predicate AllApart(plan: Plan, cs: seq<Cmd>) {
    forall k :: 0 <= k < |cs| - 1 ==> Apart(plan, cs[k], cs[k + 1])
  }

  /** The first command from p on is the one being extended. */
  lemma {:induction false} FirstIsLast(plan: Plan, f: seq<Byte>, p: nat, last: Last)
    requires 0 < last.len <= p <= |f|
    ensures var cs := Greedy(plan, f, p, last);
      cs != [] && if last.Match? then cs[0].CopyCmd? && cs[0].pos == last.pos else cs[0].LiteralCmd?
    decreases |f| - p
  {
    if p < |f| {
      var s := Decide(plan, f, p, last);
      if !s.flushed {
        FirstIsLast(plan, f, p + s.advance, s.last);
      }
    }
  }

  /** The scan merges what it can, whatever the file and the basis. */
  lemma {:induction false} GreedyApart(plan: Plan, f: seq<Byte>, p: nat, last: Last)
    requires last.len <= p <= |f| && (last.Match? ==> last.len > 0)
    ensures AllApart(plan, Greedy(plan, f, p, last))
    decreases |f| - p
  {
    if p < |f| {
      var s := Decide(plan, f, p, last);
      var rest := Greedy(plan, f, p + s.advance, s.last);
      GreedyApart(plan, f, p + s.advance, s.last);
      if s.flushed {
        FirstIsLast(plan, f, p + s.advance, s.last);
        FlushApart(plan, f, p, last, rest);
      }
    }
  }

  lemma FlushApart(plan: Plan, f: seq<Byte>, p: nat, last: Last, rest: seq<Cmd>)
    requires last.len <= p <= |f| && rest != [] && AllApart(plan, rest)
    requires last.Match? && rest[0].CopyCmd? ==> last.pos + last.len != rest[0].pos
    requires last.Miss? && last.len > 0 && rest[0].LiteralCmd? ==> last.len >= plan.bufLen
    ensures AllApart(plan, Flush(f, p, last) + rest)
  {
    var cs := Flush(f, p, last) + rest;
    forall k | 0 <= k < |cs| - 1 ensures Apart(plan, cs[k], cs[k + 1]) {
      if |cs| > |rest| {
        assert k > 0 ==> cs[k] == rest[k - 1] && cs[k + 1] == rest[k];
      } else {
        assert cs == rest;
      }
    }
  }

  // ---------- every match is taken ----------

  /** How many bytes of the new file a command stands for. */
  ghost function Span(c: Cmd): nat {
    match c
    case LiteralCmd(data) => |data|
    case CopyCmd(_, len) => len
  }

  ghost predicate NoneFound(plan: Plan, f: seq<Byte>, from: nat, to: nat)
    requires to <= |f|
  {
    forall q :: from <= q < to ==> plan.lookup(Window(f, plan.blockLen, q)) == None
  }

  /** The commands cs stand for f from at on, and no window that begins inside a literal has
    * a match.
    */
  ghost predicate OnlyMisses(plan: Plan, f: seq<Byte>, at: nat, cs: seq<Cmd>)
    decreases |cs|
  {
    if cs == [] then at == |f|
    else
      var end := at + Span(cs[0]);
      && end <= |f| && (cs[0].LiteralCmd? ==> cs[0].data == f[at..end] && NoneFound(plan, f, at, end))
      && OnlyMisses(plan, f, end, cs[1..])
  }

  lemma {:induction false} GreedyMisses(plan: Plan, f: seq<Byte>, p: nat, last: Last)
    requires last.len <= p <= |f| && (last.Miss? ==> NoneFound(plan, f, p - last.len, p))
    ensures OnlyMisses(plan, f, p - last.len, Greedy(plan, f, p, last))
    decreases |f| - p
  {
    if p == |f| {
      FlushMisses(plan, f, p, last, []);
      assert Flush(f, p, last) + [] == Flush(f, p, last);
    } else {
      var s := Decide(plan, f, p, last);
      GreedyMisses(plan, f, p + s.advance, s.last);
      if s.flushed {
        FlushMisses(plan, f, p, last, Greedy(plan, f, p + s.advance, s.last));
      }
    }
  }

  lemma FlushMisses(plan: Plan, f: seq<Byte>, p: nat, last: Last, rest: seq<Cmd>)
    requires last.len <= p <= |f| && (last.Miss? ==> NoneFound(plan, f, p - last.len, p))
    requires OnlyMisses(plan, f, p, rest)
    ensures OnlyMisses(plan, f, p - last.len, Flush(f, p, last) + rest)
  {
    var cs := Flush(f, p, last);
    if cs == [] {
      assert cs + rest == rest;
    } else {
      assert (cs + rest)[1..] == rest && (cs + rest)[0] == cs[0];
    }
  }

  /** The delta takes every match it comes by: its literals hold only bytes at which no window
    * of the new file has a match.
    */
  lemma LiteralsAreMisses(plan: Plan, f: seq<Byte>)
    ensures OnlyMisses(plan, f, 0, Commands(plan, f))
  {
    GreedyMisses(plan, f, 0, Miss(0));
  }

  // ---------- the commands can be encoded ----------

  /** Lengths and offsets stay within the C types that carry them. */
  ghost predicate Fits(plan: Plan, f: seq<Byte>) {
    && plan.bufLen < MAX_INT && |f| < MAX_LONG
    && forall w :: plan.lookup(w).Some? ==> plan.lookup(w).value < MAX_LONG
  }

  ghost predicate LastEncodable(plan: Plan, last: Last) {
    match last
    case Match(pos, len) => pos < MAX_LONG && len > 0
    case Miss(len) => len <= plan.bufLen || len <= 1
  }

  ghost predicate AllEncodable(cs: seq<Cmd>) {
    forall i :: 0 <= i < |cs| ==> Encodable(cs[i])
  }

  lemma {:induction false} GreedyEncodable(plan: Plan, f: seq<Byte>, p: nat, last: Last)
    requires Fits(plan, f) && last.len <= p <= |f| && LastEncodable(plan, last)
    ensures AllEncodable(Flush(f, p, last))
    ensures AllEncodable(Greedy(plan, f, p, last))
    decreases |f| - p
  {
    if p < |f| {
      var s := Decide(plan, f, p, last);
      GreedyEncodable(plan, f, p + s.advance, s.last);
    }
  }

  /** The bytes of the delta file. */
  ghost function DeltaBytes(plan: Plan, f: seq<Byte>): seq<Byte>
    requires Fits(plan, f)
  {
    GreedyEncodable(plan, f, 0, Miss(0));
    NetInt(DELTA_MAGIC, 4) + EncodeAll(Commands(plan, f)) + [0]
  }

  // ---------- patching gives the file back ----------

  ghost predicate SliceIs(s: seq<Byte>, at: nat, w: seq<Byte>) {
    at + |w| <= |s| && s[at..at + |w|] == w
  }

  ghost predicate MatchTrue(plan: Plan, basis: seq<Byte>, w: seq<Byte>) {
    plan.lookup(w).Some? ==> SliceIs(basis, plan.lookup(w).value, w)
  }

  /** Every match the matcher reports for a window of f is of equal basis bytes. */
  ghost predicate MatchesTrue(plan: Plan, basis: seq<Byte>, f: seq<Byte>) {
    forall p :: 0 <= p < |f| ==> MatchTrue(plan, basis, Window(f, plan.blockLen, p))
  }

  ghost predicate LastTrue(basis: seq<Byte>, f: seq<Byte>, p: nat, last: Last)
    requires last.len <= p <= |f|
  {
    last.Match? ==> last.len > 0 && SliceIs(basis, last.pos, f[p - last.len..p])
  }

  lemma MatchExtends(basis: seq<Byte>, at: nat, a: seq<Byte>, b: seq<Byte>)
    requires SliceIs(basis, at, a) && SliceIs(basis, at + |a|, b)
    ensures SliceIs(basis, at, a + b)
  {
    SliceSplit(basis, at, at + |a|, at + |a| + |b|);
  }

  /** What holds of the scan at p while patching with its commands is right. */
  ghost predicate Sound(plan: Plan, basis: seq<Byte>, f: seq<Byte>, p: nat, last: Last) {
    last.len <= p <= |f| && LastEncodable(plan, last) && LastTrue(basis, f, p, last)
  }

  lemma DecideSound(plan: Plan, basis: seq<Byte>, f: seq<Byte>, p: nat, last: Last)
    requires Fits(plan, f) && Sound(plan, basis, f, p, last) && p < |f|
    requires MatchTrue(plan, basis, Window(f, plan.blockLen, p))
    ensures var s := Decide(plan, f, p, last);
      Sound(plan, basis, f, p + s.advance, s.last)
  {
    var w := Window(f, plan.blockLen, p);
    assert w == f[p..p + |w|];
    var s := Decide(plan, f, p, last);
    if s.last.Match? && !s.flushed {
      SliceSplit(f, p - last.len, p, p + |w|);
      MatchExtends(basis, last.pos, f[p - last.len..p], w);
    }
  }

  ghost predicate Writes(basis: seq<Byte>, cs: seq<Cmd>, s: seq<Byte>) {
    AllRunnable(basis, cs) && ApplyAll(basis, cs) == s
  }

  lemma WritesCons(basis: seq<Byte>, c: Cmd, rest: seq<Cmd>, b: seq<Byte>)
    requires Runnable(basis, c) && Writes(basis, rest, b)
    ensures Writes(basis, [c] + rest, Apply(basis, c) + b)
  {
    assert ([c] + rest)[1..] == rest;
  }

  /** Flushing last and then writing the rest of the file from p. */
  lemma FlushWrites(plan: Plan, basis: seq<Byte>, f: seq<Byte>, p: nat, last: Last, rest: seq<Cmd>)
    requires Fits(plan, f) && Sound(plan, basis, f, p, last) && Writes(basis, rest, f[p..])
    ensures Writes(basis, Flush(f, p, last) + rest, f[p - last.len..])
  {
    var cs := Flush(f, p, last);
    assert f[p - last.len..p] + f[p..] == f[p - last.len..];
    if cs == [] {
      assert cs + rest == rest;
    } else {
      WritesCons(basis, cs[0], rest, f[p..]);
      assert cs == [cs[0]];
    }
  }

  /** One decision, and what the rest of the commands writes after it. */
  lemma StepWrites(plan: Plan, basis: seq<Byte>, f: seq<Byte>, p: nat, last: Last, rest: seq<Cmd>)
    requires Fits(plan, f) && Sound(plan, basis, f, p, last) && p < |f|
    requires var s := Decide(plan, f, p, last); Writes(basis, rest, f[p + s.advance - s.last.len..])
    ensures Writes(basis, Prepend(Decide(plan, f, p, last), Flush(f, p, last), rest), f[p - last.len..])
  {
    if Decide(plan, f, p, last).flushed {
      FlushWrites(plan, basis, f, p, last, rest);
    }
  }

  /** Running the rest of the commands writes the bytes still held back and the
    * rest of the file.
    */
  lemma {:induction false} GreedyWrites(plan: Plan, basis: seq<Byte>, f: seq<Byte>, p: nat, last: Last)
    requires Fits(plan, f) && MatchesTrue(plan, basis, f) && Sound(plan, basis, f, p, last)
    ensures Writes(basis, Greedy(plan, f, p, last), f[p - last.len..])
    decreases |f| - p
  {
    if p == |f| {
      FlushWrites(plan, basis, f, p, last, []);
      assert Flush(f, p, last) + [] == Flush(f, p, last);
    } else {
      assert MatchTrue(plan, basis, Window(f, plan.blockLen, p));
      DecideSound(plan, basis, f, p, last);
      var s := Decide(plan, f, p, last);
      var rest := Greedy(plan, f, p + s.advance, s.last);
      GreedyWrites(plan, basis, f, p + s.advance, s.last);
      StepWrites(plan, basis, f, p, last, rest);
      GreedyStep(plan, f, p, last);
    }
  }

  /** The law of the library: patching the basis with the delta gives the new
    * file, running exactly the commands the matcher chose.
    */
  lemma DeltaReproduces(plan: Plan, basis: seq<Byte>, f: seq<Byte>)
    requires Fits(plan, f) && MatchesTrue(plan, basis, f)
    ensures Interpret(basis, DeltaBytes(plan, f)) == Outcome(f, LogOf(Commands(plan, f)), Done)
  {
    var cs := Commands(plan, f);
    GreedyWrites(plan, basis, f, 0, Miss(0));
    assert f[0..] == f;
    assert DeltaBytes(plan, f) == NetInt(DELTA_MAGIC, 4) + (EncodeAll(cs) + [0] + []);
    InterpretBody(basis, EncodeAll(cs) + [0] + []);
    RunEncoded(basis, cs, []);
  }

  // ---------- accounting ----------

  /** The bytes of the file a log covers and the bytes its commands take. */
  function Carried(log: seq<LogEntry>): int {
    if log == [] then 0 else log[0].len + Carried(log[1..])
  }

  function Headers(log: seq<LogEntry>): int {
    if log == [] then 0 else log[0].header + Headers(log[1..])
  }

  function LitBytes(log: seq<LogEntry>): int {
    if log == [] then 0 else (if log[0].LitEntry? then log[0].len else 0) + LitBytes(log[1..])
  }

  ghost predicate NoneEmpty(log: seq<LogEntry>) {
    forall i :: 0 <= i < |log| ==> log[i].len > 0
  }

  lemma {:induction false} CarriedAppend(log: seq<LogEntry>, e: LogEntry)
    ensures Carried(log + [e]) == Carried(log) + e.len
    ensures Headers(log + [e]) == Headers(log) + e.header
    ensures LitBytes(log + [e]) == LitBytes(log) + if e.LitEntry? then e.len else 0
  {
    if log == [] {
      assert ([] + [e])[1..] == [];
    } else {
      CarriedAppend(log[1..], e);
      assert (log + [e])[1..] == log[1..] + [e];
    }
  }

  /** The literals of a log, or its copies. */
  ghost function Only(log: seq<LogEntry>, literal: bool): seq<LogEntry> {
    if log == [] then []
    else
      var e := log[|log| - 1];
      var front := Only(log[..|log| - 1], literal);
      if e.LitEntry? == literal then front + [e] else front
  }

  /** Each kind of command is counted apart: how many there are, the bytes they stand for and
    * the bytes of their headers.
    */
  lemma {:induction false} StatsApart(log: seq<LogEntry>)
    ensures var t, lits, copies := Stats(log), Only(log, true), Only(log, false);
      && t.litCmds == |lits| && t.litBytes == Carried(lits) && t.litCmdBytes == Headers(lits)
      && t.copyCmds == |copies| && t.copyBytes == Carried(copies) && t.copyCmdBytes == Headers(copies)
  {
    if log != [] {
      var front, e := log[..|log| - 1], log[|log| - 1];
      StatsApart(front);
      CarriedAppend(Only(front, e.LitEntry?), e);
    }
  }

  /** The counters kept while running agree with the log as a whole. */
  lemma {:induction false} StatsTotal(log: seq<LogEntry>)
    ensures var t := Stats(log);
      && t.litBytes + t.copyBytes == Carried(log) && t.litBytes == LitBytes(log)
      && t.litCmdBytes + t.copyCmdBytes == Headers(log) && t.litCmds + t.copyCmds == |log|
  {
    if log != [] {
      var front, e := log[..|log| - 1], log[|log| - 1];
      assert log == front + [e];
      StatsTotal(front);
      CarriedAppend(front, e);
    }
  }

  ghost predicate Covers(cs: seq<Cmd>, n: int) {
    Carried(LogOf(cs)) == n && NoneEmpty(LogOf(cs))
  }

  lemma CoversCons(c: Cmd, rest: seq<Cmd>, n: int)
    requires EntryOf(c).len > 0 && Covers(rest, n)
    ensures Covers([c] + rest, n + EntryOf(c).len)
  {
    assert ([c] + rest)[1..] == rest;
    assert LogOf([c] + rest) == [EntryOf(c)] + LogOf(rest);
    assert ([EntryOf(c)] + LogOf(rest))[1..] == LogOf(rest);
  }

  lemma FlushCovers(f: seq<Byte>, p: nat, last: Last, rest: seq<Cmd>, n: int)
    requires last.len <= p <= |f| && (last.Match? ==> last.len > 0) && Covers(rest, n)
    ensures Covers(Flush(f, p, last) + rest, n + last.len)
  {
    var cs := Flush(f, p, last);
    if cs == [] {
      assert cs + rest == rest;
    } else {
      CoversCons(cs[0], rest, n);
      assert cs == [cs[0]];
    }
  }

  lemma {:induction false} GreedyCovers(plan: Plan, f: seq<Byte>, p: nat, last: Last)
    requires last.len <= p <= |f| && (last.Match? ==> last.len > 0)
    ensures Covers(Greedy(plan, f, p, last), |f| - (p - last.len))
    decreases |f| - p
  {
    if p == |f| {
      FlushCovers(f, p, last, [], 0);
      assert Flush(f, p, last) + [] == Flush(f, p, last);
    } else {
      var s := Decide(plan, f, p, last);
      GreedyCovers(plan, f, p + s.advance, s.last);
      if s.flushed {
        FlushCovers(f, p, last, Greedy(plan, f, p + s.advance, s.last), |f| - p);
      }
    }
  }

  lemma {:induction false} EncodedSize(cs: seq<Cmd>)
    requires AllEncodable(cs)
    ensures |EncodeAll(cs)| == LitBytes(LogOf(cs)) + Headers(LogOf(cs))
  {
    if cs != [] {
      EncodedSize(cs[1..]);
      assert LogOf(cs)[1..] == LogOf(cs[1..]);
    }
  }

  /** Accounting: literal and copied bytes cover the file exactly, no command is
    * empty, and the delta is five bytes longer than its literals and its command
    * bytes.
    */
  lemma DeltaAccounts(plan: Plan, f: seq<Byte>)
    requires Fits(plan, f)
    ensures var t := Stats(LogOf(Commands(plan, f)));
      t.litBytes + t.copyBytes == |f| && |DeltaBytes(plan, f)| == 5 + t.litBytes + t.litCmdBytes + t.copyCmdBytes
    ensures NoneEmpty(LogOf(Commands(plan, f)))
  {
    GreedyCovers(plan, f, 0, Miss(0));
    GreedyEncodable(plan, f, 0, Miss(0));
    EncodedSize(Commands(plan, f));
    StatsTotal(LogOf(Commands(plan, f)));
  }

  // ---------- what a job part of the way through still owes ----------

  /** The bytes and the log entries still to come. */
  datatype Debt = Debt(bytes: seq<Byte>, log: seq<LogEntry>)

  ghost function DebtOf(cs: seq<Cmd>): Debt
    requires AllEncodable(cs)
  {
    Debt(EncodeAll(cs) + [0], LogOf(cs))
  }

  ghost function DebtAt(plan: Plan, f: seq<Byte>, p: nat, last: Last): Debt
    requires Fits(plan, f) && last.len <= p <= |f| && LastEncodable(plan, last)
  {
    GreedyEncodable(plan, f, p, last);
    DebtOf(Greedy(plan, f, p, last))
  }

  /** The quantifier only keeps the definition folded until OwedUnfold opens it. */
  ghost predicate OwedIs(d: Debt, plan: Plan, f: seq<Byte>, p: nat, last: Last)
    requires Fits(plan, f) && last.len <= p <= |f| && LastEncodable(plan, last)
  {
    forall k {:trigger Open(k)} :: Open(k) ==> d == DebtAt(plan, f, p, last)
  }

  /** What a scan at p still owes. */
  ghost function Owed(plan: Plan, f: seq<Byte>, p: nat, last: Last): Debt
    requires Fits(plan, f) && last.len <= p <= |f| && LastEncodable(plan, last)
  {
    assert OwedIs(DebtAt(plan, f, p, last), plan, f, p, last);
    var d :| OwedIs(d, plan, f, p, last);
    d
  }

  lemma OwedUnfold(plan: Plan, f: seq<Byte>, p: nat, last: Last)
    requires Fits(plan, f) && last.len <= p <= |f| && LastEncodable(plan, last)
    ensures Owed(plan, f, p, last) == DebtAt(plan, f, p, last)
  {
    assert Open(0);
  }

  /** A job that has queued sent, logged log and is scanning at p with last being
    * extended, still owes exactly the rest of the delta.
    */
  ghost predicate OnTrack(plan: Plan, f: seq<Byte>, whole: Debt, sent: seq<Byte>, log: seq<LogEntry>, p: nat,
                          last: Last)
    requires Fits(plan, f)
  {
    && last.len <= p <= |f| && LastEncodable(plan, last)
    && sent + Owed(plan, f, p, last).bytes == whole.bytes
    && log + Owed(plan, f, p, last).log == whole.log
  }

  /** The delta and the log of the whole file. */
  ghost function WholeDelta(plan: Plan, f: seq<Byte>): Debt
    requires Fits(plan, f)
  {
    Debt(DeltaBytes(plan, f), LogOf(Commands(plan, f)))
  }

  lemma OnTrackStart(plan: Plan, f: seq<Byte>)
    requires Fits(plan, f)
    ensures OnTrack(plan, f, WholeDelta(plan, f), NetInt(DELTA_MAGIC, 4), [], 0, Miss(0))
  {
    GreedyEncodable(plan, f, 0, Miss(0));
    OwedUnfold(plan, f, 0, Miss(0));
    var magic, body := NetInt(DELTA_MAGIC, 4), EncodeAll(Commands(plan, f));
    assert magic + (body + [0]) == magic + body + [0];
    assert [] + LogOf(Commands(plan, f)) == LogOf(Commands(plan, f));
  }

  ghost function EncodeFlush(flush: seq<Cmd>): seq<Byte>
    requires |flush| <= 1 && AllEncodable(flush)
  {
    if flush == [] then [] else Encode(flush[0])
  }

  ghost function LogFlush(flush: seq<Cmd>): seq<LogEntry> {
    if flush == [] then [] else [EntryOf(flush[0])]
  }

  lemma FlushOfMatch(f: seq<Byte>, p: nat, pos: nat, len: nat)
    requires len <= p <= |f| && AllEncodable(Flush(f, p, Match(pos, len)))
    ensures pos < MAX_LONG && len < MAX_LONG
    ensures EncodeFlush(Flush(f, p, Match(pos, len))) == CopyHeader(pos, len)
    ensures LogFlush(Flush(f, p, Match(pos, len))) == [EntryOf(CopyCmd(pos, len))]
  {
    assert Encodable(Flush(f, p, Match(pos, len))[0]);
  }

  lemma FlushOfMiss(f: seq<Byte>, p: nat, len: nat)
    requires 0 < len <= p <= |f| && AllEncodable(Flush(f, p, Miss(len)))
    ensures len < MAX_INT
    ensures EncodeFlush(Flush(f, p, Miss(len))) == LiteralHeader(len) + f[p - len..p]
    ensures LogFlush(Flush(f, p, Miss(len))) == [LitEntry(len, 1 + IntLen(len))]
  {
    assert Encodable(Flush(f, p, Miss(len))[0]);
  }

  lemma DebtFlushed(flush: seq<Cmd>, rest: seq<Cmd>)
    requires |flush| <= 1 && AllEncodable(flush) && AllEncodable(rest) && AllEncodable(flush + rest)
    ensures DebtOf(flush + rest) == Debt(EncodeFlush(flush) + DebtOf(rest).bytes, LogFlush(flush) + DebtOf(rest).log)
  {
    if flush == [] {
      assert flush + rest == rest;
    } else {
      var c := flush[0];
      assert flush == [c];
      EncodeCons(c, rest);
      Regroup(Encode(c), EncodeAll(rest), [0]);
    }
  }

  lemma EncodeCons(c: Cmd, rest: seq<Cmd>)
    requires Encodable(c) && AllEncodable(rest) && AllEncodable([c] + rest)
    ensures EncodeAll([c] + rest) == Encode(c) + EncodeAll(rest)
    ensures LogOf([c] + rest) == [EntryOf(c)] + LogOf(rest)
  {
    assert ([c] + rest)[1..] == rest;
  }

  lemma Regroup<T>(a: seq<T>, b: seq<T>, c: seq<T>)
    ensures a + (b + c) == a + b + c && a + ([] + c) == a + c
  {
  }

  /** What a decision flushes is the difference in what is owed. */
  lemma OwedStep(plan: Plan, f: seq<Byte>, p: nat, last: Last)
    requires Fits(plan, f) && last.len <= p < |f| && LastEncodable(plan, last)
    ensures AllEncodable(Flush(f, p, last))
    ensures var s, flush := Decide(plan, f, p, last), Flush(f, p, last);
      && LastEncodable(plan, s.last)
      && Owed(plan, f, p, last).bytes ==
         (if s.flushed then EncodeFlush(flush) else []) + Owed(plan, f, p + s.advance, s.last).bytes
      && Owed(plan, f, p, last).log ==
         (if s.flushed then LogFlush(flush) else []) + Owed(plan, f, p + s.advance, s.last).log
  {
    var s := Decide(plan, f, p, last);
    GreedyEncodable(plan, f, p, last);
    GreedyEncodable(plan, f, p + s.advance, s.last);
    var flush, rest := Flush(f, p, last), Greedy(plan, f, p + s.advance, s.last);
    GreedyStep(plan, f, p, last);
    OwedCommands(plan, f, p, last, Prepend(s, flush, rest));
    OwedCommands(plan, f, p + s.advance, s.last, rest);
    DebtPrepended(s, flush, rest);
  }

  lemma OwedCommands(plan: Plan, f: seq<Byte>, p: nat, last: Last, cs: seq<Cmd>)
    requires Fits(plan, f) && last.len <= p <= |f| && LastEncodable(plan, last) && cs == Greedy(plan, f, p, last)
    ensures AllEncodable(cs) && Owed(plan, f, p, last).bytes == DebtOf(cs).bytes
    ensures Owed(plan, f, p, last).log == DebtOf(cs).log
  {
    GreedyEncodable(plan, f, p, last);
    OwedUnfold(plan, f, p, last);
  }

  lemma DebtPrepended(s: Step, flush: seq<Cmd>, rest: seq<Cmd>)
    requires |flush| <= 1 && AllEncodable(flush) && AllEncodable(rest) && AllEncodable(Prepend(s, flush, rest))
    ensures DebtOf(Prepend(s, flush, rest)).bytes == (if s.flushed then EncodeFlush(flush) else []) + DebtOf(rest).bytes
    ensures DebtOf(Prepend(s, flush, rest)).log == (if s.flushed then LogFlush(flush) else []) + DebtOf(rest).log
  {
    if s.flushed {
      DebtFlushed(flush, rest);
    } else {
      assert [] + DebtOf(rest).bytes == DebtOf(rest).bytes && [] + DebtOf(rest).log == DebtOf(rest).log;
    }
  }

  /** Following the matcher's decision, and queueing what it flushes, stays on track. */
  lemma OnTrackMatch(plan: Plan, f: seq<Byte>, whole: Debt, sent: seq<Byte>, log: seq<LogEntry>, p: nat, last: Last,
                     where: nat, len: nat)
    requires Fits(plan, f) && OnTrack(plan, f, whole, sent, log, p, last) && p < |f|
    requires plan.lookup(Window(f, plan.blockLen, p)) == Some(where) && len == |Window(f, plan.blockLen, p)|
    ensures AllEncodable(Flush(f, p, last)) && len > 0
    ensures var flush := Flush(f, p, last);
      if last.Match? && last.pos + last.len == where then
        OnTrack(plan, f, whole, sent, log, p + len, Match(last.pos, last.len + len))
      else OnTrack(plan, f, whole, sent + EncodeFlush(flush), log + LogFlush(flush), p + len, Match(where, len))
  {
    OwedStep(plan, f, p, last);
    var s := Decide(plan, f, p, last);
    assert s.advance == len && s.flushed == !(last.Match? && last.pos + last.len == where);
    Regroup(sent, EncodeFlush(Flush(f, p, last)), Owed(plan, f, p + len, s.last).bytes);
    Regroup(log, LogFlush(Flush(f, p, last)), Owed(plan, f, p + len, s.last).log);
  }

  lemma OnTrackMiss(plan: Plan, f: seq<Byte>, whole: Debt, sent: seq<Byte>, log: seq<LogEntry>, p: nat, last: Last)
    requires Fits(plan, f) && OnTrack(plan, f, whole, sent, log, p, last) && p < |f|
    requires plan.lookup(Window(f, plan.blockLen, p)) == None
    ensures AllEncodable(Flush(f, p, last))
    ensures var flush := Flush(f, p, last);
      if last.Match? || last.len >= plan.bufLen then
        OnTrack(plan, f, whole, sent + EncodeFlush(flush), log + LogFlush(flush), p + 1, Miss(1))
      else OnTrack(plan, f, whole, sent, log, p + 1, Miss(last.len + 1))
  {
    OwedStep(plan, f, p, last);
    var s := Decide(plan, f, p, last);
    assert s.advance == 1 && s.flushed == (last.Match? || last.len >= plan.bufLen);
    Regroup(sent, EncodeFlush(Flush(f, p, last)), Owed(plan, f, p + 1, s.last).bytes);
    Regroup(log, LogFlush(Flush(f, p, last)), Owed(plan, f, p + 1, s.last).log);
  }

  /** At the end of the file the last flush leaves only the end command. */
  lemma OnTrackEnd(plan: Plan, f: seq<Byte>, whole: Debt, sent: seq<Byte>, log: seq<LogEntry>, last: Last)
    requires Fits(plan, f) && OnTrack(plan, f, whole, sent, log, |f|, last)
    ensures AllEncodable(Flush(f, |f|, last))
    ensures sent + EncodeFlush(Flush(f, |f|, last)) + [0] == whole.bytes
    ensures log + LogFlush(Flush(f, |f|, last)) == whole.log
  {
    var flush := Flush(f, |f|, last);
    GreedyEncodable(plan, f, |f|, last);
    OwedUnfold(plan, f, |f|, last);
    assert flush + [] == flush;
    DebtFlushed(flush, []);
    Regroup(sent, EncodeFlush(flush), [0]);
  }
}
