/** What a delta stream means: the reference interpreter that the resumable
  * patch job (patch.c) is proved against, total on malformed streams too.
  */
module PatchSpec {
  import opened Codec

  datatype Result = Done | Blocked | Running | InputEnded | BadMagic | Corrupt | Aborted | InternalError

  /** A command that was emitted or executed, with the bytes it took in the stream. */
  datatype LogEntry = LitEntry(len: int, header: nat) | CopyEntry(pos: int, len: int, header: nat)

  /** The encoding statistics both jobs keep. */
  datatype Tally = Tally(litCmds: int, litBytes: int, litCmdBytes: int,
                         copyCmds: int, copyBytes: int, copyCmdBytes: int)
  {
    function Count(e: LogEntry): Tally {
      match e
      case LitEntry(len, header) =>
        this.(litCmds := litCmds + 1, litBytes := litBytes + len, litCmdBytes := litCmdBytes + header)
      case CopyEntry(pos, len, header) =>
        this.(copyCmds := copyCmds + 1, copyBytes := copyBytes + len, copyCmdBytes := copyCmdBytes + header)
    }
  }

  const ZERO_TALLY := Tally(0, 0, 0, 0, 0, 0)

  function Stats(log: seq<LogEntry>): Tally {
    if log == [] then ZERO_TALLY else Stats(log[..|log| - 1]).Count(log[|log| - 1])
  }

  lemma StatsAppend(log: seq<LogEntry>, e: LogEntry)
    ensures Stats(log + [e]) == Stats(log).Count(e)
  {
    assert (log + [e])[..|log|] == log;
  }

  ghost predicate TalliesIs(ok: bool, t: Tally, log: seq<LogEntry>) {
    forall k {:trigger Open(k)} :: Open(k) ==> ok == (t == Stats(log))
  }

  /** t is Stats(log); folded until TalliesUnfold opens it. */
  ghost predicate Tallies(t: Tally, log: seq<LogEntry>) {
    assert TalliesIs(t == Stats(log), t, log);
    var ok :| TalliesIs(ok, t, log);
    ok
  }

  lemma TalliesUnfold(t: Tally, log: seq<LogEntry>)
    ensures Tallies(t, log) == (t == Stats(log))
  {
    assert Open(0);
  }

  lemma TalliesStart()
    ensures Tallies(ZERO_TALLY, [])
  {
    TalliesUnfold(ZERO_TALLY, []);
  }

  lemma TalliesAppend(t: Tally, log: seq<LogEntry>, e: LogEntry)
    requires Tallies(t, log)
    ensures Tallies(t.Count(e), log + [e])
  {
    TalliesUnfold(t, log);
    StatsAppend(log, e);
    TalliesUnfold(t.Count(e), log + [e]);
  }

  function EntryOf(c: Cmd): LogEntry {
    match c
    case LiteralCmd(data) => LitEntry(|data|, 1 + IntLen(|data|))
    case CopyCmd(pos, len) => CopyEntry(pos, len, 1 + IntLen(pos) + IntLen(len))
  }

  function LogOf(cs: seq<Cmd>): (log: seq<LogEntry>)
    ensures |log| == |cs| && forall i :: 0 <= i < |cs| ==> log[i] == EntryOf(cs[i])
  {
    if cs == [] then [] else [EntryOf(cs[0])] + LogOf(cs[1..])
  }

  /** Everything a patch job does: the bytes it writes, the commands it runs and
    * how it ends. Ending in Blocked means that it waits for ever, because the stream
    * was cut off; InternalError is the exit of rs_job_iter for want of progress.
    */
  datatype Outcome = Outcome(out: seq<Byte>, log: seq<LogEntry>, result: Result)

  function Ends(r: Result): Outcome {
    Outcome([], [], r)
  }

  function After(out: seq<Byte>, log: seq<LogEntry>, o: Outcome): Outcome {
    Outcome(out + o.out, log + o.log, o.result)
  }

  /** The whole stream, from its magic number on. */
  ghost function Interpret(basis: seq<Byte>, s: seq<Byte>): Outcome {
    if |s| < 4 then Ends(if s == [] then InputEnded else Blocked)
    else if ToInt32(Unsigned(s[..4])) != DELTA_MAGIC then Ends(BadMagic)
    else RunCommands(basis, s[4..])
  }

  ghost function RunCommands(basis: seq<Byte>, s: seq<Byte>): Outcome
    decreases |s|
  {
    if s == [] then Ends(InputEnded)
    else
      var e := OfParams(basis, Proto(s[0]), s[1..]);
      Then(e, RunCommands(basis, s[1 + e.used..]))
  }

  /** What one command does with the stream s after its command byte: used
    * bytes of s are consumed, and Running means that the next command follows.
    */
  datatype Effect = Effect(out: seq<Byte>, log: seq<LogEntry>, used: nat, result: Result)

  /** A stream that stops inside the parameters leaves the job blocked. */
  ghost function OfParams(basis: seq<Byte>, e: Entry, s: seq<Byte>): (f: Effect)
    ensures f.used <= |s|
  {
    var n := e.len1 + e.len2;
    if |s| < n then Effect([], [], 0, if s == [] then InputEnded else Blocked)
    else
      var param1 := if e.len1 == 0 then e.immediate else Param(s[..e.len1]);
      var f := OfRun(basis, e, param1, Param(s[e.len1..n]), s[n..]);
      f.(used := n + f.used)
  }

  ghost function OfRun(basis: seq<Byte>, e: Entry, param1: int, param2: int, s: seq<Byte>): (f: Effect)
    ensures f.used <= |s|
  {
    match e.kind
    case End => Effect([], [], 0, Done)
    case Literal =>
      if param1 < 0 then Effect([], [], 0, Corrupt)
      else OfLiteral(ToInt32(param1), s).(log := [LitEntry(param1, 1 + e.len1)])
    case Copy =>
      if param2 < 0 || param1 < 0 then Effect([], [], 0, Corrupt)
      else OfCopy(basis, param1, param2, s).(log := [CopyEntry(param1, param2, 1 + e.len1 + e.len2)])
    case Reserved => Effect([], [], 0, Corrupt)
  }

  /** The length was cut to a C int on its way into the tube; a negative one
    * trips the assertion in rs_tube_catchup_copy.
    */
  ghost function OfLiteral(n: int, s: seq<Byte>): (f: Effect)
    ensures f.used <= |s|
  {
    if n < 0 then Effect([], [], 0, Aborted)
    else if n > |s| then Effect(s, [], |s|, InputEnded)
    else Effect(s[..n], [], n, Running)
  }

  /** An empty copy is never over: it takes no input and writes no output. With more of
    * the stream behind it that is an internal error, at the end of the stream a wait.
    */
  ghost function OfCopy(basis: seq<Byte>, pos: nat, len: nat, s: seq<Byte>): (f: Effect)
    ensures f.used == 0
  {
    if len == 0 then Effect([], [], 0, if s == [] then Blocked else InternalError)
    else if pos + len <= |basis| then Effect(basis[pos..pos + len], [], 0, Running)
    else Effect(if pos < |basis| then basis[pos..] else [], [], 0, InputEnded)
  }

  /** The outcome of the command in hand, when k is the outcome of the rest. */
  ghost function Then(e: Effect, k: Outcome): Outcome {
    if e.result.Running? then After(e.out, e.log, k) else Outcome(e.out, e.log, e.result)
  }

  /** Where a job is inside a stream: before the magic number, before a command, before its parameters,
    * about to execute it, or with a copy still to serve.
    */
  datatype Stage = Magic | Command | Arguments(e: Entry)
    | Execute(e: Entry, param1: int, param2: int) | CopyFrom(pos: nat, len: nat)

  ghost function EffectOf(basis: seq<Byte>, stage: Stage, s: seq<Byte>): (f: Effect)
    requires stage != Magic && stage != Command
    ensures f.used <= |s|
  {
    match stage
    case Arguments(e) => OfParams(basis, e, s)
    case Execute(e, param1, param2) => OfRun(basis, e, param1, param2, s)
    case CopyFrom(pos, len) => OfCopy(basis, pos, len, s)
  }

  ghost function RestDefined(basis: seq<Byte>, stage: Stage, s: seq<Byte>): Outcome {
    if stage == Magic then Interpret(basis, s)
    else if stage == Command then RunCommands(basis, s)
    else
      var f := EffectOf(basis, stage, s);
      Then(f, RunCommands(basis, s[f.used..]))
  }

  /** Mentioned where a folded definition is to be used. */
  ghost predicate Open(k: nat) { true }

  /** The quantifier only keeps the definition folded until RestUnfold opens it. */
  ghost predicate RestIs(o: Outcome, basis: seq<Byte>, stage: Stage, s: seq<Byte>) {
    forall k {:trigger Open(k)} :: Open(k) ==> o == RestDefined(basis, stage, s)
  }

  /** The outcome of the unread stream s from a stage on. */
  ghost function Rest(basis: seq<Byte>, stage: Stage, s: seq<Byte>): Outcome {
    assert RestIs(RestDefined(basis, stage, s), basis, stage, s);
    var o :| RestIs(o, basis, stage, s);
    o
  }

  lemma RestUnfold(basis: seq<Byte>, stage: Stage, s: seq<Byte>)
    ensures Rest(basis, stage, s) == RestDefined(basis, stage, s)
  {
    assert Open(0);
  }

  lemma RestStage(basis: seq<Byte>, stage: Stage, s: seq<Byte>)
    requires stage != Magic && stage != Command
    ensures Rest(basis, stage, s) ==
            Then(EffectOf(basis, stage, s), Rest(basis, Command, s[EffectOf(basis, stage, s).used..]))
  {
    RestUnfold(basis, stage, s);
    RestUnfold(basis, Command, s[EffectOf(basis, stage, s).used..]);
  }

  /** The outcome when a copy ending at offset at of the stream is still to go
    * through the tube: cut when its length was negative.
    */
  ghost function Later(basis: seq<Byte>, stage: Stage, source: seq<Byte>, at: int, cut: bool): Outcome {
    if cut || at < 0 then Ends(Aborted)
    else if at > |source| then Ends(InputEnded)
    else Rest(basis, stage, source[at..])
  }

  lemma StepMagic(basis: seq<Byte>, s: seq<Byte>)
    ensures |s| < 4 ==> Rest(basis, Magic, s) == Ends(if s == [] then InputEnded else Blocked)
    ensures |s| >= 4 && ToInt32(Param(s[..4])) != DELTA_MAGIC ==> Rest(basis, Magic, s) == Ends(BadMagic)
    ensures |s| >= 4 && ToInt32(Param(s[..4])) == DELTA_MAGIC ==> Rest(basis, Magic, s) == Rest(basis, Command, s[4..])
  {
    RestUnfold(basis, Magic, s);
    if |s| >= 4 {
      Int32OfParam(s[..4]);
      RestUnfold(basis, Command, s[4..]);
    }
  }

  /** The 64-bit value read from four bytes, cut to an int. */
  lemma Int32OfParam(s: seq<Byte>)
    requires |s| == 4
    ensures ToInt32(Param(s)) == ToInt32(Unsigned(s))
  {
    Pow256Values();
  }

  lemma StepCommand(basis: seq<Byte>, s: seq<Byte>)
    ensures s == [] ==> Rest(basis, Command, s) == Ends(InputEnded)
    ensures s != [] ==> Rest(basis, Command, s) == Rest(basis, Arguments(Proto(s[0])), s[1..])
  {
    RestUnfold(basis, Command, s);
    if s != [] {
      var e := Proto(s[0]);
      RestUnfold(basis, Arguments(e), s[1..]);
      var f := OfParams(basis, e, s[1..]);
      assert s[1..][f.used..] == s[1 + f.used..];
    }
  }

  /** A stream that stops inside the parameters leaves the job blocked, unless it
    * stops right before them.
    */
  lemma StepShortParams(basis: seq<Byte>, e: Entry, s: seq<Byte>)
    requires |s| < e.len1 + e.len2
    ensures Rest(basis, Arguments(e), s) == Ends(if s == [] then InputEnded else Blocked)
  {
    RestStage(basis, Arguments(e), s);
  }

  /** A command without parameters runs on its immediate value. */
  lemma StepNoParams(basis: seq<Byte>, e: Entry, param2: int, s: seq<Byte>)
    requires ValidEntry(e) && e.len1 == 0
    ensures Rest(basis, Arguments(e), s) == Rest(basis, Execute(e, e.immediate, param2), s)
  {
    RestStage(basis, Arguments(e), s);
    RestStage(basis, Execute(e, e.immediate, param2), s);
    assert s[0..] == s;
    assert OfRun(basis, e, e.immediate, param2, s) == OfRun(basis, e, e.immediate, Param(s[0..0]), s);
  }

  /** After the parameters have been taken off the stream the command executes. */
  lemma StepParams(basis: seq<Byte>, e: Entry, a: seq<Byte>, b: seq<Byte>, param1: int, param2: int, s: seq<Byte>)
    requires ValidEntry(e) && e.len1 > 0 && |a| == e.len1 && |b| == e.len2
    requires param1 == Param(a) && (e.len2 > 0 ==> param2 == Param(b))
    ensures Rest(basis, Arguments(e), a + b + s) == Rest(basis, Execute(e, param1, param2), s)
  {
    var params := a + b;
    RestStage(basis, Arguments(e), params + s);
    RestStage(basis, Execute(e, param1, param2), s);
    SliceConcat(a, b);
    ParamsRead(basis, e, params, s);
    var f := OfRun(basis, e, param1, param2, s);
    SecondUnused(basis, e, param1, param2, Param(b), s);
    assert (params + s)[|params| + f.used..] == s[f.used..];
  }

  lemma SecondUnused(basis: seq<Byte>, e: Entry, param1: int, param2: int, other: int, s: seq<Byte>)
    requires ValidEntry(e) && (e.len2 > 0 ==> param2 == other)
    ensures OfRun(basis, e, param1, param2, s) == OfRun(basis, e, param1, other, s)
  {
  }

  lemma StepStop(basis: seq<Byte>, e: Entry, param1: int, param2: int, s: seq<Byte>)
    ensures e.kind.End? ==> Rest(basis, Execute(e, param1, param2), s) == Ends(Done)
    ensures e.kind.Reserved? || (e.kind.Literal? && param1 < 0) || (e.kind.Copy? && (param1 < 0 || param2 < 0))
      ==> Rest(basis, Execute(e, param1, param2), s) == Ends(Corrupt)
  {
    RestStage(basis, Execute(e, param1, param2), s);
  }

  /** A literal writes what there is of it; then the stream goes on, if it was all there. */
  lemma StepLiteral(basis: seq<Byte>, e: Entry, param1: int, param2: int, source: seq<Byte>, at: nat)
    requires e.kind.Literal? && param1 >= 0 && at <= |source|
    ensures var n := ToInt32(param1);
      Rest(basis, Execute(e, param1, param2), source[at..])
      == After(Clip(source[at..], n), [LitEntry(param1, 1 + e.len1)], Later(basis, Command, source, at + n, n < 0))
  {
    var n, s := ToInt32(param1), source[at..];
    RestStage(basis, Execute(e, param1, param2), s);
    if 0 <= n <= |s| {
      assert source[at + n..] == s[n..];
    }
  }

  function Clip(s: seq<Byte>, n: int): seq<Byte> {
    if n <= 0 then [] else if n <= |s| then s[..n] else s
  }

  lemma StepCopy(basis: seq<Byte>, e: Entry, param1: int, param2: int, s: seq<Byte>)
    requires e.kind.Copy? && param1 >= 0 && param2 >= 0
    ensures Rest(basis, Execute(e, param1, param2), s)
         == After([], [CopyEntry(param1, param2, 1 + e.len1 + e.len2)], Rest(basis, CopyFrom(param1, param2), s))
  {
    var f, entry := OfCopy(basis, param1, param2, s), CopyEntry(param1, param2, 1 + e.len1 + e.len2);
    var k := Rest(basis, Command, s[f.used..]);
    OfRunCopy(basis, e, param1, param2, s);
    assert Rest(basis, Execute(e, param1, param2), s) == Then(f.(log := [entry]), k) by {
      RestStage(basis, Execute(e, param1, param2), s);
    }
    assert Rest(basis, CopyFrom(param1, param2), s) == Then(f, k) by {
      RestStage(basis, CopyFrom(param1, param2), s);
    }
    LogFirst(f, entry, k);
  }

  lemma OfRunCopy(basis: seq<Byte>, e: Entry, param1: int, param2: int, s: seq<Byte>)
    requires e.kind.Copy? && param1 >= 0 && param2 >= 0
    ensures OfRun(basis, e, param1, param2, s)
         == OfCopy(basis, param1, param2, s).(log := [CopyEntry(param1, param2, 1 + e.len1 + e.len2)])
  {
  }

  lemma LogFirst(f: Effect, entry: LogEntry, k: Outcome)
    requires f.log == []
    ensures Then(f.(log := [entry]), k) == After([], [entry], Then(f, k))
  {
    assert [entry] + ([] + k.log) == [entry] + k.log;
  }

  lemma StepCopyStop(basis: seq<Byte>, pos: nat, len: nat, s: seq<Byte>)
    ensures len == 0 ==> Rest(basis, CopyFrom(pos, len), s) == Ends(if s == [] then Blocked else InternalError)
    ensures len > 0 && pos >= |basis| ==> Rest(basis, CopyFrom(pos, len), s) == Ends(InputEnded)
  {
    RestStage(basis, CopyFrom(pos, len), s);
  }

  lemma StepCopyServed(basis: seq<Byte>, pos: nat, len: nat, n: nat, s: seq<Byte>)
    requires 1 <= n <= len && pos + n <= |basis|
    ensures Rest(basis, CopyFrom(pos, len), s)
         == After(basis[pos..pos + n], [], Rest(basis, if n == len then Command else CopyFrom(pos + n, len - n), s))
  {
    RestStage(basis, CopyFrom(pos, len), s);
    assert s[0..] == s;
    if n < len {
      RestStage(basis, CopyFrom(pos + n, len - n), s);
      CopySplit(basis, pos, len, n, s, Rest(basis, Command, s));
    }
  }

  /** A copy may be served in pieces. */
  lemma CopySplit(basis: seq<Byte>, pos: nat, len: nat, n: nat, s: seq<Byte>, k: Outcome)
    requires 1 <= n < len && pos + n <= |basis|
    ensures Then(OfCopy(basis, pos, len, s), k)
         == After(basis[pos..pos + n], [], Then(OfCopy(basis, pos + n, len - n, s), k))
  {
    var a, b := basis[pos..pos + n], OfCopy(basis, pos + n, len - n, s);
    var end := if pos + len <= |basis| then pos + len else |basis|;
    SliceSplit(basis, pos, pos + n, end);
    assert OfCopy(basis, pos, len, s).out == a + b.out;
    assert a + (b.out + k.out) == (a + b.out) + k.out;
  }

  lemma SliceSplit<T>(s: seq<T>, i: nat, j: nat, k: nat)
    requires i <= j <= k <= |s|
    ensures s[i..k] == s[i..j] + s[j..k]
  {
  }

  /** A command the patch job can run to its end against this basis. */
  ghost predicate Runnable(basis: seq<Byte>, c: Cmd) {
    Encodable(c) && (c.CopyCmd? ==> 0 < c.len && c.pos + c.len <= |basis|)
  }

  ghost predicate AllRunnable(basis: seq<Byte>, cs: seq<Cmd>) {
    forall i :: 0 <= i < |cs| ==> Runnable(basis, cs[i])
  }

  ghost function Apply(basis: seq<Byte>, c: Cmd): seq<Byte>
    requires Runnable(basis, c)
  {
    match c
    case LiteralCmd(data) => data
    case CopyCmd(pos, len) => basis[pos..pos + len]
  }

  ghost function ApplyAll(basis: seq<Byte>, cs: seq<Cmd>): seq<Byte>
    requires AllRunnable(basis, cs)
  {
    if cs == [] then [] else Apply(basis, cs[0]) + ApplyAll(basis, cs[1..])
  }

  /** The codec round trip. Running the encoding of any list of runnable
    * commands runs exactly that list, whatever follows the end command.
    */
  lemma {:induction false} RunEncoded(basis: seq<Byte>, cs: seq<Cmd>, rest: seq<Byte>)
    requires AllRunnable(basis, cs)
    ensures RunCommands(basis, EncodeAll(cs) + [0] + rest) == Outcome(ApplyAll(basis, cs), LogOf(cs), Done)
  {
    if cs == [] {
      assert (EncodeAll(cs) + [0] + rest)[0] == 0;
    } else {
      var tail := EncodeAll(cs[1..]) + [0] + rest;
      assert EncodeAll(cs) + [0] + rest == Encode(cs[0]) + tail;
      RunEncoded(basis, cs[1..], rest);
      RunOneRunnable(basis, cs[0], tail);
    }
  }

  /** What one encoded command does to a job that reaches it, with s behind it. */
  ghost function OfCmd(basis: seq<Byte>, c: Cmd, s: seq<Byte>): Effect {
    match c
    case LiteralCmd(data) => Effect(data, [EntryOf(c)], |data|, Running)
    case CopyCmd(pos, len) => OfCopy(basis, pos, len, s).(log := [EntryOf(c)])
  }

  lemma RunOneEncoded(basis: seq<Byte>, c: Cmd, tail: seq<Byte>)
    requires Encodable(c)
    ensures RunCommands(basis, Encode(c) + tail) == Then(OfCmd(basis, c, tail), RunCommands(basis, tail))
  {
    var s := Encode(c) + tail;
    var n := |Encode(c)| - 1;
    assert s[1..] == Encode(c)[1..] + tail;
    assert s[1 + n..] == tail;
    OneEncoded(basis, c, tail);
  }

  lemma RunOneRunnable(basis: seq<Byte>, c: Cmd, tail: seq<Byte>)
    requires Runnable(basis, c)
    ensures RunCommands(basis, Encode(c) + tail) == After(Apply(basis, c), [EntryOf(c)], RunCommands(basis, tail))
  {
    RunOneEncoded(basis, c, tail);
    OfRunnable(basis, c, tail);
  }

  lemma OfRunnable(basis: seq<Byte>, c: Cmd, s: seq<Byte>)
    requires Runnable(basis, c)
    ensures var f := OfCmd(basis, c, s); f.result == Running && f.out == Apply(basis, c) && f.log == [EntryOf(c)]
  {
  }

  lemma AllRunnableCons(basis: seq<Byte>, cs: seq<Cmd>)
    requires cs != []
    ensures AllRunnable(basis, cs) <==> Runnable(basis, cs[0]) && AllRunnable(basis, cs[1..])
  {
    assert forall i :: 0 < i < |cs| ==> cs[i] == cs[1..][i - 1];
  }

  lemma OneEncoded(basis: seq<Byte>, c: Cmd, tail: seq<Byte>)
    requires Encodable(c)
    ensures OfParams(basis, Proto(Encode(c)[0]), Encode(c)[1..] + tail) ==
            OfCmd(basis, c, tail).(used := |Encode(c)| - 1)
  {
    var s := Encode(c);
    match c
    case LiteralCmd(data) =>
      var w := IntLen(|data|);
      assert s == [0x41 + WidthIndex(w)] + NetInt(|data|, w) + data;
      OneLiteral(basis, data, tail, s, w);
    case CopyCmd(pos, len) =>
      var v, w := IntLen(pos), IntLen(len);
      assert s == [0x45 + 4 * WidthIndex(v) + WidthIndex(w)] + NetInt(pos, v) + NetInt(len, w);
      OneCopy(basis, pos, len, tail, s, v, w);
  }

  lemma MagicInverse(v: nat)
    requires v < MAX_INT
    ensures ToInt32(Unsigned(NetInt(v, 4))) == v
  {
    Pow256Values();
    NetIntInverse(v, 4);
  }

  /** Behind a good magic number the commands are run. */
  lemma InterpretBody(basis: seq<Byte>, body: seq<Byte>)
    ensures Interpret(basis, NetInt(DELTA_MAGIC, 4) + body) == RunCommands(basis, body)
  {
    SliceConcat(NetInt(DELTA_MAGIC, 4), body);
    MagicInverse(DELTA_MAGIC);
  }

  ghost predicate IsEmptyCopy(c: Cmd) {
    c.CopyCmd? && c.len == 0
  }

  /** How running a list of commands and then rest ends: at the first copy that is empty
    * or runs past the basis, if there is one.
    */
  ghost function EndOf(basis: seq<Byte>, cs: seq<Cmd>, rest: seq<Byte>): Result {
    if cs == [] then RunCommands(basis, rest).result
    else if IsEmptyCopy(cs[0]) then if |cs| == 1 && rest == [] then Blocked else InternalError
    else if cs[0].CopyCmd? && cs[0].pos + cs[0].len > |basis| then InputEnded
    else EndOf(basis, cs[1..], rest)
  }

  lemma EncodeAllEmpty(cs: seq<Cmd>)
    requires forall i :: 0 <= i < |cs| ==> Encodable(cs[i])
    ensures EncodeAll(cs) == [] <==> cs == []
  {
  }

  lemma FirstEncoded(cs: seq<Cmd>, rest: seq<Byte>)
    requires cs != [] && forall i :: 0 <= i < |cs| ==> Encodable(cs[i])
    ensures EncodeAll(cs) + rest == Encode(cs[0]) + (EncodeAll(cs[1..]) + rest)
  {
  }

  lemma {:induction false} CommandsEnd(basis: seq<Byte>, cs: seq<Cmd>, rest: seq<Byte>)
    requires forall i :: 0 <= i < |cs| ==> Encodable(cs[i])
    ensures RunCommands(basis, EncodeAll(cs) + rest).result == EndOf(basis, cs, rest)
  {
    if cs == [] {
      assert EncodeAll(cs) + rest == rest;
    } else {
      var tail := EncodeAll(cs[1..]) + rest;
      FirstEncoded(cs, rest);
      CommandsEnd(basis, cs[1..], rest);
      RunOneEncoded(basis, cs[0], tail);
      EncodeAllEmpty(cs[1..]);
    }
  }

  /** How a well-formed stream ends: at its end command exactly when every copy is
    * non-empty and inside the basis; otherwise the first bad copy decides, an empty one
    * with an internal error and one past the basis as an early end of the input. It never
    * waits, whatever follows the end command.
    */
  lemma EncodedEnds(basis: seq<Byte>, cs: seq<Cmd>, rest: seq<Byte>)
    requires forall i :: 0 <= i < |cs| ==> Encodable(cs[i])
    ensures EndsAs(basis, cs, Interpret(basis, NetInt(DELTA_MAGIC, 4) + (EncodeAll(cs) + ([0] + rest))).result)
  {
    var end := [0] + rest;
    InterpretBody(basis, EncodeAll(cs) + end);
    CommandsEnd(basis, cs, end);
    EndAtFirst(basis, cs, end);
    EndCommand(basis, rest);
    StopDecides(basis, cs, EndOf(basis, cs, end));
  }

  ghost predicate EndsAs(basis: seq<Byte>, cs: seq<Cmd>, r: Result) {
    && r in {Done, InternalError, InputEnded}
    && (r == Done <==> AllRunnable(basis, cs))
    && (r == InternalError <==> exists i :: StopsAt(basis, cs, i) && IsEmptyCopy(cs[i]))
    && (r == InputEnded <==> exists i :: StopsAt(basis, cs, i) && !IsEmptyCopy(cs[i]))
  }

  /** The command bytes 1 to 64 are literals of that many bytes, without a length behind them. */
  lemma ShortLiteral(basis: seq<Byte>, k: Byte, data: seq<Byte>, rest: seq<Byte>)
    requires 1 <= k <= 64 && |data| == k
    ensures RunCommands(basis, [k] + data + rest) == After(data, [LitEntry(k, 1)], RunCommands(basis, rest))
  {
    var s := [k] + data + rest;
    assert s[0] == k && s[1..] == data + rest && s[1 + k..] == rest;
    ShortLength(k);
    SliceConcat(data, rest);
    assert OfParams(basis, Proto(k), s[1..]) == Effect(data, [LitEntry(k, 1)], k, Running);
  }

  lemma ShortLength(k: Byte)
    requires 1 <= k <= 64
    ensures Proto(k) == Entry(Literal, k, 0, 0) && ToInt32(k) == k
  {
  }

  /** The command bytes from 0x55 on are reserved. */
  lemma ReservedFails(basis: seq<Byte>, op: Byte, rest: seq<Byte>)
    requires op >= 0x55
    ensures RunCommands(basis, [op] + rest) == Outcome([], [], Corrupt)
  {
    assert ([op] + rest)[0] == op;
  }

  lemma EndCommand(basis: seq<Byte>, rest: seq<Byte>)
    ensures RunCommands(basis, [0] + rest).result == Done
  {
    assert ([0] + rest)[0] == 0;
  }

  lemma StopDecides(basis: seq<Byte>, cs: seq<Cmd>, r: Result)
    requires AllRunnable(basis, cs) ==> r == Done
    requires !AllRunnable(basis, cs) ==>
      exists i :: StopsAt(basis, cs, i) && r == if IsEmptyCopy(cs[i]) then InternalError else InputEnded
    ensures EndsAs(basis, cs, r)
  {
    forall i, j | StopsAt(basis, cs, i) && StopsAt(basis, cs, j) ensures i == j {
      StopsOnce(basis, cs, i, j);
    }
  }

  lemma StopsOnce(basis: seq<Byte>, cs: seq<Cmd>, i: int, j: int)
    requires StopsAt(basis, cs, i) && StopsAt(basis, cs, j)
    ensures i == j
  {
  }

  lemma NotAllRunnable(basis: seq<Byte>, cs: seq<Cmd>, i: int)
    requires StopsAt(basis, cs, i)
    ensures !AllRunnable(basis, cs)
  {
  }

  /** Command i is the first that cannot be run. */
  ghost predicate StopsAt(basis: seq<Byte>, cs: seq<Cmd>, i: int) {
    0 <= i < |cs| && AllRunnable(basis, cs[..i]) && !Runnable(basis, cs[i])
  }

  ghost function StopResult(cs: seq<Cmd>, i: nat, rest: seq<Byte>): Result
    requires i < |cs|
  {
    if !IsEmptyCopy(cs[i]) then InputEnded else if i == |cs| - 1 && rest == [] then Blocked else InternalError
  }

  lemma {:induction false} EndAtFirst(basis: seq<Byte>, cs: seq<Cmd>, rest: seq<Byte>)
    requires forall i :: 0 <= i < |cs| ==> Encodable(cs[i])
    ensures AllRunnable(basis, cs) ==> EndOf(basis, cs, rest) == RunCommands(basis, rest).result
    ensures !AllRunnable(basis, cs) ==>
      exists i :: StopsAt(basis, cs, i) && EndOf(basis, cs, rest) == StopResult(cs, i, rest)
  {
    if cs != [] {
      AllRunnableCons(basis, cs);
      EndAtFirst(basis, cs[1..], rest);
      if !Runnable(basis, cs[0]) {
        assert StopsAt(basis, cs, 0);
      } else if !AllRunnable(basis, cs[1..]) {
        var i :| StopsAt(basis, cs[1..], i) && EndOf(basis, cs[1..], rest) == StopResult(cs[1..], i, rest);
        AllRunnableCons(basis, cs[..i + 1]);
        assert cs[..i + 1][1..] == cs[1..][..i] && cs[..i + 1][0] == cs[0];
        assert StopsAt(basis, cs, i + 1);
      }
    }
  }

  /** A stream cut off inside a command waits exactly when some of its parameters, but not
    * all, are there.
    */
  lemma CutCommand(basis: seq<Byte>, c: Cmd, n: nat)
    requires Encodable(c) && n < |Encode(c)|
    ensures RunCommands(basis, Encode(c)[..n]).result == Blocked <==> 2 <= n < EntryOf(c).header
  {
    var s := Encode(c)[..n];
    if n > 0 {
      assert s[1..] == Encode(c)[1..n];
      match c
      case LiteralCmd(data) => CutLiteral(basis, data, s);
      case CopyCmd(pos, len) =>
        CopyOpcode(IntLen(pos), IntLen(len));
    }
  }

  lemma CutLiteral(basis: seq<Byte>, data: seq<Byte>, s: seq<Byte>)
    requires |data| < MAX_INT && s <= LiteralHeader(|data|) + data && 0 < |s| < |LiteralHeader(|data|)| + |data|
    ensures RunCommands(basis, s).result == Blocked <==> 2 <= |s| < 1 + IntLen(|data|)
  {
    var w := IntLen(|data|);
    LiteralOpcode(w);
    assert s[0] == LiteralHeader(|data|)[0] == 0x41 + WidthIndex(w);
    if |s| >= 1 + w {
      var head, left := s[1..1 + w], s[1 + w..];
      assert s[1..] == head + left;
      assert head == NetInt(|data|, w);
      ParamInverse(|data|);
      CutData(basis, |data|, head, left);
    }
  }

  /** The data of a literal is not all there. */
  lemma CutData(basis: seq<Byte>, len: nat, head: seq<Byte>, left: seq<Byte>)
    requires |left| < len < MAX_INT && |head| > 0 && Param(head) == len
    ensures OfParams(basis, Entry(Literal, 0, |head|, 0), head + left).result == InputEnded
  {
    assert head[..|head|] == head;
    ParamsRead(basis, Entry(Literal, 0, |head|, 0), head, left);
  }

  /** Which cut-off streams wait for ever: those that stop inside the parameters of a
    * command that is reached, and those whose last command is an empty copy and the
    * first that cannot be run. All others end, for every command list and every cut.
    */
  lemma CutOffWaits(basis: seq<Byte>, cs: seq<Cmd>, c: Cmd, n: nat)
    requires (forall i :: 0 <= i < |cs| ==> Encodable(cs[i])) && Encodable(c) && n < |Encode(c)|
    ensures Interpret(basis, NetInt(DELTA_MAGIC, 4) + (EncodeAll(cs) + Encode(c)[..n])).result == Blocked <==>
      || (AllRunnable(basis, cs) && 2 <= n < EntryOf(c).header)
      || (n == 0 && StopsAt(basis, cs, |cs| - 1) && IsEmptyCopy(cs[|cs| - 1]))
  {
    var rest := Encode(c)[..n];
    InterpretBody(basis, EncodeAll(cs) + rest);
    CommandsEnd(basis, cs, rest);
    EndAtFirst(basis, cs, rest);
    CutCommand(basis, c, n);
    CutDecides(basis, cs, rest, EndOf(basis, cs, rest), RunCommands(basis, rest).result);
  }

  lemma CutDecides(basis: seq<Byte>, cs: seq<Cmd>, rest: seq<Byte>, r: Result, last: Result)
    requires AllRunnable(basis, cs) ==> r == last
    requires !AllRunnable(basis, cs) ==> exists i :: StopsAt(basis, cs, i) && r == StopResult(cs, i, rest)
    ensures r == Blocked <==>
      || (AllRunnable(basis, cs) && last == Blocked)
      || (rest == [] && StopsAt(basis, cs, |cs| - 1) && IsEmptyCopy(cs[|cs| - 1]))
  {
    forall i | StopsAt(basis, cs, i) && StopsAt(basis, cs, |cs| - 1) ensures i == |cs| - 1 {
      StopsOnce(basis, cs, i, |cs| - 1);
    }
    if StopsAt(basis, cs, |cs| - 1) {
      NotAllRunnable(basis, cs, |cs| - 1);
    }
  }

  /** So do those that stop inside the magic number, but not an empty stream. */
  lemma CutMagicWaits(basis: seq<Byte>, n: nat)
    requires n < 4
    ensures Interpret(basis, NetInt(DELTA_MAGIC, 4)[..n]).result == Blocked <==> n > 0
  {
  }

  /** The simplest delta that cannot be patched: one empty copy. */
  lemma EmptyCopyFails(basis: seq<Byte>)
    ensures var c := CopyCmd(0, 0);
      Encodable(c) && Interpret(basis, NetInt(DELTA_MAGIC, 4) + (Encode(c) + [0])).result == InternalError
      && Interpret(basis, NetInt(DELTA_MAGIC, 4) + Encode(c)).result == Blocked
  {
    var c := CopyCmd(0, 0);
    InterpretBody(basis, Encode(c) + [0]);
    InterpretBody(basis, Encode(c));
    RunOneEncoded(basis, c, [0]);
    RunOneEncoded(basis, c, []);
    assert Encode(c) + [] == Encode(c);
  }

  lemma OneLiteral(basis: seq<Byte>, data: seq<Byte>, tail: seq<Byte>, s: seq<Byte>, w: nat)
    requires |data| < MAX_INT && w == IntLen(|data|)
    requires s == [0x41 + WidthIndex(w)] + NetInt(|data|, w) + data
    ensures OfParams(basis, Proto(s[0]), s[1..] + tail)
         == Effect(data, [EntryOf(LiteralCmd(data))], |s| - 1, Running)
  {
    var head := NetInt(|data|, w);
    ParamInverse(|data|);
    LiteralOpcode(w);
    LiteralShape(0x41 + WidthIndex(w), head, data, tail);
    LiteralEncoded(basis, data, tail, head);
  }

  lemma OneCopy(basis: seq<Byte>, pos: nat, len: nat, tail: seq<Byte>, s: seq<Byte>, v: nat, w: nat)
    requires Encodable(CopyCmd(pos, len)) && v == IntLen(pos) && w == IntLen(len)
    requires s == [0x45 + 4 * WidthIndex(v) + WidthIndex(w)] + NetInt(pos, v) + NetInt(len, w)
    ensures OfParams(basis, Proto(s[0]), s[1..] + tail)
         == OfCmd(basis, CopyCmd(pos, len), tail).(used := |s| - 1)
  {
    var a, b := NetInt(pos, v), NetInt(len, w);
    ParamInverse(pos);
    ParamInverse(len);
    CopyOpcode(v, w);
    CopyShape(0x45 + 4 * WidthIndex(v) + WidthIndex(w), a, b, tail);
    CopyEncoded(basis, pos, len, tail, a, b);
  }

  lemma LiteralOpcode(w: nat)
    requires w in {1, 2, 4, 8}
    ensures Proto(0x41 + WidthIndex(w)) == Entry(Literal, 0, w, 0)
  {
  }

  lemma CopyOpcode(v: nat, w: nat)
    requires v in {1, 2, 4, 8} && w in {1, 2, 4, 8}
    ensures Proto(0x45 + 4 * WidthIndex(v) + WidthIndex(w)) == Entry(Copy, 0, v, w)
  {
    OpcodeSplit(WidthIndex(v), WidthIndex(w));
  }

  lemma LiteralShape(op: Byte, head: seq<Byte>, data: seq<Byte>, tail: seq<Byte>)
    ensures var s := [op] + head + data;
      s[0] == op && s[1..] + tail == head + (data + tail)
  {
  }

  lemma CopyShape(op: Byte, a: seq<Byte>, b: seq<Byte>, tail: seq<Byte>)
    ensures var s := [op] + a + b;
      s[0] == op && s[1..] + tail == a + b + tail
  {
  }

  lemma SliceConcat<T>(a: seq<T>, b: seq<T>)
    ensures (a + b)[..|a|] == a && (a + b)[|a|..] == b
  {
  }

  lemma LiteralEncoded(basis: seq<Byte>, data: seq<Byte>, tail: seq<Byte>, head: seq<Byte>)
    requires |data| < MAX_INT && |head| == IntLen(|data|) && Param(head) == |data|
    ensures OfParams(basis, Entry(Literal, 0, |head|, 0), head + (data + tail))
         == Effect(data, [EntryOf(LiteralCmd(data))], |head| + |data|, Running)
  {
    SliceConcat(data, tail);
    assert head[..|head|] == head;
    ParamsRead(basis, Entry(Literal, 0, |head|, 0), head, data + tail);
  }

  lemma CopyEncoded(basis: seq<Byte>, pos: nat, len: nat, tail: seq<Byte>, a: seq<Byte>, b: seq<Byte>)
    requires Encodable(CopyCmd(pos, len))
    requires |a| == IntLen(pos) && Param(a) == pos
    requires |b| == IntLen(len) && Param(b) == len
    ensures OfParams(basis, Entry(Copy, 0, |a|, |b|), a + b + tail)
         == OfCmd(basis, CopyCmd(pos, len), tail).(used := |a| + |b|)
  {
    SliceConcat(a, b);
    ParamsRead(basis, Entry(Copy, 0, |a|, |b|), a + b, tail);
  }

  /** Parameters that are all there are read, then the command runs. */
  lemma ParamsRead(basis: seq<Byte>, e: Entry, params: seq<Byte>, s: seq<Byte>)
    requires |params| == e.len1 + e.len2 && e.len1 > 0
    ensures var f := OfRun(basis, e, Param(params[..e.len1]), Param(params[e.len1..]), s);
      OfParams(basis, e, params + s) == f.(used := |params| + f.used)
  {
    var t := params + s;
    assert t[..e.len1] == params[..e.len1];
    assert t[e.len1..|params|] == params[e.len1..];
    assert t[|params|..] == s;
  }

  lemma OpcodeSplit(i: nat, j: nat)
    requires i < 4 && j < 4
    ensures (4 * i + j) / 4 == i && (4 * i + j) % 4 == j
  {
  }
}
