/** The resumable patch job (patch.c, run by job.c): whatever pieces the delta
  * arrives in, however the output blocks and however the basis is served, the
  * job writes what Interpret says the stream means, malformed streams included.
  */
module PatchJob {
  import opened Codec
  import opened PatchSpec
  import opened Pipe

  datatype State = Header | CmdByte | Params | RunCmd | LiteralCopy | CopySetup | Copying | Complete

  /** Serves some non-empty prefix of basis[pos..pos + len], or reports the end of
    * the basis (buf.c, rs_file_copy_cb).
    */
  method CopyCallback(basis: seq<Byte>, pos: nat, len: nat) returns (r: Result, data: seq<Byte>)
    requires len > 0
    ensures r in {Done, InputEnded} && (r.Done? <==> pos < |basis|)
    ensures r.Done? ==> 1 <= |data| <= len && pos + |data| <= |basis| && data == basis[pos..pos + |data|]
  {
    if pos < |basis| {
      var n: nat :| 1 <= n <= len && pos + n <= |basis|;
      r, data := Done, basis[pos..pos + n];
    } else {
      r, data := InputEnded, [];
    }
  }

  ghost predicate Splits<T>(whole: seq<T>, done: seq<T>, left: seq<T>) {
    |done| <= |whole| && whole[..|done|] == done && whole[|done|..] == left
  }

  /** Having written out and run log, with rest still to come, is on the way to
    * the outcome.
    */
  ghost predicate OnWay(outcome: Outcome, out: seq<Byte>, log: seq<LogEntry>, rest: Outcome) {
    Splits(outcome.out, out, rest.out) && Splits(outcome.log, log, rest.log) && outcome.result == rest.result
  }

  ghost predicate OpenWay(k: nat) { true }

  ghost predicate TowardsIs(ok: bool, outcome: Outcome, out: seq<Byte>, log: seq<LogEntry>, rest: Outcome) {
    forall k {:trigger OpenWay(k)} :: OpenWay(k) ==> ok == OnWay(outcome, out, log, rest)
  }

  /** OnWay, folded until TowardsUnfold opens it. */
  ghost predicate Towards(outcome: Outcome, out: seq<Byte>, log: seq<LogEntry>, rest: Outcome) {
    assert TowardsIs(OnWay(outcome, out, log, rest), outcome, out, log, rest);
    var ok :| TowardsIs(ok, outcome, out, log, rest);
    ok
  }

  lemma TowardsUnfold(outcome: Outcome, out: seq<Byte>, log: seq<LogEntry>, rest: Outcome)
    ensures Towards(outcome, out, log, rest) == OnWay(outcome, out, log, rest)
  {
    assert OpenWay(0);
  }

  lemma TowardsStart(o: Outcome)
    ensures Towards(o, [], [], o)
  {
    TowardsUnfold(o, [], [], o);
  }

  lemma TowardsEnd(outcome: Outcome, out: seq<Byte>, log: seq<LogEntry>, r: Result)
    requires Towards(outcome, out, log, Ends(r))
    ensures outcome.out == out && outcome.log == log && outcome.result == r
  {
    TowardsUnfold(outcome, out, log, Ends(r));
  }

  lemma TowardsPrefix(outcome: Outcome, out: seq<Byte>, log: seq<LogEntry>, rest: Outcome)
    requires Towards(outcome, out, log, rest)
    ensures |out| <= |outcome.out| && outcome.result == rest.result
  {
    TowardsUnfold(outcome, out, log, rest);
  }

  lemma SplitsOn<T>(whole: seq<T>, done: seq<T>, more: seq<T>, left: seq<T>)
    requires Splits(whole, done, more + left)
    ensures Splits(whole, done + more, left)
  {
    var rest := whole[|done|..];
    assert whole == done + rest;
    assert done + rest == (done + more) + left;
    SliceConcat(done + more, left);
  }

  lemma TowardsNext(outcome: Outcome, out: seq<Byte>, log: seq<LogEntry>, more: seq<Byte>, ran: seq<LogEntry>,
                    rest: Outcome)
    requires Towards(outcome, out, log, After(more, ran, rest))
    ensures Towards(outcome, out + more, log + ran, rest)
  {
    TowardsUnfold(outcome, out, log, After(more, ran, rest));
    TowardsUnfold(outcome, out + more, log + ran, rest);
    SplitsOn(outcome.out, out, more, rest.out);
    SplitsOn(outcome.log, log, ran, rest.log);
  }

  lemma TakenOff(source: seq<Byte>, start: nat, mid: nat, end: nat)
    requires start <= mid <= end <= |source|
    ensures source[start..] == source[start..mid] + source[mid..end] + source[end..]
  {
  }

  class PatchJob {
    const pipe: Pipe
    const basis: seq<Byte>
    ghost const outcome: Outcome

    var statefn: State
    var cmd: Entry
    var param1: int
    var param2: int
    var basisPos: nat
    var basisLen: nat
    var stats: Tally
    var finalResult: Result
    /** The commands run so far. */
    ghost var log: seq<LogEntry>

    ghost function StageOf(): Stage
      requires statefn != Complete
      reads this
    {
      match statefn
      case Header => Magic
      case CmdByte => Command
      case Params => Arguments(cmd)
      case RunCmd => Execute(cmd, param1, param2)
      case LiteralCopy => Execute(cmd, param1, param2)
      case CopySetup => Execute(cmd, param1, param2)
      case Copying => CopyFrom(basisPos, basisLen)
    }

    /** Only an item that is still incomplete waits in the scoop. */
    ghost predicate Tight()
      reads this, pipe
    {
      match statefn
      case Header => |pipe.scoop| < 4
      case Params => |pipe.scoop| < cmd.len1 + cmd.len2
      case _ => pipe.scoop == []
    }

    ghost predicate StateValid()
      reads this, pipe
    {
      Tight() && Poised()
    }

    /** What has been queued and what this stage will still do make the outcome. */
    ghost predicate Poised()
      reads this, pipe
    {
      && pipe.Valid() && pipe.writeBuf == [] && Tallies(stats, log) && ValidEntry(cmd)
      && statefn != Complete && (statefn != CmdByte ==> pipe.copyLen == 0)
      && (statefn == Params ==> cmd.len1 > 0)
      && (statefn == LiteralCopy ==> cmd.kind == Literal)
      && (statefn == CopySetup ==> cmd.kind == Copy)
      && Towards(outcome, pipe.sent, log,
                 Later(basis, StageOf(), pipe.source, pipe.taken + pipe.copyLen, pipe.copyLen < 0))
    }

    constructor (basis: seq<Byte>, ghost source: seq<Byte>)
      ensures Valid() && fresh(pipe) && this.basis == basis && pipe.source == source
      ensures outcome == Rest(basis, Magic, source) && statefn == Header
      ensures pipe.taken == 0 && pipe.scoop == [] && !pipe.eofIn && pipe.input == [] && pipe.output == []
    {
      pipe := new Pipe(source);
      this.basis, outcome := basis, Rest(basis, Magic, source);
      statefn, cmd, param1, param2, basisPos, basisLen := Header, Entry(End, 0, 0, 0), 0, 0, 0, 0;
      stats, finalResult, log := ZERO_TALLY, Running, [];
      new;
      TowardsStart(outcome);
      assert pipe.source[0..] == source;
    }

    // ---------- patch.c ----------

    method PatchHeader() returns (r: Result)
      requires StateValid() && statefn == Header && pipe.Idle()
      modifies this`statefn, pipe
      ensures r in {Running, Blocked, InputEnded, BadMagic}
      ensures pipe.Flowed() && pipe.Idle() && pipe.availOut == old(pipe.availOut) && old(pipe.taken) <= pipe.taken
      ensures r == Running ==> StateValid() && statefn == CmdByte && pipe.taken > old(pipe.taken)
      ensures r == Blocked ==>
        StateValid() && statefn == Header && pipe.input == [] && (pipe.eofIn ==> outcome.result == Blocked)
      ensures r in {Running, Blocked} ==> |pipe.input| < old(|pipe.input|) || pipe.input == []
      ensures r in {InputEnded, BadMagic} ==> Ending(r)
    {
      ghost var s := Unread();
      StepMagic(basis, s);
      TowardsPrefix(outcome, pipe.sent, log, Rest(basis, Magic, s));
      var v;
      r, v := pipe.SuckNetInt(4, 4);
      if r != Done {
        return;
      }
      assert s[..4] == pipe.source[pipe.taken - 4..pipe.taken] && s[4..] == Unread();
      if ToInt32(v) != DELTA_MAGIC {
        return BadMagic;
      }
      statefn := CmdByte;
      r := Running;
    }

    /** A state function ended the job with result r. */
    ghost predicate Ending(r: Result)
      reads this, pipe
    {
      pipe.Valid() && pipe.Idle() && pipe.scoop == [] && Tallies(stats, log)
      && Towards(outcome, pipe.sent, log, Ends(r))
    }

    /** Which part of the stream is unread. */
    ghost function Unread(): seq<Byte>
      requires pipe.taken <= |pipe.source|
      reads pipe
    {
      pipe.source[pipe.taken..]
    }

    method PatchCmdByte() returns (r: Result)
      requires StateValid() && statefn == CmdByte && pipe.Idle()
      modifies this`statefn, this`cmd, this`param1, pipe
      ensures r in {Running, Blocked, InputEnded}
      ensures pipe.Flowed() && pipe.Idle() && pipe.availOut == old(pipe.availOut) && old(pipe.taken) <= pipe.taken
      ensures r == Running ==> StateValid() && statefn in {Params, RunCmd} && pipe.taken > old(pipe.taken)
      ensures r == Running ==> |pipe.input| < old(|pipe.input|)
      ensures r == Blocked ==> StateValid() && statefn == CmdByte && pipe.input == [] && !pipe.eofIn
      ensures r == InputEnded ==> Ending(r)
    {
      ghost var s := Unread();
      StepCommand(basis, s);
      var buf;
      r, buf := pipe.ScoopRead(1, 1);
      if r != Done {
        return;
      }
      assert Unread() == s[1..] && buf[0] == s[0];
      UseCommand(buf[0]);
      r := Running;
    }

    method UseCommand(op: Byte)
      requires pipe.Valid() && pipe.Idle() && pipe.scoop == [] && Tallies(stats, log)
      requires Towards(outcome, pipe.sent, log, Rest(basis, Arguments(Proto(op)), Unread()))
      modifies this`statefn, this`cmd, this`param1
      ensures StateValid() && statefn in {Params, RunCmd}
    {
      cmd := Proto(op);
      if cmd.len1 > 0 {
        statefn := Params;
      } else {
        StepNoParams(basis, cmd, param2, Unread());
        param1 := cmd.immediate;
        statefn := RunCmd;
      }
    }

    method PatchParams() returns (r: Result)
      requires StateValid() && statefn == Params && pipe.Idle()
      modifies this`statefn, this`param1, this`param2, pipe
      ensures r in {Running, Blocked, InputEnded}
      ensures pipe.Flowed() && pipe.Idle() && pipe.availOut == old(pipe.availOut) && old(pipe.taken) <= pipe.taken
      ensures r == Running ==>
        StateValid() && statefn == RunCmd && pipe.taken > old(pipe.taken) && |pipe.input| < old(|pipe.input|)
      ensures r == Blocked ==>
        StateValid() && statefn == Params && pipe.input == [] && (pipe.eofIn ==> outcome.result == Blocked)
      ensures r == InputEnded ==> Ending(r)
    {
      ghost var s := Unread();
      var len := cmd.len1 + cmd.len2;
      var p;
      r, p := pipe.ScoopReadahead(len);
      if r != Done {
        if pipe.eofIn {
          StepShortParams(basis, cmd, s);
          TowardsPrefix(outcome, pipe.sent, log, Rest(basis, Arguments(cmd), s));
        }
        return;
      }
      TakeParams(len);
      r := Running;
    }

    method TakeParams(len: nat)
      requires Poised() && statefn == Params && pipe.Idle() && len == cmd.len1 + cmd.len2
      requires pipe.CanRead(len) && |pipe.scoop| <= len
      modifies this`statefn, this`param1, this`param2, pipe`scoop, pipe`input, pipe`taken
      ensures StateValid() && statefn == RunCmd && pipe.taken == old(pipe.taken) + len
      ensures pipe.End() == old(pipe.End()) && |pipe.input| <= old(|pipe.input|)
    {
      ghost var a, b := ReadParams(len);
      StepParams(basis, cmd, a, b, param1, param2, Unread());
      statefn := RunCmd;
      assert Towards(outcome, pipe.sent, log, Rest(basis, StageOf(), Unread()));
    }

    /** Both reads follow the readahead of all len bytes, so neither can fail. */
    method ReadParams(len: nat) returns (ghost a: seq<Byte>, ghost b: seq<Byte>)
      requires pipe.Valid() && pipe.copyLen == 0 && ValidEntry(cmd) && cmd.len1 > 0 && len == cmd.len1 + cmd.len2
      requires pipe.CanRead(len)
      modifies this`param1, this`param2, pipe`scoop, pipe`input, pipe`taken
      ensures pipe.Valid() && pipe.End() == old(pipe.End()) && |pipe.input| <= old(|pipe.input|)
      ensures pipe.taken == old(pipe.taken) + len && |pipe.scoop| == Max(0, old(|pipe.scoop|) - len)
      ensures |a| == cmd.len1 && |b| == cmd.len2 && old(Unread()) == a + b + Unread()
      ensures param1 == Param(a) && (cmd.len2 > 0 ==> param2 == Param(b))
    {
      ghost var start, mid, end := pipe.taken, pipe.taken + cmd.len1, pipe.taken + len;
      a, b := pipe.source[start..mid], pipe.source[mid..end];
      TakenOff(pipe.source, start, mid, end);
      var r;
      r, param1 := pipe.SuckNetInt(cmd.len1, len);
      assert r == Done && pipe.taken == mid;
      if cmd.len2 > 0 {
        r, param2 := pipe.SuckNetInt(cmd.len2, cmd.len2);
        assert r == Done && pipe.taken == end;
      }
    }

    method PatchRun() returns (r: Result)
      requires StateValid() && statefn == RunCmd && pipe.Idle()
      modifies this`statefn
      ensures r in {Running, Done, Corrupt}
      ensures r == Running ==> StateValid() && statefn in {LiteralCopy, CopySetup}
      ensures r in {Done, Corrupt} ==> Ending(r)
    {
      StepStop(basis, cmd, param1, param2, Unread());
      match cmd.kind
      case Literal =>
        statefn := LiteralCopy;
        r := Running;
      case End =>
        r := Done;
      case Copy =>
        statefn := CopySetup;
        r := Running;
      case Reserved =>
        r := Corrupt;
    }

    method Account(e: LogEntry)
      requires Tallies(stats, log)
      modifies this`stats, this`log
      ensures log == old(log) + [e] && Tallies(stats, log)
    {
      TalliesAppend(stats, log, e);
      stats := stats.Count(e);
      log := log + [e];
    }

    method PatchLiteral() returns (r: Result)
      requires StateValid() && statefn == LiteralCopy && pipe.Idle()
      modifies this`statefn, this`stats, this`log, pipe`copyLen, pipe`sent
      ensures r in {Running, Corrupt}
      ensures r == Running ==> StateValid() && statefn == CmdByte
      ensures r == Corrupt ==> Ending(r)
    {
      StepStop(basis, cmd, param1, param2, Unread());
      if param1 < 0 {
        return Corrupt;
      }
      ghost var n := ToInt32(param1);
      StepLiteral(basis, cmd, param1, param2, pipe.source, pipe.taken);
      TowardsNext(outcome, pipe.sent, log, Clip(Unread(), n), [LitEntry(param1, 1 + cmd.len1)],
                  Later(basis, Command, pipe.source, pipe.taken + n, n < 0));
      Account(LitEntry(param1, 1 + cmd.len1));
      QueueLiteral(ToInt32(param1));
      statefn := CmdByte;
      assert StageOf() == Command;
      r := Running;
    }

    method QueueLiteral(n: int)
      requires pipe.Valid() && pipe.Idle()
      modifies pipe`copyLen, pipe`sent
      ensures pipe.Valid() && pipe.copyLen == n && pipe.sent == old(pipe.sent) + Clip(Unread(), n)
    {
      pipe.TubeCopy(n);
      assert pipe.Pending() == Clip(Unread(), n);
    }

    method PatchCopy() returns (r: Result)
      requires StateValid() && statefn == CopySetup && pipe.Idle()
      modifies this`statefn, this`stats, this`log, this`basisPos, this`basisLen
      ensures r in {Running, Corrupt}
      ensures r == Running ==> StateValid() && statefn == Copying
      ensures r == Corrupt ==> Ending(r)
    {
      StepStop(basis, cmd, param1, param2, Unread());
      if param2 < 0 || param1 < 0 {
        return Corrupt;
      }
      StepCopy(basis, cmd, param1, param2, Unread());
      TowardsNext(outcome, pipe.sent, log, [], [CopyEntry(param1, param2, 1 + cmd.len1 + cmd.len2)],
                  Rest(basis, CopyFrom(param1, param2), Unread()));
      assert pipe.sent + [] == pipe.sent;
      basisPos, basisLen := param1, param2;
      Account(CopyEntry(param1, param2, 1 + cmd.len1 + cmd.len2));
      statefn := Copying;
      r := Running;
    }

    method PatchCopying() returns (r: Result)
      requires StateValid() && statefn == Copying && pipe.Idle()
      modifies this`statefn, this`basisPos, this`basisLen, pipe`output, pipe`availOut, pipe`sent
      ensures r in {Running, Blocked, InputEnded}
      ensures pipe.Flowed() && pipe.Idle() && pipe.input == old(pipe.input) && pipe.taken == old(pipe.taken)
      ensures r == Running ==> StateValid() && statefn in {Copying, CmdByte} && pipe.availOut < old(pipe.availOut)
      ensures r == Blocked <==> old(basisLen == 0 || pipe.availOut == 0)
      ensures r == Blocked ==>
        StateValid() && statefn == Copying && basisLen == old(basisLen) && pipe.availOut == old(pipe.availOut)
      ensures r == InputEnded ==> Ending(r)
    {
      StepCopyStop(basis, basisPos, basisLen, Unread());
      var len := Min(basisLen, pipe.availOut);
      if len == 0 {
        return Blocked;
      }
      var data;
      r, data := CopyCallback(basis, basisPos, len);
      if r != Done {
        return;
      }
      WriteServed(data);
      r := Running;
    }

    method WriteServed(data: seq<Byte>)
      requires StateValid() && statefn == Copying && pipe.Idle() && 0 < |data| <= Min(basisLen, pipe.availOut)
      requires basisPos + |data| <= |basis| && data == basis[basisPos..basisPos + |data|]
      modifies this`statefn, this`basisPos, this`basisLen, pipe`output, pipe`availOut, pipe`sent
      ensures StateValid() && statefn in {Copying, CmdByte} && pipe.Idle()
      ensures pipe.availOut == old(pipe.availOut) - |data| && |pipe.output| == old(|pipe.output|) + |data|
    {
      StepCopyServed(basis, basisPos, basisLen, |data|, Unread());
      TowardsNext(outcome, pipe.sent, log, data, [],
                  Rest(basis, if |data| == basisLen then Command else CopyFrom(basisPos + |data|, basisLen - |data|),
                       Unread()));
      assert log + [] == log;
      pipe.WriteOut(data);
      basisPos, basisLen := basisPos + |data|, basisLen - |data|;
      if basisLen == 0 {
        statefn := CmdByte;
      }
    }

    // ---------- job.c ----------

    /** An empty copy is being executed: no step will take input or write output again. */
    ghost predicate Stuck()
      reads this
    {
      statefn == Copying && basisLen == 0
    }

    /** The output and the statistics are those of the outcome. */
    ghost predicate Reached(r: Result)
      reads this, pipe
    {
      r == outcome.result && pipe.output == outcome.out && log == outcome.log && Tallies(stats, log)
    }

    lemma StuckReached()
      requires Valid() && Stuck()
      ensures Reached(if pipe.input == [] && pipe.End() == |pipe.source| then Blocked else InternalError)
      ensures pipe.eofIn ==> pipe.End() == |pipe.source|
    {
      assert Open(0);
      var r := if Unread() == [] then Blocked else InternalError;
      StepCopyStop(basis, basisPos, basisLen, Unread());
      TowardsEnd(outcome, pipe.sent, log, r);
      pipe.Contents();
    }

    /** StateValid, folded until Open(k) is mentioned. */
    ghost predicate Valid()
      reads this, pipe
    {
      && pipe.End() <= |pipe.source|
      && forall k {:trigger Open(k)} :: Open(k) ==> StateValid()
    }

    /** The states a call can return in. */
    ghost predicate Resting()
      reads this
    {
      statefn in {Header, CmdByte, Params, Copying}
    }

    ghost function Rank(): nat
      reads this
    {
      match statefn
      case Header => 6 case RunCmd => 5 case LiteralCopy => 4 case CopySetup => 4
      case Copying => 3 case Params => 2 case CmdByte => 1
      case Complete => 0
    }

    /** The job is over: the output and the statistics are those of the outcome. An
      * internal error leaves the state function where it was.
      */
    ghost predicate Finished(r: Result)
      reads this, pipe
    {
      && (statefn == Complete <==> r != InternalError)
      && r == outcome.result && pipe.output == outcome.out && stats == Stats(outcome.log)
    }

    /** rs_tube_catchup between state functions. */
    method Settle() returns (r: Result)
      requires Valid()
      modifies pipe
      ensures pipe.Flowed() && old(pipe.taken) <= pipe.taken <= |pipe.source|
      ensures r in {Done, Blocked, InputEnded, Aborted} && (r.Done? <==> pipe.Idle())
      ensures r in {Done, Blocked} ==> Valid()
      ensures r == Blocked ==> Resting() && (pipe.availOut == 0 || (pipe.input == [] && !pipe.eofIn))
      ensures r in {InputEnded, Aborted} ==> Reached(r)
      ensures old(pipe.Idle() || Stuck()) ==>
        r == Done && pipe.availOut == old(pipe.availOut) && pipe.input == old(pipe.input)
      ensures old(!pipe.Idle() && pipe.availOut > 0 && pipe.input != []) && r in {Done, Blocked} ==>
        pipe.availOut < old(pipe.availOut)
    {
      assert Open(0);
      ghost var at, cut := pipe.taken + pipe.copyLen, pipe.copyLen < 0;
      r := pipe.Catchup();
      assert pipe.taken + pipe.copyLen == at && (pipe.copyLen < 0) == cut;
      if r == InputEnded || r == Aborted {
        TowardsEnd(outcome, pipe.sent, log, r);
        pipe.Contents();
      } else {
        assert StateValid();
      }
    }

    /** There is no room for output, or no input though more can come. */
    ghost predicate Starved()
      reads pipe
    {
      pipe.availOut == 0 || (pipe.input == [] && !pipe.eofIn)
    }

    twostate predicate Progressed()
      reads pipe
    {
      |pipe.input| < old(|pipe.input|) || pipe.availOut < old(pipe.availOut)
    }

    /** The state function of the current state. */
    method RunState() returns (r: Result)
      requires Valid() && pipe.Idle()
      modifies this, pipe
      ensures pipe.Flowed() && old(pipe.taken) <= pipe.taken <= |pipe.source|
      ensures r in {Running, Blocked} ==> Valid()
      ensures r != InternalError && (old(Resting()) ==> r != Done)
      ensures r == Running ==>
        || pipe.taken > old(pipe.taken)
        || Rank() < old(Rank())
        || (Rank() == old(Rank()) && pipe.availOut < old(pipe.availOut))
      ensures r == Blocked ==> Resting() && (Starved() || outcome.result == Blocked || Stuck())
      ensures r !in {Running, Blocked} ==> Ending(r)
      ensures old(Stuck()) ==>
        r == Blocked && Stuck() && pipe.input == old(pipe.input) && pipe.availOut == old(pipe.availOut)
      ensures old(Resting() && pipe.input != [] && pipe.availOut > 0) && r in {Running, Blocked} ==>
        old(Stuck()) || Progressed()
    {
      assert Open(0);
      match statefn
      case Header => r := PatchHeader();
      case CmdByte => r := PatchCmdByte();
      case Params => r := PatchParams();
      case RunCmd => r := PatchRun();
      case LiteralCopy => r := PatchLiteral();
      case CopySetup => r := PatchCopy();
      case Copying => r := PatchCopying();
    }

    /** rs_job_complete when a state function ended the job. */
    method JobComplete(result: Result) returns (r: Result)
      requires Ending(result) && result !in {Running, Blocked, InternalError}
      modifies this`statefn, this`finalResult
      ensures r == result && Finished(r)
    {
      assert Open(0);
      TowardsEnd(outcome, pipe.sent, log, result);
      pipe.Contents();
      statefn, finalResult := Complete, result;
      r := if result == Done && (pipe.writeBuf != [] || pipe.copyLen != 0) then Blocked else result;
    }

    /** rs_job_complete when the tube failed. */
    method JobFailed(result: Result) returns (r: Result)
      requires Reached(result) && result in {InputEnded, Aborted}
      modifies this`statefn, this`finalResult
      ensures r == result && Finished(r)
    {
      assert Open(0);
      statefn, finalResult := Complete, result;
      r := result;
    }

    /** Steps the job until it blocks or ends. */
    method Work() returns (r: Result)
      requires Valid() && Resting()
      modifies this, pipe
      ensures pipe.Flowed() && r !in {Running, InternalError}
      ensures r == Blocked ==> Valid() && Resting()
      ensures r == Blocked ==> Starved() || outcome.result == Blocked || Stuck()
      ensures r != Blocked ==> Finished(r)
      ensures old(Stuck()) ==>
        r == Blocked && Stuck() && pipe.input == old(pipe.input) && pipe.availOut == old(pipe.availOut)
      ensures old(pipe.input != [] && pipe.availOut > 0) && r in {Blocked, Done} ==> old(Stuck()) || Progressed()
    {
      ghost var first := true;
      while true
        invariant Valid() && pipe.Flowed() && pipe.taken <= |pipe.source|
        invariant first ==>
          Resting() && Stuck() == old(Stuck()) && pipe.input == old(pipe.input) && pipe.availOut == old(pipe.availOut)
        invariant !first ==> !old(Stuck())
        invariant !first && old(pipe.input != [] && pipe.availOut > 0) ==> Progressed()
        decreases |pipe.source| - pipe.taken, Rank(), pipe.availOut
      {
        r := Settle();
        if r == Blocked {
          return;
        }
        if r != Done {
          r := JobFailed(r);
          return;
        }
        r := RunState();
        if r == Blocked {
          return;
        }
        if r != Running {
          r := JobComplete(r);
          return;
        }
        first := false;
      }
    }

    /** The "made no progress" exit of rs_job_iter is taken exactly when an empty copy is
      * being executed, with input at hand and room for output.
      */
    method Iter() returns (r: Result)
      requires Valid() && Resting()
      modifies this, pipe
      ensures pipe.Flowed() && (r == InternalError <==> old(Stuck() && pipe.input != [] && pipe.availOut > 0))
      ensures r == Blocked ==> Valid() && Resting() && (Starved() || outcome.result == Blocked || Stuck())
      ensures r == Blocked && old(pipe.input != [] && pipe.availOut > 0) ==> Progressed()
      ensures r != Blocked ==> Finished(r)
    {
      var origIn, origOut := |pipe.input|, pipe.availOut;
      r := Work();
      if (r == Blocked || r == Done) && origIn == |pipe.input| && origOut == pipe.availOut
        && origIn > 0 && origOut > 0
      {
        StuckReached();
        TalliesUnfold(stats, log);
        r := InternalError;
      }
    }

    ghost function ToFeed(): int
      reads pipe
    {
      2 * (|pipe.source| - pipe.End()) + if pipe.eofIn then 0 else 1
    }

    ghost function ToWrite(): int
      reads this, pipe
    {
      |outcome.out| - |pipe.output|
    }

    lemma OutputBounded()
      requires Valid()
      ensures ToWrite() >= 0
    {
      assert Open(0);
      pipe.Contents();
      TowardsPrefix(outcome, pipe.sent, log,
                    Later(basis, StageOf(), pipe.source, pipe.taken + pipe.copyLen, pipe.copyLen < 0));
    }

    method FillState(file: seq<Byte>, fed: nat) returns (fed': nat)
      requires StateValid() && pipe.source == file && fed == pipe.End()
      modifies pipe`input, pipe`eofIn
      ensures StateValid() && fed' == pipe.End() && |pipe.input| >= old(|pipe.input|)
      ensures old(pipe.eofIn) ==> pipe.eofIn && pipe.input == old(pipe.input)
      ensures old(!pipe.eofIn && pipe.input == []) ==> pipe.eofIn || pipe.input != []
      ensures fed' == fed ==> pipe.input == old(pipe.input)
    {
      ghost var later := Later(basis, StageOf(), pipe.source, pipe.taken + pipe.copyLen, pipe.copyLen < 0);
      fed' := pipe.Fill(file, fed);
      assert Towards(outcome, pipe.sent, log, later);
    }

    method FillIn(file: seq<Byte>, fed: nat) returns (fed': nat)
      requires Valid() && Resting() && pipe.source == file && fed == pipe.End()
      modifies pipe`input, pipe`eofIn
      ensures Valid() && fed' == pipe.End()
      ensures ToFeed() <= old(ToFeed()) && (ToFeed() == old(ToFeed()) ==> pipe.input == old(pipe.input))
      ensures old(!pipe.eofIn && pipe.input == []) ==> ToFeed() < old(ToFeed())
    {
      assert Open(0);
      fed' := FillState(file, fed);
    }

    method DrainState(room: nat)
      requires StateValid()
      modifies pipe`availOut
      ensures StateValid() && pipe.availOut == room
    {
      ghost var later := Later(basis, StageOf(), pipe.source, pipe.taken + pipe.copyLen, pipe.copyLen < 0);
      pipe.Drain(room);
      assert Towards(outcome, pipe.sent, log, later);
    }

    method DrainOut()
      requires Valid()
      modifies pipe`availOut
      ensures Valid() && pipe.availOut > 0
    {
      assert Open(0);
      var room: nat :| room > 0;
      DrainState(room);
    }

    /** One turn of rs_job_drive: fill, step, drain. */
    method Turn(file: seq<Byte>, fed: nat) returns (r: Result, fed': nat)
      requires Valid() && Resting() && pipe.source == file && fed == pipe.End()
      modifies this, pipe
      ensures if r == Blocked then Valid() && Resting() && pipe.availOut > 0 else Finished(r)
      ensures fed' == pipe.End() && 0 <= ToFeed() <= old(ToFeed()) && 0 <= ToWrite() <= old(ToWrite())
      ensures ToFeed() == old(ToFeed()) ==> |pipe.input| <= old(|pipe.input|)
      ensures outcome.result == Blocked ==> r == Blocked
      ensures r == Blocked && (outcome.result != Blocked || old(!pipe.eofIn || pipe.input != [])) ==>
        || old(pipe.availOut) == 0
        || ToFeed() < old(ToFeed())
        || |pipe.input| < old(|pipe.input|)
        || ToWrite() < old(ToWrite())
    {
      fed' := FillIn(file, fed);
      r := Iter();
      if r == Blocked {
        if Stuck() {
          StuckReached();
        }
        OutputBounded();
        DrainOut();
      }
    }

    /** rs_job_drive: for every stream that does not wait for ever, in pieces of any
      * size and into output buffers of any size, the job ends with the outcome of the
      * stream.
      */
    method Drive(file: seq<Byte>) returns (r: Result)
      requires Valid() && statefn == Header && outcome.result != Blocked && pipe.source == file && pipe.End() == 0
      modifies this, pipe
      ensures Finished(r)
    {
      var fed := 0;
      r := Blocked;
      OutputBounded();
      while r == Blocked
        invariant fed == pipe.End() <= |file| && ToFeed() >= 0 && ToWrite() >= 0
        invariant if r == Blocked then Valid() && Resting() else Finished(r)
        decreases if r == Blocked then 1 else 0, ToFeed(), |pipe.input|, ToWrite(), if pipe.availOut == 0 then 1 else 0
      {
        r, fed := Turn(file, fed);
      }
    }

    lemma AllFed()
      requires Valid()
      ensures pipe.eofIn ==> pipe.End() == |pipe.source|
    {
      assert Open(0);
    }

    /** The other streams do wait for ever: the job is blocked when all of the stream has been
      * read and its end been told, and after any number of turns more.
      */
    method DriveFor(file: seq<Byte>, turns: nat) returns (r: Result)
      requires Valid() && statefn == Header && outcome.result == Blocked && pipe.source == file && pipe.End() == 0
      modifies this, pipe
      ensures r == Blocked && Valid() && Resting() && pipe.eofIn && pipe.input == [] && pipe.End() == |file|
    {
      var fed := 0;
      r := Blocked;
      OutputBounded();
      while !pipe.eofIn || pipe.input != []
        invariant fed == pipe.End() <= |file| && r == Blocked && Valid() && Resting() && ToFeed() >= 0 && ToWrite() >= 0
        decreases ToFeed(), |pipe.input|, ToWrite(), if pipe.availOut == 0 then 1 else 0
      {
        r, fed := Turn(file, fed);
      }
      AllFed();
      for i := 0 to turns
        invariant fed == pipe.End() && r == Blocked && Valid() && Resting() && pipe.eofIn && pipe.input == []
        invariant pipe.End() == |file|
      {
        r, fed := Turn(file, fed);
      }
    }
  }
}
