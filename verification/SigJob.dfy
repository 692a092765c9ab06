/** The resumable signature job (mksum.c, run by job.c): whatever pieces the file
  * arrives in and whenever the output blocks, the job writes SigBytes of the file.
  */
module SigJob {
  import opened Codec
  import opened PatchSpec
  import opened DeltaSpec
  import opened Pipe
  import opened SigSpec
  import Rollsum

  datatype State = Header | Generate | Complete

  class SigJob {
    const pipe: Pipe
    const blockLen: Pos
    const strongLen: nat
    const strong: seq<Byte> -> seq<Byte>

    var statefn: State
    /** stats.sig_blocks. */
    var sigBlocks: nat

    ghost function RecipeOf(): Recipe {
      Recipe(blockLen, strongLen, strong)
    }

    /** A partial block waits in the scoop; the tube holds bytes but no copy. */
    ghost predicate StateValid()
      reads this, pipe
    {
      && pipe.Valid() && pipe.copyLen == 0 && Sane(RecipeOf()) && statefn != Complete
      && (if statefn == Header then
            pipe.taken == 0 && pipe.scoop == [] && sigBlocks == 0 && pipe.writeBuf == [] && pipe.sent == []
          else
            |pipe.scoop| < blockLen && OnSchedule(RecipeOf(), pipe.source, pipe.sent, sigBlocks, pipe.taken))
    }

    constructor (blockLen: Pos, strongLen: nat, strong: seq<Byte> -> seq<Byte>, ghost source: seq<Byte>)
      requires Sane(Recipe(blockLen, strongLen, strong))
      ensures Valid() && fresh(pipe) && pipe.source == source && RecipeOf() == Recipe(blockLen, strongLen, strong)
      ensures statefn == Header && pipe.End() == 0 && pipe.output == []
    {
      pipe := new Pipe(source);
      this.blockLen, this.strongLen, this.strong := blockLen, strongLen, strong;
      statefn, sigBlocks := Header, 0;
    }

    // ---------- mksum.c ----------

    method SigHeaderState() returns (r: Result)
      requires StateValid() && statefn == Header
      modifies this`statefn, pipe`writeBuf, pipe`sent
      ensures r == Running && StateValid() && statefn == Generate && pipe.Flowed()
    {
      OnScheduleStart(RecipeOf(), pipe.source);
      pipe.SquirtNetInt(SIG_MAGIC, 4);
      pipe.SquirtNetInt(blockLen, 4);
      pipe.SquirtNetInt(strongLen, 4);
      assert pipe.sent == [] + NetInt(SIG_MAGIC, 4) + NetInt(blockLen, 4) + NetInt(strongLen, 4);
      assert pipe.sent == SigHeader(RecipeOf());
      statefn := Generate;
      r := Running;
    }

    method SigDoBlock(block: seq<Byte>) returns (r: Result)
      requires pipe.Valid() && pipe.Idle() && Sane(RecipeOf())
      modifies this`sigBlocks, pipe`writeBuf, pipe`sent
      ensures r == Running && pipe.Valid() && sigBlocks == old(sigBlocks) + 1
      ensures pipe.sent == old(pipe.sent) + SumBytes(RecipeOf(), block)
    {
      var weak := Rollsum.CalcWeakSum(block);
      var sum := strong(block);
      ghost var sent := pipe.sent;
      pipe.SquirtNetInt(ToInt32(weak), 4);
      pipe.TubeWrite(sum[..strongLen]);
      assert pipe.sent == sent + NetInt(ToInt32(weak), 4) + sum[..strongLen];
      sigBlocks := sigBlocks + 1;
      r := Running;
    }

    /** A whole block, or near the end of the input whatever is there. */
    method ReadBlock() returns (r: Result, block: seq<Byte>)
      requires pipe.Valid() && pipe.copyLen == 0 && |pipe.scoop| < blockLen
      modifies pipe`scoop, pipe`input, pipe`taken
      ensures pipe.Valid() && pipe.End() == old(pipe.End()) && |pipe.input| <= old(|pipe.input|)
      ensures r in {Done, Blocked, InputEnded} && |pipe.scoop| < blockLen
      ensures r == Done ==> pipe.taken > old(pipe.taken)
      ensures r == Done ==>
        block == Window(pipe.source, blockLen, old(pipe.taken)) && pipe.taken == old(pipe.taken) + |block|
      ensures r != Done ==> pipe.taken == old(pipe.taken) && pipe.input == []
      ensures r == Blocked ==> !pipe.eofIn
      ensures r == InputEnded ==> pipe.eofIn && pipe.End() == pipe.taken
    {
      var len := blockLen;
      r, block := pipe.ScoopRead(len, len);
      if r == Blocked && pipe.eofIn {
        r, len, block := pipe.ScoopReadRest();
      }
    }

    method SigGenerate() returns (r: Result)
      requires StateValid() && statefn == Generate && pipe.Idle()
      modifies this`sigBlocks, pipe
      ensures r in {Running, Blocked, Done} && pipe.Flowed() && pipe.availOut == old(pipe.availOut)
      ensures r == Running ==> StateValid() && pipe.taken > old(pipe.taken)
      ensures r == Blocked ==> StateValid() && pipe.input == [] && !pipe.eofIn
      ensures r == Done ==> pipe.Valid() && pipe.Idle() && pipe.taken == |pipe.source| && pipe.input == []
      ensures r == Done ==> OnSchedule(RecipeOf(), pipe.source, pipe.sent, sigBlocks, pipe.taken)
    {
      ghost var p := pipe.taken;
      var block;
      r, block := ReadBlock();
      if r == InputEnded {
        return Done;
      } else if r != Done {
        return;
      }
      OnScheduleBlock(RecipeOf(), pipe.source, pipe.sent, sigBlocks, p, block);
      BlockBytesUnfold(RecipeOf(), block);
      ghost var sent, count := pipe.sent + BlockBytes(RecipeOf(), block), sigBlocks + 1;
      r := SigDoBlock(block);
      assert pipe.sent == sent && sigBlocks == count && pipe.taken == p + |block|;
    }

    // ---------- job.c ----------

    ghost predicate Valid()
      reads this, pipe
    {
      && pipe.End() <= |pipe.source|
      && forall k {:trigger Open(k)} :: Open(k) ==> StateValid()
    }

    /** The job is over: its output is the signature of the file. */
    ghost predicate Finished(r: Result)
      reads this, pipe
    {
      && statefn == Complete && r == Done && Sane(RecipeOf())
      && pipe.output == SigBytes(RecipeOf(), pipe.source)
      && sigBlocks == CeilDiv(|pipe.source|, blockLen)
    }

    method Settle() returns (r: Result)
      requires Valid()
      modifies pipe
      ensures Valid() && pipe.Flowed() && pipe.taken == old(pipe.taken) && pipe.input == old(pipe.input)
      ensures r in {Done, Blocked} && (r.Done? <==> pipe.Idle()) && (r.Blocked? ==> pipe.availOut == 0)
      ensures old(!pipe.Idle() && pipe.availOut > 0) ==> pipe.availOut < old(pipe.availOut)
    {
      assert Open(0);
      r := pipe.Catchup();
      assert StateValid();
    }

    method RunState() returns (r: Result)
      requires Valid() && pipe.Idle()
      modifies this, pipe
      ensures r in {Running, Blocked, Done} && pipe.Flowed() && pipe.availOut == old(pipe.availOut)
      ensures r == Running ==> Valid() && old(pipe.taken) <= pipe.taken && Rank() < old(Rank())
      ensures r == Blocked ==> Valid() && pipe.input == [] && !pipe.eofIn
      ensures r == Done ==> pipe.input == [] && Ending()
    {
      assert Open(0);
      match statefn
      case Header => r := SigHeaderState();
      case Generate => r := SigGenerate();
    }

    ghost function Rank(): int
      requires pipe.taken <= |pipe.source|
      reads this, pipe
    {
      |pipe.source| - pipe.taken + if statefn == Header then 1 else 0
    }

    /** A state function ended the job. */
    ghost predicate Ending()
      reads this, pipe
    {
      && pipe.Valid() && pipe.Idle() && pipe.taken == |pipe.source| && Sane(RecipeOf())
      && OnSchedule(RecipeOf(), pipe.source, pipe.sent, sigBlocks, pipe.taken)
    }

    method JobComplete(result: Result) returns (r: Result)
      requires Ending() && result == Done
      modifies this`statefn
      ensures Finished(r)
    {
      OnScheduleEnd(RecipeOf(), pipe.source, pipe.sent, sigBlocks);
      pipe.Contents();
      statefn := Complete;
      r := if result == Done && (pipe.writeBuf != [] || pipe.copyLen != 0) then Blocked else result;
    }

    /** Steps the job until it blocks or ends. */
    method Work() returns (r: Result)
      requires Valid()
      modifies this, pipe
      ensures pipe.Flowed() && r in {Blocked, Done}
      ensures r == Blocked ==> Valid() && (pipe.availOut == 0 || (pipe.input == [] && !pipe.eofIn))
      ensures r == Done ==> Finished(r)
      ensures old(pipe.input != [] && pipe.availOut > 0) ==>
        |pipe.input| < old(|pipe.input|) || pipe.availOut < old(pipe.availOut)
    {
      while true
        invariant Valid() && pipe.Flowed() && pipe.taken <= |pipe.source|
        decreases Rank()
      {
        r := Settle();
        if r == Blocked {
          return;
        }
        r := RunState();
        if r == Blocked {
          return;
        }
        if r != Running {
          r := JobComplete(r);
          return;
        }
      }
    }

    /** The "made no progress" exit of rs_job_iter is never taken. */
    method Iter() returns (r: Result)
      requires Valid()
      modifies this, pipe
      ensures pipe.Flowed() && r in {Blocked, Done}
      ensures r == Blocked ==> Valid() && (pipe.availOut == 0 || (pipe.input == [] && !pipe.eofIn))
      ensures r == Done ==> Finished(r)
    {
      var origIn, origOut := |pipe.input|, pipe.availOut;
      r := Work();
      if (r == Blocked || r == Done) && origIn == |pipe.input| && origOut == pipe.availOut
        && origIn > 0 && origOut > 0
      {
        assert false;
        r := InternalError;
      }
    }

    ghost function ToFeed(): int
      reads pipe
    {
      2 * (|pipe.source| - pipe.End()) + if pipe.eofIn then 0 else 1
    }

    ghost function ToWrite(): int
      requires Sane(RecipeOf())
      reads this, pipe
    {
      |SigBytes(RecipeOf(), pipe.source)| - |pipe.output|
    }

    lemma OutputBounded()
      requires Valid() && Sane(RecipeOf())
      ensures ToWrite() >= 0
    {
      assert Open(0);
      pipe.Contents();
      if statefn == Generate {
        OnScheduleBound(RecipeOf(), pipe.source, pipe.sent, sigBlocks, pipe.taken);
      }
    }

    method FillIn(file: seq<Byte>, fed: nat) returns (fed': nat)
      requires Valid() && pipe.source == file && fed == pipe.End()
      modifies pipe`input, pipe`eofIn
      ensures Valid() && fed' == pipe.End()
      ensures ToFeed() <= old(ToFeed()) && (ToFeed() == old(ToFeed()) ==> pipe.input == old(pipe.input))
      ensures old(!pipe.eofIn && pipe.input == []) ==> ToFeed() < old(ToFeed())
    {
      assert Open(0);
      fed' := pipe.Fill(file, fed);
      assert StateValid();
    }

    method DrainOut()
      requires Valid()
      modifies pipe`availOut
      ensures Valid() && pipe.availOut > 0
    {
      assert Open(0);
      var room: nat :| room > 0;
      pipe.Drain(room);
    }

    /** One turn of rs_job_drive: fill, step, drain. */
    method Turn(file: seq<Byte>, fed: nat) returns (r: Result, fed': nat)
      requires Valid() && Sane(RecipeOf()) && pipe.source == file && fed == pipe.End()
      modifies this, pipe
      ensures r in {Blocked, Done} && (r == Blocked ==> Valid() && pipe.availOut > 0)
      ensures r == Done ==> Finished(r)
      ensures fed' == pipe.End() && 0 <= ToFeed() <= old(ToFeed()) && 0 <= ToWrite() <= old(ToWrite())
      ensures ToFeed() == old(ToFeed()) ==> |pipe.input| <= old(|pipe.input|)
      ensures r == Blocked ==>
        || old(pipe.availOut) == 0
        || ToFeed() < old(ToFeed())
        || |pipe.input| < old(|pipe.input|)
        || ToWrite() < old(ToWrite())
    {
      fed' := FillIn(file, fed);
      r := Iter();
      if r == Blocked {
        OutputBounded();
        DrainOut();
      }
    }

    /** rs_job_drive: in pieces of any size and into output buffers of any size,
      * the job ends having written the signature of the file.
      */
    method Drive(file: seq<Byte>) returns (r: Result)
      requires Valid() && statefn == Header && Sane(RecipeOf()) && pipe.source == file && pipe.End() == 0
      modifies this, pipe
      ensures Finished(r)
    {
      var fed := 0;
      r := Blocked;
      OutputBounded();
      while r == Blocked
        invariant fed == pipe.End() <= |file| && ToFeed() >= 0 && ToWrite() >= 0
        invariant r in {Blocked, Done} && if r == Blocked then Valid() else Finished(r)
        decreases if r == Blocked then 1 else 0, ToFeed(), |pipe.input|, ToWrite(), if pipe.availOut == 0 then 1 else 0
      {
        r, fed := Turn(file, fed);
      }
    }
  }
}
