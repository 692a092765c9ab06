/** The resumable job that loads a signature (readsums.c, run by job.c): in
  * whatever pieces the stream arrives, the job ends as Load says it does.
  */
module LoadJob {
  import opened Codec
  import opened PatchSpec
  import opened Search
  import opened Pipe
  import opened SigSpec
  import Rollsum

  datatype State = NeedMagic | NeedBlockLen | NeedStrongLen | NeedWeak | NeedStrong | Complete

  class LoadJob {
    const pipe: Pipe
    ghost const outcome: Loaded

    var statefn: State
    var blockLen: nat
    var weakSig: int
    var signature: Signature

    ghost function StageOf(): LoadStage
      requires statefn != Complete
      reads this
    {
      match statefn
      case NeedMagic => AtMagic
      case NeedBlockLen => AtBlockLen
      case NeedStrongLen => AtStrongLen(blockLen)
      case NeedWeak => AtWeak(signature)
      case NeedStrong => AtStrong(signature, weakSig)
    }

    /** Only a field that is still incomplete waits in the scoop. */
    ghost predicate StateValid()
      reads this, pipe
    {
      && pipe.Valid() && pipe.Idle() && statefn != Complete
      && (pipe.scoop == [] || |pipe.scoop| < if statefn == NeedStrong then signature.strongLen else 4)
      && Leads(outcome, pipe.source, pipe.taken, StageOf())
    }

    constructor (ghost source: seq<Byte>)
      ensures Valid() && fresh(pipe) && pipe.source == source && outcome == Load(source, 0, AtMagic)
      ensures statefn == NeedMagic && pipe.End() == 0 && !pipe.eofIn
    {
      pipe := new Pipe(source);
      outcome := Load(source, 0, AtMagic);
      statefn, blockLen, weakSig, signature := NeedMagic, 0, 0, NO_SIGNATURE;
      new;
      LeadsUnfold(outcome, source, 0, AtMagic);
    }

    // ---------- readsums.c ----------

    /** A state function ended the job with result r. */
    ghost predicate Ending(r: Result)
      reads this, pipe
    {
      pipe.Valid() && pipe.Idle() && r == outcome.result && (r == Done ==> signature == outcome.sig)
    }

    /** A four-byte integer; when it is not all there, the outcome is settled if
      * no more can come.
      */
    method SuckN4() returns (r: Result, l: int)
      requires StateValid() && statefn in {NeedMagic, NeedBlockLen, NeedStrongLen, NeedWeak}
      modifies pipe`scoop, pipe`input, pipe`taken
      ensures pipe.Valid() && pipe.Idle() && pipe.Flowed() && |pipe.input| <= old(|pipe.input|)
      ensures r in {Done, Blocked, InputEnded} && (r == Done ==> pipe.scoop == [])
      ensures r == InputEnded <==> pipe.eofIn && pipe.End() == old(pipe.taken)
      ensures r == Done ==>
        pipe.taken == old(pipe.taken) + 4 <= |pipe.source| && l == Int4(pipe.source, old(pipe.taken))
      ensures r != Done ==> StateValid() && pipe.input == []
      ensures r == Blocked && pipe.eofIn ==> outcome.result == Blocked
      ensures r == InputEnded ==> outcome == if statefn == NeedWeak then Loaded(signature, Done) else Fails(InputEnded)
    {
      ghost var s, at, stage := pipe.source, pipe.taken, StageOf();
      if |s| < at + 4 {
        LeadsShort(outcome, s, at, stage);
      }
      var v;
      r, v := pipe.SuckNetInt(4, 4);
      l := ToInt32(v);
    }

    /** The integer at offset at has just been read. */
    ghost predicate ReadInt(at: nat)
      reads pipe
    {
      pipe.taken == at + 4 <= |pipe.source|
    }

    method LoadMagic() returns (r: Result)
      requires StateValid() && statefn == NeedMagic
      modifies this`statefn, pipe`scoop, pipe`input, pipe`taken
      ensures pipe.Flowed() && Advanced(r, old(Rank()))
      ensures r in {Running, Blocked, InputEnded, BadMagic}
      ensures r in {Running, BadMagic} ==>
        ReadInt(old(pipe.taken)) && (r == BadMagic <==> Int4(pipe.source, old(pipe.taken)) != SIG_MAGIC)
      ensures r == Running ==> statefn == NeedBlockLen
    {
      var l;
      r, l := SuckN4();
      if r != Done {
        return;
      }
      LeadsMagic(outcome, pipe.source, pipe.taken - 4);
      if l != SIG_MAGIC {
        return BadMagic;
      }
      statefn := NeedBlockLen;
      r := Running;
    }

    /** What every state function promises. */
    ghost predicate Advanced(r: Result, was: int)
      reads this, pipe
    {
      && (r == Running ==> StateValid() && Rank() < was)
      && (r == Blocked ==> StateValid() && pipe.input == [] && (pipe.eofIn ==> outcome.result == Blocked))
      && (r !in {Running, Blocked} ==> Ending(r) && r in {Done, InputEnded, BadMagic, Corrupt})
      && (r == Done ==> pipe.input == [])
    }

    method LoadBlockLen() returns (r: Result)
      requires StateValid() && statefn == NeedBlockLen
      modifies this`statefn, this`blockLen, pipe`scoop, pipe`input, pipe`taken
      ensures pipe.Flowed() && Advanced(r, old(Rank()))
      ensures r in {Running, Blocked, InputEnded, Corrupt}
      ensures r in {Running, Corrupt} ==>
        ReadInt(old(pipe.taken)) && (r == Corrupt <==> Int4(pipe.source, old(pipe.taken)) < 1)
      ensures r == Running ==> statefn == NeedStrongLen && blockLen == Int4(pipe.source, old(pipe.taken))
    {
      var l;
      r, l := SuckN4();
      if r != Done {
        return;
      }
      LeadsBlockLen(outcome, pipe.source, pipe.taken - 4);
      if l < 1 {
        return Corrupt;
      }
      blockLen := l;
      statefn := NeedStrongLen;
      r := Running;
    }

    method LoadStrongLen() returns (r: Result)
      requires StateValid() && statefn == NeedStrongLen
      modifies this`statefn, this`signature, pipe`scoop, pipe`input, pipe`taken
      ensures pipe.Flowed() && Advanced(r, old(Rank()))
      ensures r in {Running, Blocked, InputEnded, Corrupt}
      ensures r in {Running, Corrupt} ==>
        ReadInt(old(pipe.taken)) && (r == Corrupt <==> !(0 <= Int4(pipe.source, old(pipe.taken)) <= MD4_LENGTH))
      ensures r == Running ==>
        statefn == NeedWeak && signature == Signature(blockLen, Int4(pipe.source, old(pipe.taken)), [])
    {
      var l;
      r, l := SuckN4();
      if r != Done {
        return;
      }
      LeadsStrongLen(outcome, pipe.source, pipe.taken - 4, blockLen);
      if l < 0 || l > MD4_LENGTH {
        return Corrupt;
      }
      signature := Signature(blockLen, l, []);
      statefn := NeedWeak;
      r := Running;
    }

    method LoadWeak() returns (r: Result)
      requires StateValid() && statefn == NeedWeak
      modifies this`statefn, this`weakSig, pipe`scoop, pipe`input, pipe`taken
      ensures pipe.Flowed() && Advanced(r, old(Rank()))
      ensures r in {Running, Blocked, Done} && (r == Done <==> pipe.eofIn && pipe.End() == old(pipe.taken))
      ensures r == Running ==>
        && ReadInt(old(pipe.taken)) && statefn == NeedStrong
        && weakSig == Int4(pipe.source, old(pipe.taken)) % Rollsum.WORD
    {
      var l;
      r, l := SuckN4();
      if r == InputEnded {
        return Done;
      } else if r != Done {
        return;
      }
      LeadsWeak(outcome, pipe.source, pipe.taken - 4, signature);
      weakSig := l % Rollsum.WORD;
      statefn := NeedStrong;
      r := Running;
    }

    method LoadStrong() returns (r: Result)
      requires StateValid() && statefn == NeedStrong
      modifies this`statefn, this`signature, pipe`scoop, pipe`input, pipe`taken
      ensures pipe.Flowed() && Advanced(r, old(Rank()))
      ensures r in {Running, Blocked, InputEnded}
      ensures r == Running ==> statefn == NeedWeak && pipe.taken == old(pipe.taken) + old(signature).strongLen
      ensures r == Running ==> signature == AddSum(old(signature), weakSig, pipe.source[old(pipe.taken)..pipe.taken])
    {
      ghost var at := pipe.taken;
      if |pipe.source| < at + signature.strongLen {
        LeadsShort(outcome, pipe.source, at, StageOf());
      }
      var strong;
      r, strong := pipe.ScoopRead(signature.strongLen, signature.strongLen);
      if r != Done {
        return;
      }
      LeadsStrong(outcome, pipe.source, at, signature, weakSig);
      statefn := NeedWeak;
      signature := AddSum(signature, weakSig, strong);
      r := Running;
    }

    // ---------- job.c ----------

    ghost predicate Valid()
      reads this, pipe
    {
      && pipe.End() <= |pipe.source|
      && forall k {:trigger Open(k)} :: Open(k) ==> StateValid()
    }

    /** The job is over and ended as the whole stream says. */
    ghost predicate Finished(r: Result)
      reads this
    {
      statefn == Complete && r == outcome.result && (r == Done ==> signature == outcome.sig)
    }

    ghost function Rank(): int
      requires pipe.taken <= |pipe.source|
      reads this, pipe
    {
      2 * (|pipe.source| - pipe.taken) + if statefn == NeedStrong then 1 else 0
    }

    method RunState() returns (r: Result)
      requires Valid()
      modifies this, pipe
      ensures pipe.Flowed() && r != InternalError && pipe.taken <= |pipe.source|
      ensures r == Running ==> Valid() && Rank() < old(Rank())
      ensures r == Blocked ==> Valid() && pipe.input == [] && (pipe.eofIn ==> outcome.result == Blocked)
      ensures r !in {Running, Blocked} ==> Ending(r)
      ensures r == Done ==> pipe.input == []
    {
      assert Open(0);
      match statefn
      case NeedMagic => r := LoadMagic();
      case NeedBlockLen => r := LoadBlockLen();
      case NeedStrongLen => r := LoadStrongLen();
      case NeedWeak => r := LoadWeak();
      case NeedStrong => r := LoadStrong();
    }

    method JobComplete(result: Result) returns (r: Result)
      requires Ending(result)
      modifies this`statefn
      ensures r == result && Finished(r)
    {
      statefn := Complete;
      r := if result == Done && (pipe.writeBuf != [] || pipe.copyLen != 0) then Blocked else result;
    }

    /** rs_tube_catchup; this job queues nothing. */
    method Settle() returns (r: Result)
      requires Valid()
      modifies pipe
      ensures Valid() && pipe.Flowed() && r == Done && pipe.taken == old(pipe.taken)
      ensures pipe.availOut == old(pipe.availOut)
    {
      assert Open(0);
      r := pipe.Catchup();
      assert StateValid();
    }

    /** Steps the job until it blocks or ends. */
    method Work() returns (r: Result)
      requires Valid()
      modifies this, pipe
      ensures pipe.Flowed() && r !in {Running, InternalError}
      ensures r == Blocked ==> Valid() && (pipe.eofIn ==> outcome.result == Blocked)
      ensures r == Done || r == Blocked ==> pipe.input == []
      ensures r != Blocked ==> Finished(r)
    {
      while true
        invariant Valid() && pipe.Flowed() && pipe.taken <= |pipe.source|
        decreases Rank()
      {
        r := Settle();
        r := RunState();
        if r == Blocked {
          return;
        }
        if r != Running {
          r := JobComplete(r);
          return;
        }
      }
    }

    /** The "made no progress" exit of rs_job_iter is never taken. */
    method Iter() returns (r: Result)
      requires Valid()
      modifies this, pipe
      ensures pipe.Flowed() && r !in {Running, InternalError}
      ensures r == Blocked ==> Valid() && pipe.input == [] && (pipe.eofIn ==> outcome.result == Blocked)
      ensures r != Blocked ==> Finished(r)
    {
      var origIn, origOut := |pipe.input|, pipe.availOut;
      r := Work();
      if (r == Blocked || r == Done) && origIn == |pipe.input| && origOut == pipe.availOut
        && origIn > 0 && origOut > 0
      {
        assert false;
        r := InternalError;
      }
    }

    ghost function ToFeed(): int
      reads pipe
    {
      2 * (|pipe.source| - pipe.End()) + if pipe.eofIn then 0 else 1
    }

    method FillIn(file: seq<Byte>, fed: nat) returns (fed': nat)
      requires Valid() && pipe.source == file && fed == pipe.End()
      modifies pipe`input, pipe`eofIn
      ensures Valid() && fed' == pipe.End() && 0 <= ToFeed() <= old(ToFeed())
      ensures old(!pipe.eofIn && pipe.input == []) ==> ToFeed() < old(ToFeed())
    {
      assert Open(0);
      fed' := pipe.Fill(file, fed);
      assert StateValid();
    }

    /** rs_job_drive without an output callback: for every stream that does not
      * wait for ever, in pieces of any size, the job ends as Load says.
      */
    method Drive(file: seq<Byte>) returns (r: Result)
      requires Valid() && outcome.result != Blocked && pipe.source == file && pipe.End() == 0 && !pipe.eofIn
      modifies this, pipe
      ensures Finished(r)
    {
      var fed := 0;
      r := Blocked;
      while r == Blocked
        invariant fed == pipe.End() <= |file|
        invariant if r == Blocked then Valid() && pipe.input == [] else Finished(r)
        invariant r == Blocked && pipe.eofIn ==> outcome.result == Blocked
        decreases if r == Blocked then 1 else 0, ToFeed()
      {
        fed := FillIn(file, fed);
        r := Iter();
      }
    }

    lemma AllFed()
      requires Valid()
      ensures pipe.eofIn ==> pipe.End() == |pipe.source|
    {
      assert Open(0);
    }

    /** The other streams, which SigSpec.LoadWaits tells apart, are waited on for ever: the job
      * is blocked when all of the stream and its end have been fed, and after any number of
      * turns more.
      */
    method DriveFor(file: seq<Byte>, turns: nat) returns (r: Result)
      requires Valid() && outcome.result == Blocked && pipe.source == file && pipe.End() == 0 && !pipe.eofIn
      modifies this, pipe
      ensures r == Blocked && Valid() && pipe.eofIn && pipe.End() == |file|
    {
      var fed := 0;
      r := Blocked;
      while !pipe.eofIn
        invariant fed == pipe.End() && r == Blocked && Valid() && pipe.input == []
        decreases ToFeed()
      {
        fed := FillIn(file, fed);
        r := Iter();
      }
      AllFed();
      for i := 0 to turns
        invariant fed == pipe.End() && r == Blocked && Valid() && pipe.eofIn && pipe.End() == |file|
      {
        fed := FillIn(file, fed);
        r := Iter();
      }
    }
  }
}
