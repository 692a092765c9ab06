/** The resumable delta job (delta.c, emit.c, run by job.c): whatever pieces the
  * caller feeds and whenever the output blocks, the bytes it sends are DeltaBytes
  * of the whole file.
  */
module DeltaJob {
  import opened Codec
  import opened Wrappers
  import opened PatchSpec
  import opened Search
  import opened DeltaSpec
  import opened Pipe
  import Rollsum

  datatype State = Header | Scan | FlushRest | EndCmd | Complete

  ghost function PlanOf(m: Matcher, bufLen: nat): Plan
    requires m.Valid()
  {
    Plan(m.sig.blockLen, bufLen, (w: seq<Byte>) => m.Lookup(w))
  }

  /** The opcodes of copies are ordered by the width of the offset, then by that of the length. */
  method ChooseCopyCmd(whereBytes: nat, lenBytes: nat) returns (cmd: Byte)
    requires whereBytes in {1, 2, 4, 8} && lenBytes in {1, 2, 4, 8}
    ensures cmd == 0x45 + 4 * WidthIndex(whereBytes) + WidthIndex(lenBytes)
  {
    cmd := if whereBytes == 8 then 0x51 else if whereBytes == 4 then 0x4d else if whereBytes == 2 then 0x49 else 0x45;
    cmd := cmd + if lenBytes == 1 then 0 else if lenBytes == 2 then 1 else if lenBytes == 4 then 2 else 3;
  }

  lemma Concat3(a: seq<Byte>, b: seq<Byte>, c: seq<Byte>)
    ensures a + b + c == a + (b + c)
  {
  }

  lemma Concat4(a: seq<Byte>, b: seq<Byte>, c: seq<Byte>, d: seq<Byte>)
    ensures a + b + c + d == a + (b + c + d)
  {
  }

  class DeltaJob {
    const pipe: Pipe
    const table: HashTable
    const weakSum: Rollsum.Accumulator
    const blockLen: nat
    const bufLen: nat
    ghost const plan: Plan
    /** The delta of the whole file. */
    ghost const whole: Debt

    var statefn: State
    /** Scanned bytes of the scoop that are not processed yet. */
    var scoopPos: nat
    /** The match being extended; none when basisLen is zero. */
    var basisPos: nat
    var basisLen: nat
    var stats: Tally
    /** The commands emitted so far. */
    ghost var log: seq<LogEntry>

    /** Where the scan stands in the whole file. While a copy is pending,
      * scoopPos counts from the end of that copy.
      */
    ghost function ScanPos(): int
      reads this, pipe
    {
      pipe.taken + pipe.copyLen + scoopPos
    }

    ghost function LastOne(): Last
      reads this
    {
      if basisLen > 0 then Match(basisPos, basisLen) else Miss(scoopPos)
    }

    ghost predicate Wired()
      reads table.tagTable
    {
      && table.Valid() && blockLen == table.m.sig.blockLen
      && plan == PlanOf(table.m, bufLen)
      && Fits(plan, pipe.source)
    }

    /** The scan position is inside the scoop and the job is on track there. */
    ghost predicate Tracking()
      requires Fits(plan, pipe.source)
      reads this, pipe
    {
      && pipe.Valid() && pipe.copyLen >= 0 && pipe.copyLen + scoopPos <= |pipe.scoop| && Tallies(stats, log)
      && OnTrack(plan, pipe.source, whole, pipe.sent, log, ScanPos(), LastOne())
    }

    /** The rolling sum is empty or is that of the window at the scan position. */
    ghost predicate Rolled(p: int)
      reads weakSum
    {
      0 <= p <= |pipe.source| && (weakSum.Holds([]) || weakSum.Holds(Window(pipe.source, blockLen, p)))
    }

    constructor (table: HashTable, bufLen: nat, ghost source: seq<Byte>)
      requires table.Valid() && Fits(PlanOf(table.m, bufLen), source)
      ensures Valid() && fresh(pipe) && fresh(weakSum) && this.table == table
      ensures plan == PlanOf(table.m, bufLen) && whole == WholeDelta(plan, source)
      ensures statefn == Header
      ensures pipe.Valid() && pipe.Idle() && pipe.source == source && pipe.sent == [] && pipe.taken == 0
      ensures pipe.input == [] && pipe.scoop == [] && pipe.output == [] && !pipe.eofIn && pipe.availOut == 0
    {
      pipe := new Pipe(source);
      weakSum := new Rollsum.Accumulator();
      this.table, this.bufLen, blockLen := table, bufLen, table.m.sig.blockLen;
      ghost var pl := PlanOf(table.m, bufLen);
      plan, whole := pl, WholeDelta(pl, source);
      statefn, scoopPos, basisPos, basisLen, stats, log := Header, 0, 0, 0, ZERO_TALLY, [];
      OnTrackStart(pl, source);
      TalliesStart();
      new;
      assert Wired() && pipe.Valid();
      assert OnTrack(plan, pipe.source, whole, NetInt(DELTA_MAGIC, 4), [], 0, Miss(0));
      assert StateValid();
    }

    // ---------- emit.c ----------

    method Account(e: LogEntry)
      requires Tallies(stats, log)
      modifies this`stats, this`log
      ensures log == old(log) + [e] && Tallies(stats, log)
    {
      TalliesAppend(stats, log, e);
      stats := stats.Count(e);
      log := log + [e];
    }

    method EmitLiteralCmd(len: nat)
      requires pipe.Valid() && pipe.Idle() && len < MAX_INT && Tallies(stats, log)
      modifies this`stats, this`log, pipe`writeBuf, pipe`sent
      ensures pipe.Valid() && pipe.sent == old(pipe.sent) + LiteralHeader(len)
      ensures log == old(log) + [LitEntry(len, 1 + IntLen(len))] && Tallies(stats, log)
    {
      var paramLen := IntLen(len);
      var cmd := if paramLen == 1 then 0x41 else if paramLen == 2 then 0x42 else 0x43;
      pipe.TubeWrite([cmd]);
      pipe.SquirtNetInt(len, paramLen);
      Account(LitEntry(len, 1 + paramLen));
    }

    method EmitCopyCmd(where: nat, len: nat)
      requires pipe.Valid() && pipe.Idle() && where < MAX_LONG && len < MAX_LONG && Tallies(stats, log)
      modifies this`stats, this`log, pipe`writeBuf, pipe`sent
      ensures pipe.Valid() && pipe.sent == old(pipe.sent) + CopyHeader(where, len)
      ensures log == old(log) + [EntryOf(CopyCmd(where, len))] && Tallies(stats, log)
    {
      var whereBytes, lenBytes := IntLen(where), IntLen(len);
      var cmd := ChooseCopyCmd(whereBytes, lenBytes);
      ghost var sent := pipe.sent;
      pipe.TubeWrite([cmd]);
      pipe.SquirtNetInt(where, whereBytes);
      pipe.SquirtNetInt(len, lenBytes);
      Concat4(sent, [cmd], NetInt(where, whereBytes), NetInt(len, lenBytes));
      Account(CopyEntry(where, len, 1 + whereBytes + lenBytes));
    }

    // ---------- delta.c ----------

    /** Drops the scanned bytes of a match off the scoop. */
    method ProcessMatch() returns (r: Result)
      requires pipe.Valid() && pipe.copyLen == 0 && scoopPos <= |pipe.scoop|
      modifies this`scoopPos, pipe
      ensures pipe.Valid() && pipe.Steady() && pipe.sent == old(pipe.sent)
      ensures scoopPos == 0 && pipe.copyLen == 0 && pipe.taken == old(pipe.taken + scoopPos)
      ensures r in {Done, Blocked} && (r.Done? <==> pipe.Idle()) && (r.Blocked? ==> pipe.availOut == 0)
      ensures old(pipe.Idle()) ==> r.Done?
    {
      pipe.DropScanned(scoopPos);
      scoopPos := 0;
      r := pipe.Catchup();
    }

    /** Queues the scanned bytes for copying to the output as literal data. */
    method ProcessMiss() returns (r: Result)
      requires pipe.Valid() && pipe.copyLen == 0 && 0 < scoopPos <= |pipe.scoop|
      modifies this`scoopPos, pipe
      ensures pipe.Valid() && pipe.Steady()
      ensures pipe.sent == old(pipe.sent) + old(pipe.source[pipe.taken..pipe.taken + scoopPos])
      ensures scoopPos == 0 && 0 <= pipe.copyLen <= |pipe.scoop|
      ensures pipe.taken + pipe.copyLen == old(pipe.taken + scoopPos)
      ensures r in {Done, Blocked} && (r.Done? <==> pipe.Idle()) && (r.Blocked? ==> pipe.availOut == 0)
    {
      pipe.TubeCopy(scoopPos);
      scoopPos := 0;
      r := pipe.Catchup();
    }

    /** Flushes last, the match or miss being extended at p. */
    method AppendFlush(ghost p: nat, ghost last: Last) returns (r: Result)
      requires pipe.Valid() && pipe.Idle() && scoopPos <= |pipe.scoop| && Tallies(stats, log)
      requires p == ScanPos() && last == LastOne() && last.len <= p && AllEncodable(Flush(pipe.source, p, last))
      modifies this`scoopPos, this`basisLen, this`stats, this`log, pipe
      ensures pipe.Valid() && pipe.Steady()
      ensures pipe.sent == old(pipe.sent) + EncodeFlush(Flush(pipe.source, p, last))
      ensures log == old(log) + LogFlush(Flush(pipe.source, p, last)) && Tallies(stats, log)
      ensures basisLen == 0 && scoopPos == 0 && 0 <= pipe.copyLen <= |pipe.scoop| && ScanPos() == p
      ensures r in {Done, Blocked} && (r.Done? <==> pipe.Idle()) && (r.Blocked? ==> pipe.availOut == 0)
    {
      if basisLen > 0 {
        FlushOfMatch(pipe.source, p, basisPos, basisLen);
        EmitCopyCmd(basisPos, basisLen);
        basisLen := 0;
        r := ProcessMatch();
      } else if scoopPos > 0 {
        FlushOfMiss(pipe.source, p, scoopPos);
        Concat3(pipe.sent, LiteralHeader(scoopPos), pipe.source[pipe.taken..p]);
        EmitLiteralCmd(scoopPos);
        r := ProcessMiss();
      } else {
        r := Done;
      }
    }

    method AppendMatch(matchPos: nat, matchLen: nat) returns (r: Result)
      requires plan.blockLen == blockLen && plan.bufLen == bufLen
      requires Fits(plan, pipe.source) && Tracking() && pipe.Idle() && ScanPos() < |pipe.source|
      requires var w := Window(pipe.source, blockLen, ScanPos());
        plan.lookup(w) == Some(matchPos) && matchLen == |w| && scoopPos + matchLen <= |pipe.scoop|
      modifies this`scoopPos, this`basisPos, this`basisLen, this`stats, this`log, pipe
      ensures Tracking() && pipe.Steady() && ScanPos() == old(ScanPos()) + matchLen && (r.Done? ==> scoopPos == 0)
      ensures r in {Done, Blocked} && (r.Done? <==> pipe.Idle()) && (r.Blocked? ==> pipe.availOut == 0)
    {
      OnTrackMatch(plan, pipe.source, whole, pipe.sent, log, ScanPos(), LastOne(), matchPos, matchLen);
      ghost var p, last := ScanPos(), LastOne();
      r := Done;
      if basisLen > 0 && basisPos + basisLen == matchPos {
        basisLen := basisLen + matchLen;
      } else {
        r := AppendFlush(p, last);
        basisPos, basisLen := matchPos, matchLen;
      }
      ghost var next := Match(basisPos, basisLen);
      assert OnTrack(plan, pipe.source, whole, pipe.sent, log, p + matchLen, next);
      scoopPos := scoopPos + matchLen;
      assert ScanPos() == p + matchLen && LastOne() == next;
      if r == Done {
        r := ProcessMatch();
        assert ScanPos() == p + matchLen && LastOne() == next;
      }
    }

    method AppendMiss() returns (r: Result)
      requires plan.blockLen == blockLen && plan.bufLen == bufLen
      requires Fits(plan, pipe.source) && Tracking() && pipe.Idle() && ScanPos() < |pipe.source|
      requires plan.lookup(Window(pipe.source, blockLen, ScanPos())) == None && scoopPos + 1 <= |pipe.scoop|
      modifies this`scoopPos, this`basisLen, this`stats, this`log, pipe
      ensures Tracking() && pipe.Steady() && ScanPos() == old(ScanPos()) + 1
      ensures r in {Done, Blocked} && (r.Done? <==> pipe.Idle()) && (r.Blocked? ==> pipe.availOut == 0)
    {
      OnTrackMiss(plan, pipe.source, whole, pipe.sent, log, ScanPos(), LastOne());
      ghost var p, last := ScanPos(), LastOne();
      r := Done;
      if basisLen > 0 || scoopPos >= bufLen {
        r := AppendFlush(p, last);
      }
      scoopPos := scoopPos + 1;
    }

    /** Moves all the input into the scoop. */
    method GetInput()
      requires pipe.Valid()
      modifies pipe
      ensures pipe.Valid() && pipe.Flowed() && pipe.input == [] && |pipe.scoop| >= old(|pipe.scoop|)
      ensures pipe.taken == old(pipe.taken) && pipe.copyLen == old(pipe.copyLen) && pipe.sent == old(pipe.sent)
      ensures pipe.availOut == old(pipe.availOut) && old(pipe.Idle()) ==> pipe.Idle()
    {
      var len := |pipe.scoop| + |pipe.input|;
      if |pipe.scoop| < len {
        pipe.ScoopInput(len);
      }
    }

    /** The window at the scan position is in the scoop. */
    ghost predicate WindowReady()
      reads this, pipe
    {
      && pipe.Valid() && pipe.copyLen == 0 && scoopPos < |pipe.scoop|
      && (scoopPos + blockLen <= |pipe.scoop| || pipe.taken + |pipe.scoop| == |pipe.source|)
    }

    method SearchWindow(w: seq<Byte>) returns (where: Option<nat>)
      requires Wired() && weakSum.Holds(w)
      ensures where == plan.lookup(w)
    {
      var weak := weakSum.Digest(w);
      where := table.SearchForBlock(weak, w);
    }

    /** The window at the scan position; its length is that of a sum held already. */
    method ReadWindow() returns (w: seq<Byte>)
      requires WindowReady() && Rolled(ScanPos())
      ensures w == Window(pipe.source, blockLen, ScanPos()) && scoopPos + |w| <= |pipe.scoop|
      ensures weakSum.Holds(if weakSum.count == 0 then [] else w)
    {
      var len;
      if weakSum.count == 0 {
        len := Min(|pipe.scoop| - scoopPos, blockLen);
      } else {
        len := weakSum.count;
      }
      w := pipe.scoop[scoopPos..scoopPos + len];
      pipe.Contents();
      WindowInScoop(pipe.source, blockLen, pipe.taken, pipe.scoop, scoopPos, len);
    }

    method FindMatch() returns (where: Option<nat>, len: nat)
      requires Wired() && WindowReady() && Rolled(ScanPos())
      modifies weakSum
      ensures weakSum.Holds(Window(pipe.source, blockLen, ScanPos()))
      ensures len == |Window(pipe.source, blockLen, ScanPos())| && scoopPos + len <= |pipe.scoop|
      ensures where == plan.lookup(Window(pipe.source, blockLen, ScanPos()))
    {
      var w := ReadWindow();
      len := |w|;
      if weakSum.count == 0 {
        assert [] + w == w;
        weakSum.Update(w, []);
      }
      where := SearchWindow(w);
    }

    /** The sum of the window goes on by one byte. */
    method RotateSum()
      requires Wired() && pipe.Valid() && pipe.Idle() && scoopPos + blockLen < |pipe.scoop|
      requires weakSum.Holds(Window(pipe.source, blockLen, ScanPos()))
      modifies weakSum
      ensures weakSum.Holds(Window(pipe.source, blockLen, ScanPos() + 1))
    {
      pipe.Contents();
      ghost var p := ScanPos();
      WindowRotates(pipe.source, blockLen, p);
      assert pipe.scoop[scoopPos] == pipe.source[p] && pipe.scoop[scoopPos + blockLen] == pipe.source[p + blockLen];
      weakSum.Rotate(pipe.scoop[scoopPos], pipe.scoop[scoopPos + blockLen], Window(pipe.source, blockLen, p));
    }

    /** One turn of the scan loop: a match, or a miss that rolls the sum on. */
    method ScanOne() returns (r: Result)
      requires Wired() && Tracking() && pipe.Idle() && Rolled(ScanPos()) && scoopPos + blockLen < |pipe.scoop|
      modifies this`scoopPos, this`basisPos, this`basisLen, this`stats, this`log, pipe, weakSum
      ensures Tracking() && pipe.Steady() && Rolled(ScanPos()) && ScanPos() > old(ScanPos())
      ensures r in {Done, Blocked} && (r.Done? <==> pipe.Idle()) && (r.Blocked? ==> pipe.availOut == 0)
    {
      var where, len := FindMatch();
      if where.Some? {
        r := AppendMatch(where.value, len);
        weakSum.Init();
      } else {
        RotateSum();
        r := AppendMiss();
      }
    }

    /** One turn of the flush loop: the window only shrinks. */
    method FlushOne() returns (r: Result)
      requires Wired() && Tracking() && pipe.Idle() && Rolled(ScanPos()) && scoopPos < |pipe.scoop|
      requires pipe.taken + |pipe.scoop| == |pipe.source| <= ScanPos() + blockLen
      modifies this`scoopPos, this`basisPos, this`basisLen, this`stats, this`log, pipe, weakSum
      ensures Tracking() && pipe.Steady() && Rolled(ScanPos()) && ScanPos() > old(ScanPos())
      ensures r in {Done, Blocked} && (r.Done? <==> pipe.Idle()) && (r.Blocked? ==> pipe.availOut == 0)
    {
      var where, len := FindMatch();
      pipe.Contents();
      if where.Some? {
        r := AppendMatch(where.value, len);
        weakSum.Init();
      } else {
        ghost var p := ScanPos();
        WindowShrinks(pipe.source, blockLen, p);
        assert pipe.scoop[scoopPos] == pipe.source[p];
        weakSum.Rollout(pipe.scoop[scoopPos], Window(pipe.source, blockLen, p));
        r := AppendMiss();
      }
    }

    /** What every call leaves behind, state by state. */
    ghost predicate StateValid()
      reads this, pipe, weakSum, table.tagTable
    {
      && Wired() && pipe.Valid()
      && match statefn
         case Header =>
           && pipe.Idle() && pipe.sent == [] && log == [] && Tallies(stats, log)
           && pipe.taken == scoopPos == basisLen == 0 && weakSum.Holds([])
                        && OnTrack(plan, pipe.source, whole, NetInt(DELTA_MAGIC, 4), [], 0, Miss(0))
         case Scan => Tracking() && Rolled(ScanPos())
         case FlushRest => Tracking() && Rolled(ScanPos()) && AllIn() && |pipe.source| <= ScanPos() + blockLen
         case EndCmd => Ended() && pipe.sent + [0] == whole.bytes
         case Complete => Ended() && pipe.sent == whole.bytes
    }

    /** StateValid, folded until Open(k) is mentioned. */
    ghost predicate Valid()
      reads this, pipe, weakSum, table.tagTable
    {
      forall k {:trigger Open(k)} :: Open(k) ==> StateValid()
    }

    /** The whole file has been fed and is in the scoop. */
    ghost predicate AllIn()
      reads pipe
    {
      pipe.eofIn && pipe.input == [] && pipe.taken + |pipe.scoop| == |pipe.source|
    }

    ghost predicate Ended()
      reads this, pipe
    {
      AllIn() && 0 <= pipe.copyLen <= |pipe.scoop| && log == whole.log && Tallies(stats, log)
    }

    ghost function Rank(): nat
      reads this
    {
      match statefn case Header => 4 case Scan => 3 case FlushRest => 2 case EndCmd => 1 case Complete => 0
    }

    method DeltaHeader() returns (r: Result)
      requires StateValid() && statefn == Header
      modifies this`statefn, pipe
      ensures StateValid() && statefn == Scan && r == Running && pipe.Flowed() && pipe.input == old(pipe.input)
      ensures pipe.writeBuf != [] && pipe.availOut == old(pipe.availOut)
    {
      pipe.SquirtNetInt(DELTA_MAGIC, 4);
      assert [] + NetInt(DELTA_MAGIC, 4) == NetInt(DELTA_MAGIC, 4);
      statefn := Scan;
      r := Running;
    }

    method DeltaScan() returns (r: Result)
      requires StateValid() && statefn == Scan
      modifies this, pipe, weakSum
      ensures StateValid() && pipe.Flowed() && pipe.input == []
      ensures r == Running ==> statefn == FlushRest
      ensures r != Running ==> r == Blocked && statefn == Scan && (pipe.availOut == 0 || !pipe.eofIn)
    {
      GetInput();
      r := pipe.Catchup();
      while r == Done && scoopPos + blockLen < |pipe.scoop|
        invariant Wired() && Tracking() && Rolled(ScanPos()) && statefn == Scan
        invariant pipe.Flowed() && pipe.input == []
        invariant r in {Done, Blocked} && (r.Done? <==> pipe.Idle()) && (r.Blocked? ==> pipe.availOut == 0)
        decreases |pipe.source| - ScanPos()
      {
        r := ScanOne();
      }
      if r == Done {
        if pipe.eofIn {
          statefn := FlushRest;
          r := Running;
        } else {
          r := Blocked;
        }
      }
    }

    method DeltaFlush() returns (r: Result)
      requires StateValid() && statefn == FlushRest
      modifies this, pipe, weakSum
      ensures StateValid() && pipe.Flowed() && pipe.input == []
      ensures r == Running ==> statefn == EndCmd
      ensures r != Running ==> r == Blocked && statefn in {FlushRest, EndCmd} && pipe.availOut == 0
    {
      GetInput();
      r := pipe.Catchup();
      while r == Done && scoopPos < |pipe.scoop|
        invariant Wired() && Tracking() && Rolled(ScanPos()) && statefn == FlushRest
        invariant pipe.Flowed() && AllIn() && |pipe.source| <= ScanPos() + blockLen
        invariant r in {Done, Blocked} && (r.Done? <==> pipe.Idle()) && (r.Blocked? ==> pipe.availOut == 0)
        decreases |pipe.source| - ScanPos()
      {
        r := FlushOne();
      }
      if r == Done {
        r := FlushLast();
        statefn := EndCmd;
      }
      if r == Done {
        r := Running;
      }
    }

    method FlushLast() returns (r: Result)
      requires Wired() && Tracking() && pipe.Idle() && AllIn() && scoopPos == |pipe.scoop|
      modifies this`scoopPos, this`basisLen, this`stats, this`log, pipe
      ensures pipe.Valid() && pipe.Flowed() && Ended() && pipe.sent + [0] == whole.bytes
      ensures r in {Done, Blocked} && (r.Blocked? ==> pipe.availOut == 0)
    {
      OnTrackEnd(plan, pipe.source, whole, pipe.sent, log, LastOne());
      r := AppendFlush(ScanPos(), LastOne());
    }

    method DeltaEnd() returns (r: Result)
      requires StateValid() && statefn == EndCmd && pipe.Idle()
      modifies pipe
      ensures Ended() && Wired() && pipe.Valid() && pipe.sent == whole.bytes && !pipe.Idle()
      ensures r == Done && pipe.Flowed() && pipe.input == [] && pipe.availOut == old(pipe.availOut)
    {
      pipe.TubeWrite([0]);
      r := Done;
    }

    // ---------- job.c ----------

    /** rs_tube_catchup between state functions. */
    method Settle() returns (r: Result)
      requires Valid()
      modifies pipe
      ensures Valid() && pipe.Flowed() && pipe.input == old(pipe.input)
      ensures r in {Done, Blocked} && (r.Done? <==> pipe.Idle()) && (r.Blocked? ==> pipe.availOut == 0)
      ensures old(!pipe.Idle() && pipe.availOut > 0) ==> pipe.availOut < old(pipe.availOut)
      ensures old(pipe.Idle()) ==> pipe.availOut == old(pipe.availOut)
      ensures statefn == Complete ==> pipe.input == []
    {
      assert Open(0);
      r := pipe.Catchup();
    }

    /** The state function of the current state. */
    method RunState() returns (r: Result)
      requires Valid() && statefn != Complete && pipe.Idle()
      modifies this, pipe, weakSum
      ensures pipe.Flowed() && Rank() <= old(Rank())
      ensures r != Done ==> Valid()
      ensures r == Running ==> Rank() < old(Rank())
      ensures r == Blocked ==> pipe.availOut == 0 || (statefn == Scan && pipe.input == [] && !pipe.eofIn)
      ensures r == Done ==> Ended() && Wired() && pipe.Valid() && pipe.sent == whole.bytes && !pipe.Idle()
      ensures r in {Running, Blocked, Done}
      ensures old(statefn == Header) ==>
        r == Running && !pipe.Idle() && pipe.input == old(pipe.input) && pipe.availOut == old(pipe.availOut)
      ensures old(statefn != Header) ==> pipe.input == []
    {
      assert Open(0);
      match statefn
      case Header => r := DeltaHeader();
      case Scan => r := DeltaScan();
      case FlushRest => r := DeltaFlush();
      case EndCmd => r := DeltaEnd();
    }

    /** rs_job_complete of a finished job whose end command waits in the tube. */
    method JobComplete() returns (r: Result)
      requires Ended() && Wired() && pipe.Valid() && pipe.sent == whole.bytes && !pipe.Idle()
      modifies this`statefn
      ensures Valid() && statefn == Complete && r == Blocked
    {
      statefn := Complete;
      r := if pipe.writeBuf == [] && pipe.copyLen == 0 then Done else Blocked;
    }

    /** Steps the job until it blocks or completes. */
    method Work() returns (r: Result)
      requires Valid()
      modifies this, pipe, weakSum
      ensures Valid() && pipe.Flowed() && Rank() <= old(Rank())
      ensures r in {Done, Blocked} && (r == Done ==> statefn == Complete && pipe.Idle())
      ensures r == Blocked ==>
        pipe.availOut == 0 || (statefn == Scan && pipe.input == [] && !pipe.eofIn) || Rank() < old(Rank())
      ensures old(pipe.input != [] && pipe.availOut > 0) ==> pipe.input == [] || pipe.availOut < old(pipe.availOut)
    {
      ghost var first := true;
      while true
        invariant Valid() && pipe.Flowed() && Rank() <= old(Rank())
        invariant first ==>
          && statefn == old(statefn) && pipe.input == old(pipe.input)
          && pipe.availOut == old(pipe.availOut) && pipe.Idle() == old(pipe.Idle())
        invariant !first ==>
          || pipe.input == []
          || pipe.availOut < old(pipe.availOut)
          || (!pipe.Idle() && pipe.availOut == old(pipe.availOut))
        decreases Rank()
      {
        r := Settle();
        if r == Blocked {
          return;
        }
        if statefn == Complete {
          return Done;
        }
        r := RunState();
        if r == Done {
          r := JobComplete();
          return;
        }
        if r == Blocked {
          return;
        }
        first := false;
      }
    }

    /** The "made no progress" exit of rs_job_iter is never taken. */
    method Iter() returns (r: Result)
      requires Valid()
      modifies this, pipe, weakSum
      ensures Valid() && pipe.Flowed() && Rank() <= old(Rank())
      ensures r in {Done, Blocked} && (r == Done ==> statefn == Complete && pipe.Idle())
      ensures r == Blocked ==>
        pipe.availOut == 0 || (statefn == Scan && pipe.input == [] && !pipe.eofIn) || Rank() < old(Rank())
    {
      var origIn, origOut := |pipe.input|, pipe.availOut;
      r := Work();
      if (r == Blocked || r == Done) && origIn == |pipe.input| && origOut == pipe.availOut
        && origIn > 0 && origOut > 0
      {
        r := InternalError;
      }
    }

    /** The output never runs ahead of the delta. */
    lemma OutputBounded()
      requires Valid()
      ensures pipe.End() <= |pipe.source| && |pipe.output| <= |whole.bytes|
      ensures statefn == Complete && pipe.Idle() ==> pipe.output == whole.bytes && stats == Stats(whole.log)
    {
      assert Open(0);
      pipe.Contents();
    }

    ghost function ToFeed(): int
      reads pipe
    {
      2 * (|pipe.source| - pipe.End()) + if pipe.eofIn then 0 else 1
    }

    ghost function ToWrite(): int
      reads this, pipe
    {
      |whole.bytes| - |pipe.output|
    }

    method FillIn(file: seq<Byte>, fed: nat) returns (fed': nat)
      requires Valid() && pipe.source == file && fed == pipe.End()
      modifies pipe`input, pipe`eofIn
      ensures Valid() && fed' == pipe.End()
      ensures ToFeed() <= old(ToFeed()) && (ToFeed() == old(ToFeed()) ==> pipe.input == old(pipe.input))
      ensures old(!pipe.eofIn && pipe.input == []) ==> ToFeed() < old(ToFeed())
    {
      assert Open(0);
      fed' := pipe.Fill(file, fed);
    }

    method DrainOut()
      requires Valid()
      modifies pipe`availOut
      ensures Valid() && pipe.availOut > 0
    {
      assert Open(0);
      var room: nat :| room > 0;
      pipe.Drain(room);
      assert StateValid();
    }

    /** One turn of rs_job_drive: fill, step, drain. Something always shrinks,
      * except that the first turn may find no room.
      */
    method Turn(file: seq<Byte>, fed: nat) returns (r: Result, fed': nat)
      requires Valid() && pipe.source == file && fed == pipe.End()
      modifies this, pipe, weakSum
      ensures Valid() && fed' == pipe.End() && pipe.availOut > 0 && ToFeed() >= 0 && ToWrite() >= 0
      ensures r in {Done, Blocked} && (r == Done ==> statefn == Complete && pipe.Idle())
      ensures ToFeed() <= old(ToFeed()) && ToWrite() <= old(ToWrite()) && Rank() <= old(Rank())
      ensures ToFeed() == old(ToFeed()) ==> |pipe.input| <= old(|pipe.input|)
      ensures r == Done || old(pipe.availOut) == 0 || ToFeed() < old(ToFeed()) || |pipe.input| < old(|pipe.input|)
              || ToWrite() < old(ToWrite()) || Rank() < old(Rank())
    {
      fed' := FillIn(file, fed);
      r := Iter();
      OutputBounded();
      DrainOut();
    }

    /** rs_job_drive: in pieces of any size, into output buffers of any size, the
      * job ends and its output is the delta of the whole file.
      */
    method Drive(file: seq<Byte>) returns (r: Result)
      requires Valid() && pipe.source == file && pipe.End() == 0
      modifies this, pipe, weakSum
      ensures r == Done && pipe.output == whole.bytes && stats == Stats(whole.log)
    {
      var fed := 0;
      r := Blocked;
      OutputBounded();
      while r != Done
        invariant fed == pipe.End() && Valid() && (r == Done ==> statefn == Complete && pipe.Idle())
        invariant ToFeed() >= 0 && ToWrite() >= 0
        decreases ToFeed(), |pipe.input|, ToWrite(), Rank(),
                  if pipe.availOut == 0 then 1 else 0, if r == Done then 0 else 1
      {
        r, fed := Turn(file, fed);
      }
      OutputBounded();
    }
  }

  lemma WindowInScoop(f: seq<Byte>, blockLen: nat, taken: nat, scoop: seq<Byte>, pos: nat, len: nat)
    requires taken + |scoop| <= |f| && scoop == f[taken..taken + |scoop|] && pos + len <= |scoop|
    requires len == Min(blockLen, |f| - taken - pos)
    ensures scoop[pos..pos + len] == Window(f, blockLen, taken + pos)
  {
    var p := taken + pos;
    SliceSlice(f, taken, taken + |scoop|, pos, pos + len);
    assert scoop[pos..pos + len] == f[p..p + len];
    if p + blockLen > |f| {
      assert f[p..] == f[p..|f|] && p + len == |f|;
    }
  }

  lemma SliceSlice(s: seq<Byte>, i: nat, k: nat, a: nat, b: nat)
    requires i <= k <= |s| && a <= b <= k - i
    ensures s[i..k][a..b] == s[i + a..i + b]
  {
    forall j | 0 <= j < b - a ensures s[i..k][a..b][j] == s[i + a..i + b][j] {
    }
  }
}
