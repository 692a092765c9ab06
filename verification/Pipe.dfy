/** The byte plumbing every job shares: the caller's buffers (stream.c), the
  * readahead scoop (scoop.c), the output tube (tube.c) and the network
  * integers written and read through them (netint.c).
  */
module Pipe {
  import opened Codec
  import opened PatchSpec

  /** sizeof write_buf (job.h). */
  const TUBE_SIZE: nat := 20

  function Max(a: int, b: int): (r: int)
    ensures r >= a && r >= b && r in {a, b}
  {
    if a >= b then a else b
  }

  function Min(a: int, b: int): (r: int)
    ensures r <= a && r <= b && r in {a, b}
  {
    if a <= b then a else b
  }

  ghost predicate OpenPipe(k: nat) { true }

  class Pipe {
    // The caller's buffers: unread input, whether more can come, output so far and room left.
    var input: seq<Byte>
    var eofIn: bool
    var output: seq<Byte>
    var availOut: nat

    // Bytes read ahead; command bytes waiting for room; bytes still to be copied through.
    var scoop: seq<Byte>
    var writeBuf: seq<Byte>
    var copyLen: int

    /** The whole input, of which the caller feeds arbitrary pieces. */
    ghost const source: seq<Byte>
    /** How much of source has left the scoop. */
    ghost var taken: nat
    /** Everything queued for output so far, in order. */
    ghost var sent: seq<Byte>

    ghost function End(): nat
      reads this
    {
      taken + |scoop| + |input|
    }

    ghost function Pending(): seq<Byte>
      requires taken <= |source|
      reads this
    {
      if copyLen <= 0 then [] else source[taken..Min(taken + copyLen, |source|)]
    }

    /** Scoop and input buffer are the unread bytes, and the output is a prefix
      * of what was queued, the rest of which waits in the tube.
      */
    ghost predicate Bytes()
      requires End() <= |source|
      reads this
    {
      && scoop == source[taken..taken + |scoop|]
      && input == source[taken + |scoop|..End()]
      && output + writeBuf + Pending() == sent
    }

    static ghost predicate InOrderIs(ok: bool, p: Pipe)
      requires p.End() <= |p.source|
      reads p
    {
      forall k {:trigger OpenPipe(k)} :: OpenPipe(k) ==> ok == p.Bytes()
    }

    /** Bytes, folded until OpenPipe(k) is mentioned. */
    static ghost predicate InOrder(p: Pipe)
      requires p.End() <= |p.source|
      reads p
    {
      assert InOrderIs(p.Bytes(), p);
      var ok :| InOrderIs(ok, p);
      ok
    }

    lemma InOrderUnfold()
      requires End() <= |source|
      ensures InOrder(this) == Bytes()
    {
      assert OpenPipe(0);
    }

    ghost predicate Valid()
      reads this
    {
      |writeBuf| <= TUBE_SIZE && End() <= |source| && (eofIn ==> End() == |source|) && InOrder(this)
    }

    lemma Contents()
      requires Valid()
      ensures scoop == source[taken..taken + |scoop|] && input == source[taken + |scoop|..End()]
      ensures output <= sent
      ensures writeBuf == [] && (copyLen <= 0 || taken == |source|) ==> output == sent
    {
      assert OpenPipe(0);
    }

    ghost predicate Idle()
      reads this
    {
      writeBuf == [] && copyLen == 0
    }

    /** len bytes can be had without more input. */
    ghost predicate CanRead(len: nat)
      reads this
    {
      |scoop| >= len || (scoop == [] && |input| >= len)
    }

    /** Bytes moved on towards the output; nothing was queued, fed or lost. */
    twostate predicate Moved()
      reads this
    {
      && sent == old(sent) && eofIn == old(eofIn)
      && old(taken) <= taken && taken + copyLen == old(taken + copyLen)
      && End() == old(End()) && |input| <= old(|input|) && |scoop| <= old(|scoop|)
      && |output| + availOut == old(|output| + availOut) && availOut <= old(availOut)
    }

    /** Nothing was fed and none of the input buffer was touched. */
    twostate predicate Steady()
      reads this
    {
      && input == old(input) && eofIn == old(eofIn) && End() == old(End())
      && |output| + availOut == old(|output| + availOut) && availOut <= old(availOut)
    }

    /** Nothing was fed; input may have been taken and output written. */
    twostate predicate Flowed()
      reads this
    {
      && eofIn == old(eofIn) && End() == old(End()) && |input| <= old(|input|)
      && |output| + availOut == old(|output| + availOut) && availOut <= old(availOut)
    }

    constructor (ghost source: seq<Byte>)
      ensures Valid() && Idle() && fresh(this)
      ensures this.source == source && sent == [] && taken == 0
      ensures input == [] && scoop == [] && output == [] && availOut == 0 && !eofIn
    {
      input, eofIn, output, availOut := [], false, [], 0;
      scoop, writeBuf, copyLen := [], [], 0;
      this.source, taken, sent := source, 0, [];
      new;
      assert OpenPipe(0);
    }

    // ---------- caller's side ----------

    /** The caller appends the next piece of the input and may declare its end. */
    method Feed(piece: seq<Byte>, eof: bool)
      requires Valid()
      requires End() + |piece| <= |source| && piece == source[End()..End() + |piece|]
      requires eofIn ==> eof
      requires eof ==> End() + |piece| == |source|
      modifies this`input, this`eofIn
      ensures Valid() && input == old(input) + piece && eofIn == eof
    {
      InOrderUnfold();
      ghost var pending, at, end := Pending(), taken + |scoop|, End() + |piece|;
      SliceSplit(source, at, End(), end);
      input, eofIn := input + piece, eof;
      assert End() == end && input == source[at..end] && Pending() == pending;
      InOrderUnfold();
    }

    /** Any input callback over a file: it may declare the end as soon as everything was
      * fed and must once the input buffer is empty; before that it appends any piece of
      * what is left, which is not empty when the buffer is.
      */
    method Fill(file: seq<Byte>, fed: nat) returns (fed': nat)
      requires Valid() && file == source && fed == End()
      modifies this`input, this`eofIn
      ensures Valid() && fed' == End() && |input| >= old(|input|)
      ensures old(eofIn) ==> eofIn && input == old(input)
      ensures old(!eofIn && input == []) ==> eofIn || input != []
      ensures fed' == fed ==> input == old(input)
    {
      fed' := fed;
      if eofIn {
        return;
      }
      var atEnd: bool :| atEnd ==> fed == |file|;
      if atEnd {
        Feed([], true);
      } else if input == [] && fed == |file| {
        Feed([], true);
      } else {
        var n: nat :| n <= |file| - fed && (input == [] ==> n > 0);
        Feed(file[fed..fed + n], false);
        fed' := fed + n;
        assert n == 0 ==> file[fed..fed + n] == [];
      }
    }

    method Drain(room: nat)
      requires Valid()
      modifies this`availOut
      ensures Valid() && availOut == room
    {
      assert OpenPipe(0);
      availOut := room;
    }

    // ---------- tube.c ----------

    method CatchupWrite()
      requires Valid() && writeBuf != []
      modifies this
      ensures Valid() && Moved()
      ensures scoop == old(scoop) && input == old(input) && copyLen == old(copyLen)
      ensures |writeBuf| == old(|writeBuf| - Min(|writeBuf|, availOut))
      ensures availOut == old(availOut - Min(|writeBuf|, availOut))
    {
      assert OpenPipe(0);
      var len := Min(|writeBuf|, availOut);
      if availOut == 0 {
        return;
      }
      assert output + writeBuf + Pending() == output + writeBuf[..len] + writeBuf[len..] + Pending();
      output, availOut := output + writeBuf[..len], availOut - len;
      writeBuf := writeBuf[len..];
    }

    /** Up to maxLen bytes out of the scoop, straight to the output. */
    method ScoopCopy(maxLen: nat) returns (n: nat)
      requires Valid()
      modifies this`scoop, this`output, this`availOut, this`taken
      ensures n == old(Min(Min(maxLen, |scoop|), availOut))
      ensures taken == old(taken) + n && |scoop| == old(|scoop|) - n && availOut == old(availOut) - n
      ensures output == old(output) + source[old(taken)..old(taken) + n]
      ensures scoop == source[taken..taken + |scoop|]
    {
      assert OpenPipe(0);
      n := Min(Min(maxLen, |scoop|), availOut);
      SliceSplit(source, taken, taken + n, taken + |scoop|);
      SliceConcat(source[taken..taken + n], source[taken + n..taken + |scoop|]);
      output, availOut := output + scoop[..n], availOut - n;
      scoop := scoop[n..];
      taken := taken + n;
    }

    /** rs_buffers_copy: up to maxLen bytes straight from the input. They are the next of
      * the stream unless bytes were left in the scoop, which does not happen while there
      * is room for them.
      */
    method BuffersCopy(maxLen: nat) returns (n: nat)
      requires Valid()
      modifies this`input, this`output, this`availOut, this`taken
      ensures n == old(Min(Min(maxLen, |input|), availOut)) && availOut == old(availOut) - n
      ensures output == old(output) + old(input)[..n] && input == old(input)[n..]
      ensures scoop == [] || n == 0 ==> taken == old(taken) + n && input == source[taken + |scoop|..End()]
      ensures scoop == [] || n == 0 ==> output == old(output) + source[old(taken)..old(taken) + n]
    {
      assert OpenPipe(0);
      n := Min(Min(maxLen, |input|), availOut);
      if n == 0 {
        return;
      }
      output, availOut := output + input[..n], availOut - n;
      input := input[n..];
      if scoop == [] {
        SliceSplit(source, taken, taken + n, taken + n + |input|);
        SliceConcat(source[taken..taken + n], source[taken + n..taken + n + |input|]);
        taken := taken + n;
      }
    }

    /** Bytes that moved from the copy in the tube to the output leave the order as it was. */
    lemma StillInOrder(out: seq<Byte>, start: nat, n: nat, end: nat)
      requires End() <= |source| && scoop == source[taken..taken + |scoop|] && input == source[taken + |scoop|..End()]
      requires start + n <= end <= |source| && writeBuf == [] && sent == out + [] + source[start..end]
      requires output == out + source[start..start + n] && Pending() == source[start + n..end]
      ensures InOrder(this)
    {
      assert OpenPipe(0);
      CopyStep(out, source, start, n, end);
    }

    method CopyFromScoop()
      requires Valid() && writeBuf == [] && copyLen > 0
      modifies this
      ensures Valid() && Moved() && writeBuf == [] && input == old(input)
      ensures copyLen == old(copyLen - Min(Min(copyLen, |scoop|), availOut))
      ensures availOut == old(availOut - Min(Min(copyLen, |scoop|), availOut))
    {
      assert OpenPipe(0);
      ghost var start, end, out := taken, Min(taken + copyLen, |source|), output;
      var n := ScoopCopy(copyLen);
      copyLen := copyLen - n;
      StillInOrder(out, start, n, end);
    }

    method CopyFromInput()
      requires Valid() && writeBuf == [] && copyLen > 0 && (scoop == [] || availOut == 0)
      modifies this
      ensures Valid() && Moved() && writeBuf == [] && scoop == old(scoop)
      ensures old(availOut) == 0 ==> input == old(input)
      ensures copyLen == old(copyLen - Min(Min(copyLen, |input|), availOut))
      ensures availOut == old(availOut - Min(Min(copyLen, |input|), availOut))
    {
      assert OpenPipe(0);
      ghost var start, end, out := taken, Min(taken + copyLen, |source|), output;
      var n := BuffersCopy(copyLen);
      copyLen := copyLen - n;
      StillInOrder(out, start, n, end);
    }

    method CatchupCopy()
      requires Valid() && writeBuf == [] && copyLen > 0
      modifies this
      ensures Valid() && Moved() && writeBuf == [] && copyLen >= 0
      ensures old(copyLen <= |scoop|) ==> input == old(input)
      ensures copyLen > 0 ==> availOut == 0 || (scoop == [] && input == [])
      ensures old(availOut > 0 && (scoop != [] || input != [])) ==> availOut < old(availOut)
    {
      if scoop != [] {
        CopyFromScoop();
      }
      if copyLen != 0 {
        CopyFromInput();
      }
    }

    /** Whether everything that can go out has gone; Aborted is the failed
      * assertion of a negative copy.
      */
    method Catchup() returns (r: Result)
      requires Valid()
      modifies this
      ensures Valid() && Moved()
      ensures r in {Done, Blocked, InputEnded, Aborted}
      ensures r.Done? <==> Idle()
      ensures r.Aborted? <==> writeBuf == [] && copyLen < 0
      ensures r.InputEnded? <==> writeBuf == [] && copyLen > 0 && eofIn && scoop == [] && input == []
      ensures r.Blocked? ==> availOut == 0 || (writeBuf == [] && scoop == [] && input == [] && !eofIn)
      ensures old(writeBuf == []) ==> writeBuf == []
      ensures old(copyLen >= 0) ==> copyLen >= 0
      ensures old(0 <= copyLen <= |scoop|) ==> Steady() && copyLen <= |scoop| && (r.Blocked? ==> availOut == 0)
      ensures old(copyLen <= 0) ==>
        scoop == old(scoop) && input == old(input) && taken == old(taken) && copyLen == old(copyLen)
      ensures old(Idle()) ==> availOut == old(availOut)
      ensures old(availOut > 0 && (writeBuf != [] || (copyLen > 0 && (scoop != [] || input != [])))) ==>
        availOut < old(availOut)
    {
      if writeBuf != [] {
        CatchupWrite();
      }
      if writeBuf != [] {
        return Blocked;
      }
      if copyLen < 0 {
        return Aborted;
      }
      if copyLen > 0 {
        CatchupCopy();
      }
      if copyLen != 0 {
        if eofIn && input == [] && scoop == [] {
          return InputEnded;
        }
        return Blocked;
      }
      return Done;
    }

    method TubeCopy(len: int)
      requires Valid() && copyLen == 0
      modifies this`copyLen, this`sent
      ensures Valid() && copyLen == len
      ensures sent == old(sent) + Pending()
    {
      assert OpenPipe(0);
      copyLen := len;
      sent := sent + Pending();
    }

    /** The tube must hold no copy and have room: elsewhere the C code dies. */
    method TubeWrite(buf: seq<Byte>)
      requires Valid() && copyLen == 0 && |writeBuf| + |buf| <= TUBE_SIZE
      modifies this`writeBuf, this`sent
      ensures Valid() && sent == old(sent) + buf && writeBuf == old(writeBuf) + buf
    {
      assert OpenPipe(0);
      assert Pending() == [];
      assert output + (writeBuf + buf) + [] == output + writeBuf + [] + buf;
      writeBuf, sent := writeBuf + buf, sent + buf;
    }

    /** Bytes a job puts straight into the output buffer (patch.c, copying). */
    method WriteOut(buf: seq<Byte>)
      requires Valid() && Idle() && |buf| <= availOut
      modifies this`output, this`availOut, this`sent
      ensures Valid() && sent == old(sent) + buf
      ensures availOut == old(availOut) - |buf| && |output| == old(|output|) + |buf|
    {
      assert OpenPipe(0);
      assert Pending() == [];
      assert (output + buf) + [] + [] == output + [] + [] + buf;
      output, availOut, sent := output + buf, availOut - |buf|, sent + buf;
    }

    // ---------- scoop.c ----------

    method ScoopInput(len: nat)
      requires Valid() && len > |scoop|
      modifies this`scoop, this`input
      ensures Valid() && End() == old(End())
      ensures |scoop| == Min(len, old(|scoop| + |input|))
    {
      InOrderUnfold();
      var n := Min(len - |scoop|, |input|);
      ghost var pending, at := Pending(), taken + |scoop|;
      SliceSplit(source, taken, at, at + n);
      SliceSplit(source, at, at + n, End());
      SliceConcat(source[at..at + n], source[at + n..End()]);
      scoop, input := scoop + input[..n], input[n..];
      assert Pending() == pending;
      InOrderUnfold();
    }

    /** Advancing over bytes that a queued copy is still to write would take them from it;
      * otherwise nothing else is disturbed.
      */
    method ScoopAdvance(len: nat)
      requires Valid()
      requires if scoop != [] then len <= |scoop| else len <= |input|
      modifies this`scoop, this`input, this`taken
      ensures copyLen <= 0 ==> Valid()
      ensures End() == old(End()) && taken == old(taken) + len
      ensures if old(scoop) != [] then input == old(input) && scoop == old(scoop)[len..]
              else scoop == [] && input == old(input)[len..]
    {
      assert OpenPipe(0);
      if scoop != [] {
        scoop := scoop[len..];
      } else {
        assert input[len..] == source[taken + len..End()];
        input := input[len..];
      }
      taken := taken + len;
    }

    /** Drops n scanned bytes off the scoop (delta.c, rs_processmatch). */
    method DropScanned(n: nat)
      requires Valid() && copyLen == 0 && n <= |scoop|
      modifies this`scoop, this`taken
      ensures Valid() && taken == old(taken) + n && |scoop| == old(|scoop|) - n
    {
      assert OpenPipe(0);
      SliceSplit(source, taken, taken + n, taken + |scoop|);
      SliceConcat(source[taken..taken + n], source[taken + n..taken + |scoop|]);
      scoop := scoop[n..];
      taken := taken + n;
    }

    /** The next bytes of the stream start the scoop, or the input if that is empty. */
    lemma Ahead(len: nat)
      requires Valid() && CanRead(len)
      ensures taken + len <= |source|
      ensures if |scoop| >= len then scoop[..len] == source[taken..taken + len]
              else input[..len] == source[taken..taken + len]
    {
      assert OpenPipe(0);
      if |scoop| >= len {
        SliceStart(source, taken, taken + |scoop|, len);
      } else {
        SliceStart(source, taken, End(), len);
      }
    }

    method ScoopReadahead(len: nat) returns (r: Result, data: seq<Byte>)
      requires Valid()
      modifies this`scoop, this`input
      ensures Valid() && End() == old(End()) && |input| <= old(|input|)
      ensures r in {Done, Blocked, InputEnded}
      ensures r.Done? <==> CanRead(len)
      ensures r.Done? <==> old(|scoop| + |input|) >= len
      ensures r.Done? ==> data == source[taken..taken + len]
      ensures r.Done? ==> |scoop| == (if 0 < old(|scoop|) < len then len else old(|scoop|))
      ensures r.InputEnded? <==> !r.Done? && eofIn && scoop == [] && input == []
      ensures r.Blocked? ==> input == [] && |scoop| < len
    {
      data := [];
      if |scoop| >= len {
        Ahead(len);
        r, data := Done, scoop[..len];
      } else if scoop != [] {
        ScoopInput(len);
        if |scoop| < len {
          r := Blocked;
        } else {
          Ahead(len);
          r, data := Done, scoop[..len];
        }
      } else if |input| >= len {
        Ahead(len);
        r, data := Done, input[..len];
      } else if |input| > 0 {
        ScoopInput(len);
        r := Blocked;
      } else if eofIn {
        r := InputEnded;
      } else {
        r := Blocked;
      }
    }

    /** A read that follows a successful readahead of n bytes cannot fail. */
    method ScoopRead(len: nat, ghost n: nat) returns (r: Result, data: seq<Byte>)
      requires Valid() && len <= n
      modifies this`scoop, this`input, this`taken
      ensures copyLen <= 0 || !r.Done? ==> Valid()
      ensures End() == old(End()) && |input| <= old(|input|)
      ensures r in {Done, Blocked, InputEnded} && (r.Done? <==> old(|scoop| + |input|) >= len)
      ensures taken == old(taken) + (if r.Done? then len else 0)
      ensures r.Done? ==> data == source[old(taken)..taken] && |scoop| == Max(0, old(|scoop|) - len)
      ensures old(CanRead(n)) ==> r.Done? && CanRead(n - len)
      ensures r.InputEnded? <==> !r.Done? && eofIn && End() == taken
      ensures r.Blocked? ==> input == [] && |scoop| < len
      ensures !r.Done? ==> !old(CanRead(len))
    {
      r, data := ScoopReadahead(len);
      if r == Done {
        ScoopAdvance(len);
      }
    }

    /** Whatever is left, in the scoop, the input buffer or both, when the caller holds no more. */
    method ScoopReadRest() returns (r: Result, len: nat, data: seq<Byte>)
      requires Valid()
      modifies this`scoop, this`input, this`taken
      ensures copyLen <= 0 ==> Valid()
      ensures End() == old(End()) && taken == End() && input == [] && scoop == []
      ensures r == Done && len == old(|scoop| + |input|) && data == source[old(taken)..taken]
    {
      len := |scoop| + |input|;
      r, data := ScoopRead(len, len);
    }

    // ---------- netint.c ----------

    method SquirtNetInt(d: int, len: nat)
      requires Valid() && copyLen == 0 && 0 < len <= 8 && |writeBuf| + len <= TUBE_SIZE
      modifies this`writeBuf, this`sent
      ensures Valid() && sent == old(sent) + NetInt(d, len) && writeBuf == old(writeBuf) + NetInt(d, len)
    {
      var buf := BigEndian(d, len);
      TubeWrite(buf);
    }

    /** Reads a big-endian integer; the accumulator is a signed 64-bit long. */
    method SuckNetInt(len: nat, ghost n: nat) returns (r: Result, v: int)
      requires Valid() && 0 < len <= 8 && len <= n
      modifies this`scoop, this`input, this`taken
      ensures copyLen <= 0 || !r.Done? ==> Valid()
      ensures End() == old(End()) && |input| <= old(|input|)
      ensures r in {Done, Blocked, InputEnded} && (r.Done? <==> old(|scoop| + |input|) >= len)
      ensures taken == old(taken) + (if r.Done? then len else 0)
      ensures r.Done? ==> v == Param(source[old(taken)..taken]) && |scoop| == Max(0, old(|scoop|) - len)
      ensures old(CanRead(n)) ==> r.Done? && CanRead(n - len)
      ensures r.InputEnded? <==> !r.Done? && eofIn && End() == taken
      ensures r.Blocked? ==> input == [] && |scoop| < len
      ensures !r.Done? ==> !old(CanRead(len))
    {
      var buf;
      r, buf := ScoopRead(len, n);
      v := 0;
      if r == Done {
        v := Accumulate(buf);
      }
    }
  }

  lemma SliceStart(s: seq<Byte>, i: nat, k: nat, n: nat)
    requires i + n <= k <= |s|
    ensures s[i..k][..n] == s[i..i + n]
  {
  }

  lemma CopyStep(out: seq<Byte>, source: seq<Byte>, start: nat, n: nat, end: nat)
    requires start + n <= end <= |source|
    ensures out + [] + source[start..end] == out + source[start..start + n] + [] + source[start + n..end]
  {
    SliceSplit(source, start, start + n, end);
  }

  /** The low len bytes of d, most significant first, filled in from the end. */
  method BigEndian(d: int, len: nat) returns (s: seq<Byte>)
    ensures s == NetInt(d, len)
  {
    var buf := new Byte[len];
    var v := d;
    for i := len downto 0
      invariant NetInt(d, len) == NetInt(v, i) + buf[i..]
    {
      ghost var tail := buf[i + 1..];
      buf[i] := v % 256;
      assert buf[i..] == [v % 256] + tail;
      v := v / 256;
    }
    s := buf[..];
  }

  /** v = v << 8 | b over the bytes, in 64-bit two's complement. */
  method Accumulate(buf: seq<Byte>) returns (v: int)
    ensures v == Param(buf)
  {
    v := 0;
    for i := 0 to |buf|
      invariant v == Param(buf[..i])
    {
      assert buf[..i + 1][..i] == buf[..i];
      ShiftIn(Unsigned(buf[..i]), buf[i]);
      v := ToInt64(v * 256 + buf[i]);
    }
    assert buf[..|buf|] == buf;
  }

  lemma ShiftIn(u: nat, b: Byte)
    ensures ToInt64(ToInt64(u) * 256 + b) == ToInt64(u * 256 + b)
  {
    var m := 0x1_0000_0000_0000_0000;
    var s := ToInt64(u);
    var k := (u - s) / m;
    assert u == s + k * m by {
      assert u == u / m * m + u % m;
      if 2 * (u % m) >= m {
        assert u - s == (u / m + 1) * m;
        ModUnique(u - s, m, u / m + 1, 0);
      } else {
        assert u - s == (u / m) * m;
        ModUnique(u - s, m, u / m, 0);
      }
    }
    var x := s * 256 + b;
    assert u * 256 + b == x + 256 * k * m;
    assert x + 256 * k * m == (x / m + 256 * k) * m + x % m;
    ModUnique(u * 256 + b, m, x / m + 256 * k, x % m);
  }
}
