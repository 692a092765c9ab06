/** The other side of waking a sleeping loop: it wakes for nothing that was not sent, and
  * left to itself it serves what was sent and goes back to sleep.
  */
module Quiet {
  import opened WakeUp

  ghost predicate InPoll(pc: LoopPc) {
    pc == Wanting || pc == Asleep || pc == Polling || pc == Woken
  }

  /** pipe_write_wanted is set around the poll and nowhere else; pipe_w is not pending while
    * pipecb runs; and pipecb reads the pipe only when there is something in it.
    */
  ghost predicate Tidy(m: Memory, l: LoopState) {
    && (m.wanted <==> InPoll(l.pc))
    && (InPipecb(l.pc) ==> !l.pending) && (l.readable ==> l.pending && m.pipe > 0) && (l.pc == Reading ==> m.pipe > 0)
  }

  lemma TidyLoop(m: Memory, l: LoopState, e: Event, eventfd: bool)
    requires Tidy(m, l) && LoopSound(m, l)
    ensures var n := LoopExec(m, l, e, eventfd); Tidy(n.0, n.1)
  {
    if l.pc.Idle? {
      TidyIdle(m, l, e);
    } else if e.Loop? {
      if InPipecb(l.pc) {
        TidyPipe(m, l, eventfd);
      } else {
        TidyPoll(m, l, e.may);
      }
    }
  }

  lemma TidyPipe(m: Memory, l: LoopState, eventfd: bool)
    requires Tidy(m, l) && InPipecb(l.pc)
    ensures var n := PipeStep(m, l, eventfd); Tidy(n.0, n.1)
  {
  }

  lemma TidyPoll(m: Memory, l: LoopState, may: bool)
    requires Tidy(m, l) && LoopSound(m, l) && !InPipecb(l.pc) && !l.pc.Idle?
    ensures var n := PollStep(m, l, may); Tidy(n.0, n.1)
  {
  }

  lemma TidyIdle(m: Memory, l: LoopState, e: Event)
    requires Tidy(m, l) && l.pc.Idle?
    ensures var n := IdleStep(m, l, e); Tidy(n.0, n.1)
  {
  }

  lemma {:induction false} TidyRun(signals: seq<Item>, events: seq<Event>, eventfd: bool)
    requires forall w :: w in signals ==> w.kind == Signal
    ensures var s := Run(Start(signals), events, eventfd); Tidy(s.mem, s.loop)
  {
    if events != [] {
      var front, e := events[..|events| - 1], events[|events| - 1];
      TidyRun(signals, front, eventfd);
      InvRun(signals, front, eventfd);
      TidyExec(Run(Start(signals), front, eventfd), e, eventfd);
    }
  }

  lemma TidyExec(s: State, e: Event, eventfd: bool)
    requires Tidy(s.mem, s.loop) && LoopSound(s.mem, s.loop)
    ensures var s' := Exec(s, e, eventfd); Tidy(s'.mem, s'.loop)
  {
    if !e.Send? && !e.Step? {
      TidyLoop(s.mem, s.loop, e, eventfd);
    }
  }

  /** A sender that has raised a flag goes on to write only while the loop is in its poll. */
  lemma WritesOnlyInPoll(signals: seq<Item>, events: seq<Event>, eventfd: bool, t: nat)
    requires forall w :: w in signals ==> w.kind == Signal
    requires var s := Run(Start(signals), events, eventfd); t in s.senders && s.senders[t].pc == Checking
    ensures var s := Run(Start(signals), events, eventfd);
      var senders := Exec(s, Step(t), eventfd).senders;
      if s.loop.pc in {Wanting, Asleep, Polling, Woken} then t in senders && senders[t].pc == Unskipping
      else t !in senders
  {
    TidyRun(signals, events, eventfd);
  }

  // ---------- nothing is served that was not sent ----------

  /** Nothing is marked, raised, written or pending. */
  ghost predicate Still(s: State) {
    && s.senders == map[] && s.mem.marked == {} && !s.mem.sigPending && !s.mem.asyncPending && !s.mem.skipped
    && s.mem.pipe == 0 && !s.loop.pending && s.loop.fed == [] && !InPipecb(s.loop.pc)
  }

  lemma StillLoop(s: State, e: Event, eventfd: bool)
    requires Still(s) && !e.Send?
    ensures Still(Exec(s, e, eventfd))
  {
  }

  /** A loop to which nothing is sent never runs pipecb, feeds nothing, and stays asleep
    * when it is.
    */
  lemma {:induction false} NothingSent(signals: seq<Item>, events: seq<Event>, eventfd: bool)
    requires forall e :: e in events ==> !e.Send?
    ensures var s := Run(Start(signals), events, eventfd);
      Still(s) && (s.loop.pc == Asleep ==> Exec(s, Loop(false), eventfd) == s)
  {
    if events != [] {
      NothingSent(signals, events[..|events| - 1], eventfd);
      StillLoop(Run(Start(signals), events[..|events| - 1], eventfd), events[|events| - 1], eventfd);
    }
  }

  ghost predicate IsWrite(s: State, e: Event) {
    e.Step? && e.thread in s.senders && s.senders[e.thread].pc == Writing
  }

  ghost predicate IsRead(s: State, e: Event) {
    e.Loop? && s.loop.pc == Reading
  }

  /** How many times senders have written in a run, and how many times pipecb has read. */
  ghost function Written(s: State, events: seq<Event>, eventfd: bool): nat {
    if events == [] then 0
    else
      var front := events[..|events| - 1];
      Written(s, front, eventfd) + if IsWrite(Run(s, front, eventfd), events[|events| - 1]) then 1 else 0
  }

  ghost function Read(s: State, events: seq<Event>, eventfd: bool): nat {
    if events == [] then 0
    else
      var front := events[..|events| - 1];
      Read(s, front, eventfd) + if IsRead(Run(s, front, eventfd), events[|events| - 1]) then 1 else 0
  }

  lemma BytesStep(s: State, e: Event, eventfd: bool)
    requires Tidy(s.mem, s.loop)
    ensures var s' := Exec(s, e, eventfd);
      if IsWrite(s, e) then s'.mem.pipe == s.mem.pipe + 1
      else if IsRead(s, e) then s.mem.pipe > 0 && s'.mem.pipe == if eventfd then 0 else s.mem.pipe - 1
      else s'.mem.pipe == s.mem.pipe
  {
    if !e.Send? && !e.Step? && !IsRead(s, e) {
      BytesStay(s.mem, s.loop, e, eventfd);
    }
  }

  lemma BytesStay(m: Memory, l: LoopState, e: Event, eventfd: bool)
    requires !e.Loop? || l.pc != Reading
    ensures LoopExec(m, l, e, eventfd).0.pipe == m.pipe
  {
    if InPipecb(l.pc) && e.Loop? {
      PipeBytesStay(m, l, eventfd);
    }
  }

  lemma PipeBytesStay(m: Memory, l: LoopState, eventfd: bool)
    requires l.pc != Reading
    ensures PipeStep(m, l, eventfd).0.pipe == m.pipe
  {
  }

  /** What is in the pipe was written and not read: a pipe gives up one byte at a time, an
    * eventfd all at once. Hence pipecb reads no more often than senders have written.
    */
  lemma {:induction false} BytesAccounted(signals: seq<Item>, events: seq<Event>, eventfd: bool)
    requires forall w :: w in signals ==> w.kind == Signal
    ensures var s := Start(signals);
      var left := Written(s, events, eventfd) - Read(s, events, eventfd);
      if eventfd then Run(s, events, eventfd).mem.pipe <= left else Run(s, events, eventfd).mem.pipe == left
  {
    if events != [] {
      var front, e := events[..|events| - 1], events[|events| - 1];
      BytesAccounted(signals, front, eventfd);
      TidyRun(signals, front, eventfd);
      BytesStep(Run(Start(signals), front, eventfd), e, eventfd);
    }
  }

  // ---------- the loop left to itself ----------

  /** What the loop does next without callbacks of its own and without waiting. */
  function OwnStep(l: LoopState): Event {
    if !l.pc.Idle? then Loop(true) else if l.pending then InvokePipe else GoPoll
  }

  function Alone(s: State, n: nat, eventfd: bool): State {
    if n == 0 then s
    else
      var r := Alone(s, n - 1, eventfd);
      Exec(r, OwnStep(r.loop), eventfd)
  }

  ghost function Debts(m: Memory): nat {
    m.pipe + if m.skipped then 1 else 0
  }

  /** The pass under way is going to read the pipe or reset the skip. */
  ghost predicate Pays(m: Memory, l: LoopState) {
    match l.pc
    case Wanting => true
    case Asleep => true
    case Polling => m.pipe > 0 || m.skipped
    case Woken => l.readable || m.skipped
    case Unwanted => l.readable || m.skipped
    case Idle => l.pending && (l.readable || m.skipped)
    case Starting(_) => l.pending && (l.readable || m.skipped)
    case Reading => true
    case Unskip => m.skipped
    case _ => false
  }

  /** How often the loop may still have to poll. */
  ghost function Rounds(m: Memory, l: LoopState): nat {
    if Pays(m, l) then Debts(m) else Debts(m) + 1
  }

  /** How far the loop is from the next time it can poll. */
  ghost function Rank(l: LoopState): nat {
    var n, k := 2 * |l.asyncs|, 2 * |l.asyncs| + 2 * |l.signals|;
    match l.pc
    case Wanting => 14 + k
    case Starting(_) => 13 + k
    case Asleep => 12 + k
    case Polling => 12 + k
    case Woken => 11 + k
    case Unwanted => 10 + k
    case Idle => if l.pending then 9 + k else 0
    case Reading => 8 + k
    case Unskip => 7 + k
    case Test(kind) => if kind == Signal then 6 + k else 3 + n
    case Reset(kind) => if kind == Signal then 5 + k else 2 + n
    case Scan(kind, i) => if kind == Signal then 4 + n + 2 * i else 1 + 2 * i
    case Take(kind, i) => if kind == Signal then 5 + n + 2 * i else 2 + 2 * i
  }

  ghost predicate Resting(s: State) {
    s.loop.pc == Asleep && s.mem.pipe == 0
  }

  lemma PipeLowersRank(m: Memory, l: LoopState, eventfd: bool)
    requires LoopSound(m, l) && Tidy(m, l) && InPipecb(l.pc)
    ensures var n := PipeStep(m, l, eventfd);
      Rank(n.1) < Rank(l) && Rounds(n.0, n.1) <= Rounds(m, l)
  {
  }

  lemma PollLowersRank(m: Memory, l: LoopState)
    requires LoopSound(m, l) && Tidy(m, l) && !InPipecb(l.pc) && !l.pc.Idle? && (l.pc == Asleep ==> m.pipe > 0)
    ensures var n := PollStep(m, l, true);
      Rank(n.1) < Rank(l) && Rounds(n.0, n.1) <= Rounds(m, l)
  {
  }

  /** Every step of its own brings the loop nearer to its rest. */
  lemma OwnStepLowers(s: State, eventfd: bool)
    requires LoopSound(s.mem, s.loop) && Tidy(s.mem, s.loop) && !Resting(s)
    ensures var s' := Exec(s, OwnStep(s.loop), eventfd);
      || Rounds(s'.mem, s'.loop) < Rounds(s.mem, s.loop)
      || (Rounds(s'.mem, s'.loop) <= Rounds(s.mem, s.loop) && Rank(s'.loop) < Rank(s.loop))
  {
    if InPipecb(s.loop.pc) {
      PipeLowersRank(s.mem, s.loop, eventfd);
    } else if !s.loop.pc.Idle? {
      PollLowersRank(s.mem, s.loop);
    }
  }

  lemma OwnStepKeeps(s: State, eventfd: bool)
    requires Inv(s.mem, s.loop, s.senders) && Tidy(s.mem, s.loop)
    ensures var s' := Exec(s, OwnStep(s.loop), eventfd);
      Inv(s'.mem, s'.loop, s'.senders) && Tidy(s'.mem, s'.loop) && s'.senders == s.senders
  {
    InvExec(s, OwnStep(s.loop), eventfd);
    TidyLoop(s.mem, s.loop, OwnStep(s.loop), eventfd);
  }

  /** s at rest after n steps of its own. */
  ghost predicate AtRest(s: State, n: nat, eventfd: bool) {
    var r := Alone(s, n, eventfd);
    Resting(r) && Inv(r.mem, r.loop, r.senders) && r.senders == s.senders
  }

  lemma RestFirst(s: State, n: nat, eventfd: bool)
    requires AtRest(Exec(s, OwnStep(s.loop), eventfd), n, eventfd)
    requires Exec(s, OwnStep(s.loop), eventfd).senders == s.senders
    ensures AtRest(s, n + 1, eventfd)
  {
    AloneFirst(s, n, eventfd);
  }

  lemma AloneFirst(s: State, n: nat, eventfd: bool)
    ensures Alone(s, n + 1, eventfd) == Alone(Exec(s, OwnStep(s.loop), eventfd), n, eventfd)
  {
    if n > 0 {
      AloneFirst(s, n - 1, eventfd);
    }
  }

  lemma {:induction false} ComesToRest(s: State, eventfd: bool) returns (n: nat)
    requires Inv(s.mem, s.loop, s.senders) && Tidy(s.mem, s.loop)
    ensures AtRest(s, n, eventfd)
    decreases Rounds(s.mem, s.loop), Rank(s.loop)
  {
    if Resting(s) {
      n := 0;
    } else {
      var next := Exec(s, OwnStep(s.loop), eventfd);
      OwnStepLowers(s, eventfd);
      OwnStepKeeps(s, eventfd);
      n := ComesToRest(next, eventfd);
      RestFirst(s, n, eventfd);
      n := n + 1;
    }
  }

  /** Left to itself after any run, with no sender inside evpipe_write, the loop comes to sleep
    * with no flag raised, nothing in the pipe and nothing active marked; and it sleeps on.
    */
  lemma LoopSettles(signals: seq<Item>, events: seq<Event>, eventfd: bool) returns (n: nat)
    requires forall w :: w in signals ==> w.kind == Signal
    requires NoneInside(Run(Start(signals), events, eventfd).senders)
    ensures var s := Alone(Run(Start(signals), events, eventfd), n, eventfd);
      && s.loop.pc == Asleep && s.mem.pipe == 0 && !s.mem.sigPending && !s.mem.asyncPending
      && (forall w :: w in s.loop.signals || w in s.loop.asyncs ==> w !in s.mem.marked)
      && Exec(s, Loop(false), eventfd) == s
  {
    InvRun(signals, events, eventfd);
    TidyRun(signals, events, eventfd);
    n := ComesToRest(Run(Start(signals), events, eventfd), eventfd);
    var s := Alone(Run(Start(signals), events, eventfd), n, eventfd);
    AsleepQuiet(s.mem, s.loop, s.senders);
  }
}
