/** Waking a sleeping loop from other threads and signal handlers (ev.c,
  * evpipe_write, pipecb and the blocking part of ev_run), as sequentially
  * consistent interleavings of any number of senders with the loop.
  */
module WakeUp {
  import opened Wrappers

  /** Signals and async watchers, each kind with a pending flag of its own. */
  datatype Kind = Signal | Async

  /** A signal number or an async watcher. */
  datatype Item = Item(kind: Kind, id: nat)

  /** What a sender does next; evpipe_write is everything after Marking. */
  datatype SendPc = Marking | Testing | Raising | Skipping | Checking | Unskipping | Writing

  datatype Sender = Sender(item: Item, pc: SendPc)

  type Senders = map<nat, Sender>

  /** What the senders and the loop share. */
  datatype Memory = Memory(
    sigPending: bool,
    asyncPending: bool,
    skipped: bool,     // pipe_write_skipped
    wanted: bool,      // pipe_write_wanted
    pipe: nat,         // bytes in the pipe, or the count of the eventfd
    marked: set<Item>) // items whose sent or pending mark is set

  datatype LoopPc =
    | Idle                     // running callbacks, or on the way to the next poll
    | Starting(w: Item)        // in ev_async_start, its mark reset, not listed yet
    | Wanting                  // pipe_write_wanted is set, the skip not looked at yet
    | Asleep                   // in a poll that may block
    | Polling                  // in a poll that may not
    | Woken                    // the poll returned
    | Unwanted                 // pipe_write_wanted is reset
    | Reading                  // pipecb: about to read the pipe
    | Unskip                   // pipecb: about to reset pipe_write_skipped
    | Test(kind: Kind)         // pipecb: about to test the flag
    | Reset(kind: Kind)        // pipecb: about to reset the flag
    | Scan(kind: Kind, i: nat) // pipecb: items below i still to be looked at
    | Take(kind: Kind, i: nat) // pipecb: item i was marked, about to be fed

  /** What only the loop touches. */
  datatype LoopState = LoopState(
    pc: LoopPc,
    pending: bool,      // pipe_w is pending
    readable: bool,     // its revents hold EV_READ
    signals: seq<Item>, // all signals
    asyncs: seq<Item>,  // active async watchers
    fed: seq<Item>)     // events fed so far

  datatype State = State(mem: Memory, loop: LoopState, senders: Senders)

  /** What may happen next. */
  datatype Event =
    | Send(thread: nat, item: Item) // a thread calls ev_async_send or ev_feed_signal
    | Step(thread: nat)             // a sender takes a step
    | StartAsync(w: Item)           // by a callback of the loop
    | StopAsync(index: nat)
    | GoPoll
    | InvokePipe
    | Loop(may: bool)               // the loop takes a step; may decides what it may

  function Raised(m: Memory, k: Kind): bool {
    if k == Signal then m.sigPending else m.asyncPending
  }

  function Raise(m: Memory, k: Kind, on: bool): Memory {
    if k == Signal then m.(sigPending := on) else m.(asyncPending := on)
  }

  function Listed(l: LoopState, k: Kind): seq<Item> {
    if k == Signal then l.signals else l.asyncs
  }

  /** One step of ev_async_send or ev_feed_signal and of evpipe_write in it: the
    * memory, and what the sender does next.
    */
  function SendMemory(m: Memory, x: Sender): Memory {
    match x.pc
    case Marking => m.(marked := m.marked + {x.item})
    case Testing => m
    case Raising => Raise(m, x.item.kind, true)
    case Skipping => m.(skipped := true)
    case Checking => m
    case Unskipping => m.(skipped := false)
    case Writing => m.(pipe := m.pipe + 1)
  }

  function SendNext(m: Memory, x: Sender): Option<SendPc> {
    match x.pc
    case Marking => Some(Testing)
    case Testing => if Raised(m, x.item.kind) then None else Some(Raising)
    case Raising => Some(Skipping)
    case Skipping => Some(Checking)
    case Checking => if m.wanted then Some(Unskipping) else None
    case Unskipping => Some(Writing)
    case Writing => None
  }

  function SendStep(s: State, t: nat): State
    requires t in s.senders
  {
    var x := s.senders[t];
    var next := SendNext(s.mem, x);
    State(SendMemory(s.mem, x), s.loop,
          if next.None? then s.senders - {t} else s.senders[t := x.(pc := next.value)])
  }

  /** One step of the loop outside pipecb. */
  function PollStep(m: Memory, l: LoopState, may: bool): (Memory, LoopState) {
    match l.pc
    case Starting(w) => (m, l.(asyncs := l.asyncs + [w], pc := Idle))
    case Wanting => (m, l.(pc := if may && !m.skipped then Asleep else Polling))
    case Asleep =>
      if m.pipe > 0 then (m, l.(pending := true, readable := true, pc := Woken))
      else (m, if may then l.(pc := Woken) else l)
    case Polling => (m, if m.pipe > 0 then l.(pending := true, readable := true, pc := Woken) else l.(pc := Woken))
    case Woken => (m.(wanted := false), l.(pc := Unwanted))
    case Unwanted => (m, if m.skipped then l.(pending := true, pc := Idle) else l.(pc := Idle))
    case _ => (m, l)
  }

  function AfterScan(k: Kind): LoopPc {
    if k == Signal then Test(Async) else Idle
  }

  /** One step of pipecb; eventfd tells the two ways of reading the pipe apart. */
  function PipeStep(m: Memory, l: LoopState, eventfd: bool): (Memory, LoopState) {
    match l.pc
    case Reading => (m.(pipe := if eventfd || m.pipe == 0 then 0 else m.pipe - 1), l.(pc := Unskip))
    case Unskip => (m.(skipped := false), l.(pc := Test(Signal)))
    case Test(k) => (m, l.(pc := if Raised(m, k) then Reset(k) else AfterScan(k)))
    case Reset(k) => (Raise(m, k, false), l.(pc := Scan(k, |Listed(l, k)|)))
    case Scan(k, i) =>
      if i == 0 || i > |Listed(l, k)| then (m, l.(pc := AfterScan(k)))
      else (m, l.(pc := if Listed(l, k)[i - 1] in m.marked then Take(k, i - 1) else Scan(k, i - 1)))
    case Take(k, i) =>
      if i >= |Listed(l, k)| then (m, l.(pc := Scan(k, i)))
      else (m.(marked := m.marked - {Listed(l, k)[i]}), l.(fed := l.fed + [Listed(l, k)[i]], pc := Scan(k, i)))
    case _ => (m, l)
  }

  function InPipecb(pc: LoopPc): bool {
    pc.Reading? || pc.Unskip? || pc.Test? || pc.Reset? || pc.Scan? || pc.Take?
  }

  /** What a callback or the way to the next poll does. The loop goes to poll only
    * when the pending events of pipe_w have been invoked. An event that cannot
    * happen changes nothing.
    */
  function IdleStep(m: Memory, l: LoopState, e: Event): (Memory, LoopState) {
    match e
    case StartAsync(w) =>
      if w.kind != Async || w in l.asyncs then (m, l) else (m.(marked := m.marked - {w}), l.(pc := Starting(w)))
    case StopAsync(i) =>
      if i >= |l.asyncs| then (m, l)
      else (m, l.(asyncs := l.asyncs[i := l.asyncs[|l.asyncs| - 1]][..|l.asyncs| - 1]))
    case GoPoll => if l.pending then (m, l) else (m.(wanted := true), l.(pc := Wanting))
    case InvokePipe =>
      if !l.pending then (m, l)
      else (m, l.(pending := false, readable := false, pc := if l.readable then Reading else Unskip))
    case _ => (m, l)
  }

  function LoopExec(m: Memory, l: LoopState, e: Event, eventfd: bool): (Memory, LoopState) {
    if l.pc.Idle? then IdleStep(m, l, e)
    else if !e.Loop? then (m, l)
    else if InPipecb(l.pc) then PipeStep(m, l, eventfd)
    else PollStep(m, l, e.may)
  }

  function Exec(s: State, e: Event, eventfd: bool): State {
    match e
    case Send(t, item) => if t in s.senders then s else s.(senders := s.senders[t := Sender(item, Marking)])
    case Step(t) => if t in s.senders then SendStep(s, t) else s
    case _ =>
      var next := LoopExec(s.mem, s.loop, e, eventfd);
      State(next.0, next.1, s.senders)
  }

  function Run(s: State, events: seq<Event>, eventfd: bool): State {
    if events == [] then s else Exec(Run(s, events[..|events| - 1], eventfd), events[|events| - 1], eventfd)
  }

  /** A loop that has just been set up. */
  function Start(signals: seq<Item>): State {
    State(Memory(false, false, false, false, 0, {}), LoopState(Idle, false, false, signals, [], []), map[])
  }

  // ---------- what every step keeps ----------

  ghost predicate Brings(senders: Senders, t: nat) {
    t in senders && (senders[t].pc == Skipping || senders[t].pc == Writing)
  }

  /** A sender is about to set pipe_write_skipped or to write. */
  ghost predicate SomeBrings(senders: Senders) {
    exists t :: Brings(senders, t)
  }

  ghost predicate Checks(senders: Senders, t: nat) {
    t in senders && (senders[t].pc == Checking || senders[t].pc == Unskipping)
  }

  ghost predicate SomeChecks(senders: Senders) {
    exists t :: Checks(senders, t)
  }

  ghost predicate Raises(senders: Senders, t: nat, k: Kind) {
    t in senders && (senders[t].pc == Testing || senders[t].pc == Raising) && senders[t].item.kind == k
  }

  ghost predicate SomeRaises(senders: Senders, k: Kind) {
    exists t :: Raises(senders, t, k)
  }

  /** The loop will reset the flag of this kind before it leaves pipecb. */
  ghost predicate WillTest(pc: LoopPc, k: Kind) {
    match pc
    case Reading => true
    case Unskip => true
    case Test(j) => j == Signal || k == Async
    case Reset(j) => j == Signal || k == Async
    case Scan(j, _) => j == Signal && k == Async
    case Take(j, _) => j == Signal && k == Async
    case _ => false
  }

  /** A raised flag is on its way to be noticed. */
  ghost predicate Covered(m: Memory, l: LoopState, senders: Senders, k: Kind) {
    m.skipped || m.pipe > 0 || l.pending || WillTest(l.pc, k) || SomeBrings(senders)
  }

  /** Once the loop has decided to sleep, whoever skips the write will look again. */
  ghost predicate SkipSeen(m: Memory, l: LoopState, senders: Senders) {
    l.pc == Asleep && m.skipped ==> SomeChecks(senders)
  }

  ghost function Below(items: seq<Item>, i: nat): seq<Item> {
    if i <= |items| then items[..i] else items
  }

  /** Not looked at yet by the scan going on. */
  ghost predicate Unvisited(pc: LoopPc, items: seq<Item>, w: Item) {
    match pc
    case Scan(k, i) => k == w.kind && w in Below(items, i)
    case Take(k, i) => k == w.kind && w in Below(items, i + 1)
    case _ => false
  }

  /** A signal, or an async watcher that is active or being started. */
  ghost predicate Watched(l: LoopState, w: Item) {
    w in l.signals || w in l.asyncs || l.pc == Starting(w)
  }

  /** A mark is on its way to be seen: the flag is raised, about to be, or the scan
    * that follows its reset is still to come by.
    */
  ghost predicate MarkSeen(m: Memory, l: LoopState, senders: Senders, w: Item) {
    Raised(m, w.kind) || SomeRaises(senders, w.kind) || Unvisited(l.pc, Listed(l, w.kind), w)
  }

  ghost predicate LoopSound(m: Memory, l: LoopState) {
    && (l.pc == Wanting || l.pc == Asleep || l.pc == Polling ==> m.wanted && !l.pending)
    && (forall w :: w in l.signals ==> w.kind == Signal) && (forall w :: w in l.asyncs ==> w.kind == Async)
    && (l.pc.Starting? ==> l.pc.w.kind == Async)
    && (l.pc.Scan? ==> l.pc.i <= |Listed(l, l.pc.kind)|) && (l.pc.Take? ==> l.pc.i < |Listed(l, l.pc.kind)|)
  }

  /** An item about to be fed is marked. */
  ghost predicate TakesMarked(m: Memory, l: LoopState) {
    l.pc.Take? && l.pc.i < |Listed(l, l.pc.kind)| ==> Listed(l, l.pc.kind)[l.pc.i] in m.marked
  }

  ghost predicate Inv(m: Memory, l: LoopState, senders: Senders) {
    && (forall k :: Raised(m, k) ==> Covered(m, l, senders, k))
    && SkipSeen(m, l, senders)
    && (forall w :: w in m.marked && Watched(l, w) ==> MarkSeen(m, l, senders, w))
    && LoopSound(m, l) && TakesMarked(m, l)
  }

  // ---------- the steps of the senders ----------

  /** Of the senders only t moves. */
  ghost predicate OthersStay(s: Senders, s': Senders, t: nat) {
    forall u :: u in s && u != t ==> u in s' && s'[u] == s[u]
  }

  lemma InvSend(s: State, t: nat, item: Item)
    requires Inv(s.mem, s.loop, s.senders) && t !in s.senders
    ensures Inv(s.mem, s.loop, s.senders[t := Sender(item, Marking)])
  {
    var n := s.senders[t := Sender(item, Marking)];
    forall u | Brings(s.senders, u) ensures Brings(n, u) {
    }
    forall u | Checks(s.senders, u) ensures Checks(n, u) {
    }
    forall u, k | Raises(s.senders, u, k) ensures Raises(n, u, k) {
    }
  }

  lemma StepCovered(m: Memory, l: LoopState, senders: Senders, n: Senders, t: nat, k: Kind)
    requires t in senders && OthersStay(senders, n, t) && (Raised(m, k) ==> Covered(m, l, senders, k))
    requires var next := SendNext(m, senders[t]); next.Some? ==> t in n && n[t] == senders[t].(pc := next.value)
    ensures Raised(SendMemory(m, senders[t]), k) ==> Covered(SendMemory(m, senders[t]), l, n, k)
  {
    var x := senders[t];
    if x.pc == Raising || x.pc == Unskipping {
      assert Brings(n, t);
    } else if SomeBrings(senders) && x.pc != Skipping && x.pc != Writing {
      var u :| Brings(senders, u);
      assert Brings(n, u);
    }
  }

  lemma StepSkipSeen(m: Memory, l: LoopState, senders: Senders, n: Senders, t: nat)
    requires t in senders && OthersStay(senders, n, t) && SkipSeen(m, l, senders) && (l.pc == Asleep ==> m.wanted)
    requires var next := SendNext(m, senders[t]); next.Some? ==> t in n && n[t] == senders[t].(pc := next.value)
    ensures SkipSeen(SendMemory(m, senders[t]), l, n)
  {
    var x := senders[t];
    if l.pc == Asleep && SendMemory(m, x).skipped {
      if x.pc == Skipping || x.pc == Checking {
        assert Checks(n, t);
      } else {
        var u :| Checks(senders, u);
        assert Checks(n, u);
      }
    }
  }

  lemma StepMarkSeen(m: Memory, l: LoopState, senders: Senders, n: Senders, t: nat, w: Item)
    requires t in senders && OthersStay(senders, n, t) && (w in m.marked ==> MarkSeen(m, l, senders, w))
    requires var next := SendNext(m, senders[t]); next.Some? ==> t in n && n[t] == senders[t].(pc := next.value)
    ensures w in SendMemory(m, senders[t]).marked ==> MarkSeen(SendMemory(m, senders[t]), l, n, w)
  {
    var x := senders[t];
    if x.pc == Marking && w == x.item {
      assert Raises(n, t, w.kind);
    } else if w in m.marked && !Raised(m, w.kind) && SomeRaises(senders, w.kind) {
      var u :| Raises(senders, u, w.kind);
      if u != t || x.pc == Testing {
        assert Raises(n, u, w.kind);
      }
    }
  }

  lemma InvSendStep(s: State, t: nat)
    requires Inv(s.mem, s.loop, s.senders) && t in s.senders
    ensures var s' := SendStep(s, t); Inv(s'.mem, s'.loop, s'.senders)
  {
    var s' := SendStep(s, t);
    forall k ensures Raised(s'.mem, k) ==> Covered(s'.mem, s.loop, s'.senders, k) {
      StepCovered(s.mem, s.loop, s.senders, s'.senders, t, k);
    }
    StepSkipSeen(s.mem, s.loop, s.senders, s'.senders, t);
    forall w | w in s'.mem.marked && Watched(s.loop, w) ensures MarkSeen(s'.mem, s.loop, s'.senders, w) {
      StepMarkSeen(s.mem, s.loop, s.senders, s'.senders, t, w);
    }
  }

  // ---------- the steps of the loop ----------

  lemma InvIdle(m: Memory, l: LoopState, senders: Senders, e: Event)
    requires Inv(m, l, senders) && l.pc == Idle
    ensures var n := IdleStep(m, l, e); Inv(n.0, n.1, senders)
  {
    var n := IdleStep(m, l, e);
    forall k | Raised(n.0, k) ensures Covered(n.0, n.1, senders, k) {
      assert Raised(m, k) && Covered(m, l, senders, k);
    }
    forall w | w in n.1.asyncs ensures w in l.asyncs {
    }
    forall w | w in n.0.marked && Watched(n.1, w) ensures MarkSeen(n.0, n.1, senders, w) {
      assert Watched(l, w);
    }
  }

  lemma InvPoll(m: Memory, l: LoopState, senders: Senders, may: bool)
    requires Inv(m, l, senders) && l.pc != Idle && !InPipecb(l.pc)
    ensures var n := PollStep(m, l, may); Inv(n.0, n.1, senders)
  {
    var n := PollStep(m, l, may);
    forall k | Raised(n.0, k) ensures Covered(n.0, n.1, senders, k) {
      assert Raised(m, k) && Covered(m, l, senders, k);
    }
    forall w | w in n.0.marked && Watched(n.1, w) ensures MarkSeen(n.0, n.1, senders, w) {
      assert Watched(l, w);
    }
  }

  lemma PipeCovered(m: Memory, l: LoopState, senders: Senders, eventfd: bool, k: Kind)
    requires Raised(m, k) ==> Covered(m, l, senders, k)
    requires InPipecb(l.pc)
    ensures var n := PipeStep(m, l, eventfd); Raised(n.0, k) ==> Covered(n.0, n.1, senders, k)
  {
  }

  lemma ResetMarkSeen(items: seq<Item>, k: Kind, w: Item)
    requires w in items && k == w.kind
    ensures Unvisited(Scan(k, |items|), items, w)
  {
    assert Below(items, |items|) == items;
  }

  /** A scan takes the items from the end: what is below i is still to come. */
  lemma ScanMarkSeen(items: seq<Item>, k: Kind, i: nat, w: Item)
    requires 0 < i <= |items| && Unvisited(Scan(k, i), items, w)
    ensures Unvisited(Take(k, i - 1), items, w)
    ensures w != items[i - 1] ==> Unvisited(Scan(k, i - 1), items, w)
  {
    assert Below(items, i) == Below(items, i - 1) + [items[i - 1]];
  }

  lemma TakeMarkSeen(items: seq<Item>, k: Kind, i: nat, w: Item)
    requires i < |items| && Unvisited(Take(k, i), items, w) && w != items[i]
    ensures Unvisited(Scan(k, i), items, w)
  {
    assert Below(items, i + 1) == Below(items, i) + [items[i]];
  }

  lemma ScanStepSeen(m: Memory, l: LoopState, eventfd: bool, w: Item)
    requires LoopSound(m, l) && InPipecb(l.pc) && w in Listed(l, w.kind) && Unvisited(l.pc, Listed(l, w.kind), w)
    ensures var n := PipeStep(m, l, eventfd); w in n.0.marked ==> Unvisited(n.1.pc, Listed(n.1, w.kind), w)
  {
    var items := Listed(l, w.kind);
    if l.pc.Scan? && l.pc.i > 0 {
      ScanMarkSeen(items, w.kind, l.pc.i, w);
    } else if l.pc.Take? && w != items[l.pc.i] {
      TakeMarkSeen(items, w.kind, l.pc.i, w);
    }
  }

  lemma PipeMarkSeen(m: Memory, l: LoopState, senders: Senders, eventfd: bool, w: Item)
    requires LoopSound(m, l) && InPipecb(l.pc) && MarkSeen(m, l, senders, w) && w in Listed(l, w.kind)
    ensures var n := PipeStep(m, l, eventfd); w in n.0.marked ==> MarkSeen(n.0, n.1, senders, w)
  {
    if Unvisited(l.pc, Listed(l, w.kind), w) {
      ScanStepSeen(m, l, eventfd, w);
    } else if l.pc.Reset? && l.pc.kind == w.kind {
      ResetMarkSeen(Listed(l, w.kind), w.kind, w);
    }
  }

  lemma PipeSound(m: Memory, l: LoopState, senders: Senders, eventfd: bool)
    requires LoopSound(m, l) && InPipecb(l.pc)
    ensures var n := PipeStep(m, l, eventfd);
      LoopSound(n.0, n.1) && SkipSeen(n.0, n.1, senders)
      && n.1.signals == l.signals && n.1.asyncs == l.asyncs && !n.1.pc.Starting?
  {
    PipeLoopSound(m, l, eventfd);
  }

  lemma PipeLoopSound(m: Memory, l: LoopState, eventfd: bool)
    requires LoopSound(m, l) && InPipecb(l.pc)
    ensures var n := PipeStep(m, l, eventfd); LoopSound(n.0, n.1)
  {
  }

  lemma PipeLowers(m: Memory, l: LoopState, eventfd: bool)
    requires InPipecb(l.pc)
    ensures PipeStep(m, l, eventfd).0.marked <= m.marked
    ensures forall k :: Raised(PipeStep(m, l, eventfd).0, k) ==> Raised(m, k)
    ensures l.fed <= PipeStep(m, l, eventfd).1.fed
  {
  }

  lemma InvPipe(m: Memory, l: LoopState, senders: Senders, eventfd: bool)
    requires Inv(m, l, senders) && InPipecb(l.pc)
    ensures var n := PipeStep(m, l, eventfd); Inv(n.0, n.1, senders)
  {
    var n := PipeStep(m, l, eventfd);
    PipeSound(m, l, senders, eventfd);
    PipeLowers(m, l, eventfd);
    forall k | Raised(n.0, k) ensures Covered(n.0, n.1, senders, k) {
      assert Covered(m, l, senders, k);
      PipeCovered(m, l, senders, eventfd, k);
    }
    forall w | w in n.0.marked && Watched(n.1, w) ensures MarkSeen(n.0, n.1, senders, w) {
      assert Watched(l, w);
      PipeMarkSeen(m, l, senders, eventfd, w);
    }
  }

  lemma InvExec(s: State, e: Event, eventfd: bool)
    requires Inv(s.mem, s.loop, s.senders)
    ensures var s' := Exec(s, e, eventfd); Inv(s'.mem, s'.loop, s'.senders)
  {
    if e.Send? {
      if e.thread !in s.senders {
        InvSend(s, e.thread, e.item);
      }
    } else if e.Step? {
      if e.thread in s.senders {
        InvSendStep(s, e.thread);
      }
    } else if s.loop.pc.Idle? {
      InvIdle(s.mem, s.loop, s.senders, e);
    } else if e.Loop? {
      if InPipecb(s.loop.pc) {
        InvPipe(s.mem, s.loop, s.senders, eventfd);
      } else {
        InvPoll(s.mem, s.loop, s.senders, e.may);
      }
    }
  }

  /** What every run keeps, whatever the interleaving. */
  lemma {:induction false} InvRun(signals: seq<Item>, events: seq<Event>, eventfd: bool)
    requires forall w :: w in signals ==> w.kind == Signal
    ensures var s := Run(Start(signals), events, eventfd); Inv(s.mem, s.loop, s.senders)
  {
    if events != [] {
      InvRun(signals, events[..|events| - 1], eventfd);
      InvExec(Run(Start(signals), events[..|events| - 1], eventfd), events[|events| - 1], eventfd);
    }
  }

  /** No sender is inside evpipe_write. */
  ghost predicate NoneInside(senders: Senders) {
    forall t :: t in senders ==> senders[t].pc == Marking
  }

  lemma AsleepQuiet(m: Memory, l: LoopState, senders: Senders)
    requires Inv(m, l, senders) && l.pc == Asleep && m.pipe == 0 && NoneInside(senders)
    ensures !m.sigPending && !m.asyncPending && !m.skipped
    ensures forall w :: w in l.signals || w in l.asyncs ==> w !in m.marked
  {
    assert !SomeBrings(senders) && !SomeChecks(senders);
    assert !Raised(m, Signal) && !Raised(m, Async);
  }

  /** No lost wake-up, over all interleavings: a loop asleep with nothing in the pipe
    * and no sender inside evpipe_write has neither flag raised, and no signal and no
    * active async watcher is marked.
    */
  lemma NoLostWakeUp(signals: seq<Item>, events: seq<Event>, eventfd: bool)
    requires forall w :: w in signals ==> w.kind == Signal
    ensures var s := Run(Start(signals), events, eventfd);
      s.loop.pc == Asleep && s.mem.pipe == 0 && NoneInside(s.senders) ==>
      && !s.mem.sigPending && !s.mem.asyncPending
      && forall w :: w in s.loop.signals || w in s.loop.asyncs ==> w !in s.mem.marked
  {
    InvRun(signals, events, eventfd);
    var s := Run(Start(signals), events, eventfd);
    if s.loop.pc == Asleep && s.mem.pipe == 0 && NoneInside(s.senders) {
      AsleepQuiet(s.mem, s.loop, s.senders);
    }
  }

  /** Hence a marked item wakes the sleeper: whatever the timeouts, the poll returns
    * and reports the pipe.
    */
  lemma MarkWakesSleeper(signals: seq<Item>, events: seq<Event>, eventfd: bool, w: Item, may: bool)
    requires forall x :: x in signals ==> x.kind == Signal
    requires var s := Run(Start(signals), events, eventfd);
      s.loop.pc == Asleep && NoneInside(s.senders) && w in s.mem.marked && (w in s.loop.signals || w in s.loop.asyncs)
    ensures var l := Exec(Run(Start(signals), events, eventfd), Loop(may), eventfd).loop;
      l.pc == Woken && l.pending && l.readable
  {
    NoLostWakeUp(signals, events, eventfd);
  }

  lemma LoopKeepsMark(m: Memory, l: LoopState, e: Event, eventfd: bool, w: Item)
    requires (w in l.signals || w in l.asyncs) && w in m.marked && LoopSound(m, l)
    ensures var n := LoopExec(m, l, e, eventfd); w in n.0.marked || n.1.fed == l.fed + [w]
  {
    if l.pc.Idle? && e.StartAsync? {
      assert w != e.w || w in l.asyncs || w.kind == Signal;
    }
  }

  /** A mark is never just dropped: when it goes, its item has been fed. */
  lemma MarkKeptOrFed(s: State, e: Event, eventfd: bool, w: Item)
    requires Inv(s.mem, s.loop, s.senders) && (w in s.loop.signals || w in s.loop.asyncs) && w in s.mem.marked
    ensures var s' := Exec(s, e, eventfd); w in s'.mem.marked || s'.loop.fed == s.loop.fed + [w]
  {
    if !e.Send? && !e.Step? {
      LoopKeepsMark(s.mem, s.loop, e, eventfd, w);
    }
  }

  // ---------- what was marked is fed ----------

  ghost predicate Active(l: LoopState, w: Item) {
    w in l.signals || w in l.asyncs
  }

  /** On the way from a poll that reported the pipe to pipecb. */
  ghost predicate Heading(l: LoopState) {
    l.pending && (l.pc.Woken? || l.pc.Unwanted? || l.pc.Idle? || l.pc.Starting?)
  }

  /** The pass through pipecb that is going on, or the next one, will come by w. */
  ghost predicate Coming(m: Memory, l: LoopState, w: Item) {
    && w in m.marked && Active(l, w)
    && (Unvisited(l.pc, Listed(l, w.kind), w) || (Raised(m, w.kind) && (WillTest(l.pc, w.kind) || Heading(l))))
  }

  lemma ComingPipe(m: Memory, l: LoopState, eventfd: bool, w: Item)
    requires LoopSound(m, l) && InPipecb(l.pc) && Coming(m, l, w)
    ensures var n := PipeStep(m, l, eventfd); w in n.0.marked ==> Coming(n.0, n.1, w)
  {
    PipeSound(m, l, map[], eventfd);
    if Unvisited(l.pc, Listed(l, w.kind), w) {
      ScanStepSeen(m, l, eventfd, w);
    } else {
      TestComing(m, l, eventfd, w.kind);
      if l.pc == Reset(w.kind) {
        ResetMarkSeen(Listed(l, w.kind), w.kind, w);
      }
    }
  }

  /** A raised flag of this kind is still to be tested, or the scan for it begins. */
  lemma TestComing(m: Memory, l: LoopState, eventfd: bool, k: Kind)
    requires Raised(m, k) && WillTest(l.pc, k)
    ensures var n := PipeStep(m, l, eventfd);
      if l.pc == Reset(k) then n.1.pc == Scan(k, |Listed(l, k)|) else Raised(n.0, k) && WillTest(n.1.pc, k)
  {
  }

  lemma ComingLoop(m: Memory, l: LoopState, e: Event, eventfd: bool, w: Item)
    requires LoopSound(m, l) && Coming(m, l, w)
    ensures var n := LoopExec(m, l, e, eventfd); w in n.0.marked && Active(n.1, w) ==> Coming(n.0, n.1, w)
  {
    if !l.pc.Idle? && e.Loop? && InPipecb(l.pc) {
      ComingPipe(m, l, eventfd, w);
    }
  }

  /** One event of the loop or a sender: w is fed, or still on its way, or was stopped. */
  lemma ComingExec(s: State, e: Event, eventfd: bool, w: Item)
    requires Inv(s.mem, s.loop, s.senders) && Coming(s.mem, s.loop, w)
    ensures var s' := Exec(s, e, eventfd);
      s'.loop.fed == s.loop.fed + [w] || (Active(s'.loop, w) ==> Coming(s'.mem, s'.loop, w))
  {
    if !e.Send? && !e.Step? {
      LoopKeepsMark(s.mem, s.loop, e, eventfd, w);
      ComingLoop(s.mem, s.loop, e, eventfd, w);
    }
  }

  lemma FedGrows(s: State, e: Event, eventfd: bool)
    ensures s.loop.fed <= Exec(s, e, eventfd).loop.fed
  {
    if !e.Send? && !e.Step? && !s.loop.pc.Idle? && e.Loop? && InPipecb(s.loop.pc) {
      PipeLowers(s.mem, s.loop, eventfd);
    }
  }

  /** w stays a signal or an active async watcher all along. */
  ghost predicate StaysActive(s: State, events: seq<Event>, eventfd: bool, w: Item) {
    forall k :: 0 <= k <= |events| ==> Active(Run(s, events[..k], eventfd).loop, w)
  }

  ghost predicate FedSince(fed: seq<Item>, l: LoopState, w: Item) {
    fed <= l.fed && w in l.fed[|fed|..]
  }

  lemma StaysFed(fed: seq<Item>, l: LoopState, l': LoopState, w: Item)
    requires FedSince(fed, l, w) && l.fed <= l'.fed
    ensures FedSince(fed, l', w)
  {
    var i :| |fed| <= i < |l.fed| && l.fed[i] == w;
    assert l'.fed[i] == w && l'.fed[|fed|..][i - |fed|] == w;
  }

  lemma JustFed(fed: seq<Item>, l: LoopState, l': LoopState, w: Item)
    requires fed <= l.fed && l'.fed == l.fed + [w]
    ensures FedSince(fed, l', w)
  {
    assert l'.fed[|l.fed|] == w && l'.fed[|fed|..][|l.fed| - |fed|] == w;
  }

  lemma ActiveBefore(s: State, events: seq<Event>, eventfd: bool, w: Item)
    requires StaysActive(s, events, eventfd, w)
    ensures Active(Run(s, events, eventfd).loop, w)
    ensures events != [] ==> StaysActive(s, events[..|events| - 1], eventfd, w)
  {
    assert events[..|events|] == events;
    if events != [] {
      var front := events[..|events| - 1];
      forall k | 0 <= k <= |front| ensures Active(Run(s, front[..k], eventfd).loop, w) {
        assert events[..k] == front[..k];
      }
    }
  }

  /** Since fed was all that had been fed, w has been fed, or it is still on its way. */
  ghost predicate FedOrComing(fed: seq<Item>, s: State, w: Item) {
    fed <= s.loop.fed && (FedSince(fed, s.loop, w) || Coming(s.mem, s.loop, w))
  }

  lemma FedOrComingExec(fed: seq<Item>, s: State, e: Event, eventfd: bool, w: Item)
    requires Inv(s.mem, s.loop, s.senders) && FedOrComing(fed, s, w) && Active(Exec(s, e, eventfd).loop, w)
    ensures FedOrComing(fed, Exec(s, e, eventfd), w)
  {
    var s' := Exec(s, e, eventfd);
    FedGrows(s, e, eventfd);
    if FedSince(fed, s.loop, w) {
      StaysFed(fed, s.loop, s'.loop, w);
    } else {
      ComingExec(s, e, eventfd, w);
      if s'.loop.fed == s.loop.fed + [w] {
        JustFed(fed, s.loop, s'.loop, w);
      }
    }
  }

  lemma {:induction false} ComingRun(s: State, events: seq<Event>, eventfd: bool, w: Item)
    requires Inv(s.mem, s.loop, s.senders) && Coming(s.mem, s.loop, w) && StaysActive(s, events, eventfd, w)
    ensures var s' := Run(s, events, eventfd); Inv(s'.mem, s'.loop, s'.senders) && FedOrComing(s.loop.fed, s', w)
  {
    ActiveBefore(s, events, eventfd, w);
    if events != [] {
      var front, e := events[..|events| - 1], events[|events| - 1];
      ComingRun(s, front, eventfd, w);
      InvExec(Run(s, front, eventfd), e, eventfd);
      FedOrComingExec(s.loop.fed, Run(s, front, eventfd), e, eventfd, w);
    }
  }

  /** What is marked while the loop sleeps is fed before the loop polls again, over all
    * interleavings: the poll returns, and however the senders and callbacks go on, the
    * next time the loop is about to poll the item has been fed, unless it was stopped.
    */
  lemma MarkIsFed(signals: seq<Item>, events: seq<Event>, eventfd: bool, w: Item, may: bool, later: seq<Event>)
    requires forall x :: x in signals ==> x.kind == Signal
    requires var s := Run(Start(signals), events, eventfd);
      s.loop.pc == Asleep && NoneInside(s.senders) && w in s.mem.marked
    requires StaysActive(Exec(Run(Start(signals), events, eventfd), Loop(may), eventfd), later, eventfd, w)
    ensures var awake := Exec(Run(Start(signals), events, eventfd), Loop(may), eventfd);
      var l := Run(awake, later, eventfd).loop;
      l.pc in {Wanting, Asleep, Polling} ==> FedSince(awake.loop.fed, l, w)
  {
    var s := Run(Start(signals), events, eventfd);
    var awake := Exec(s, Loop(may), eventfd);
    assert later[..0] == [] && Active(Run(awake, later[..0], eventfd).loop, w);
    InvRun(signals, events, eventfd);
    InvExec(s, Loop(may), eventfd);
    MarkWakesSleeper(signals, events, eventfd, w, may);
    assert Watched(s.loop, w) && !SomeRaises(s.senders, w.kind);
    ComingRun(awake, later, eventfd, w);
  }

  // ---------- what was marked before the poll, or while it goes on ----------

  ghost predicate Writes(senders: Senders, t: nat) {
    t in senders && senders[t].pc == Writing
  }

  /** A sender is about to write to the pipe. */
  ghost predicate SomeWrites(senders: Senders) {
    exists t :: Writes(senders, t)
  }

  ghost predicate BeforeSkipTest(pc: LoopPc) {
    pc == Wanting || pc == Asleep || pc == Polling || pc == Woken || pc == Unwanted
  }

  /** w is marked with its flag raised, and the loop will hear of it: from the pipe, or from
    * the skipped write when the poll has returned; or pipecb is under way.
    */
  ghost predicate Heard(m: Memory, l: LoopState, senders: Senders, w: Item) {
    || Coming(m, l, w)
    || (&& w in m.marked && Active(l, w) && Raised(m, w.kind)
        && (m.pipe > 0 || SomeWrites(senders) || (m.skipped && BeforeSkipTest(l.pc))))
  }

  lemma HeardStep(s: State, t: nat, w: Item)
    requires Heard(s.mem, s.loop, s.senders, w) && t in s.senders
    ensures var s' := SendStep(s, t); Heard(s'.mem, s'.loop, s'.senders, w)
  {
    var s' := SendStep(s, t);
    if SomeWrites(s.senders) {
      var u :| Writes(s.senders, u);
      assert u != t ==> Writes(s'.senders, u);
    }
    if s.senders[t].pc == Unskipping {
      assert Writes(s'.senders, t);
    }
  }

  lemma HeardSend(s: State, t: nat, item: Item, w: Item)
    requires Heard(s.mem, s.loop, s.senders, w) && t !in s.senders
    ensures Heard(s.mem, s.loop, s.senders[t := Sender(item, Marking)], w)
  {
    if SomeWrites(s.senders) {
      var u :| Writes(s.senders, u);
      assert Writes(s.senders[t := Sender(item, Marking)], u);
    }
  }

  lemma HeardLoop(m: Memory, l: LoopState, senders: Senders, e: Event, eventfd: bool, w: Item)
    requires LoopSound(m, l) && Heard(m, l, senders, w)
    ensures var n := LoopExec(m, l, e, eventfd); w in n.0.marked && Active(n.1, w) ==> Heard(n.0, n.1, senders, w)
  {
    if Coming(m, l, w) {
      ComingLoop(m, l, e, eventfd, w);
    } else if !l.pc.Idle? && e.Loop? && InPipecb(l.pc) {
      HeardPipe(m, l, senders, eventfd, w);
    }
  }

  lemma HeardPipe(m: Memory, l: LoopState, senders: Senders, eventfd: bool, w: Item)
    requires LoopSound(m, l) && InPipecb(l.pc) && Heard(m, l, senders, w) && !Coming(m, l, w)
    ensures var n := PipeStep(m, l, eventfd); w in n.0.marked && Active(n.1, w) ==> Heard(n.0, n.1, senders, w)
  {
  }

  ghost predicate FedOrHeard(fed: seq<Item>, s: State, w: Item) {
    fed <= s.loop.fed && (FedSince(fed, s.loop, w) || Heard(s.mem, s.loop, s.senders, w))
  }

  lemma FedOrHeardExec(fed: seq<Item>, s: State, e: Event, eventfd: bool, w: Item)
    requires Inv(s.mem, s.loop, s.senders) && FedOrHeard(fed, s, w) && Active(Exec(s, e, eventfd).loop, w)
    ensures FedOrHeard(fed, Exec(s, e, eventfd), w)
  {
    var s' := Exec(s, e, eventfd);
    FedGrows(s, e, eventfd);
    if FedSince(fed, s.loop, w) {
      StaysFed(fed, s.loop, s'.loop, w);
    } else if e.Send? {
      if e.thread !in s.senders {
        HeardSend(s, e.thread, e.item, w);
      }
    } else if e.Step? {
      if e.thread in s.senders {
        HeardStep(s, e.thread, w);
      }
    } else {
      LoopKeepsMark(s.mem, s.loop, e, eventfd, w);
      HeardLoop(s.mem, s.loop, s.senders, e, eventfd, w);
      if s'.loop.fed == s.loop.fed + [w] {
        JustFed(fed, s.loop, s'.loop, w);
      }
    }
  }

  lemma {:induction false} HeardRun(s: State, events: seq<Event>, eventfd: bool, w: Item)
    requires Inv(s.mem, s.loop, s.senders) && Heard(s.mem, s.loop, s.senders, w) && StaysActive(s, events, eventfd, w)
    ensures var s' := Run(s, events, eventfd); Inv(s'.mem, s'.loop, s'.senders) && FedOrHeard(s.loop.fed, s', w)
  {
    ActiveBefore(s, events, eventfd, w);
    if events != [] {
      var front, e := events[..|events| - 1], events[|events| - 1];
      HeardRun(s, front, eventfd, w);
      InvExec(Run(s, front, eventfd), e, eventfd);
      FedOrHeardExec(s.loop.fed, Run(s, front, eventfd), e, eventfd, w);
    }
  }

  /** A mark that is there at a poll, blocking or not and however it got there, is fed before
    * the loop can poll again, over all interleavings; or a later sender has called for
    * another wake-up, which is in the pipe or about to be written.
    */
  lemma MarkAtPollIsFed(signals: seq<Item>, events: seq<Event>, eventfd: bool, w: Item, later: seq<Event>)
    requires forall x :: x in signals ==> x.kind == Signal
    requires var s := Run(Start(signals), events, eventfd);
      s.loop.pc in {Wanting, Asleep, Polling} && NoneInside(s.senders) && w in s.mem.marked
    requires StaysActive(Run(Start(signals), events, eventfd), later, eventfd, w)
    ensures var s := Run(Start(signals), events, eventfd);
      var s' := Run(s, later, eventfd);
      s'.loop.pc == Idle && !s'.loop.pending ==>
      FedSince(s.loop.fed, s'.loop, w) || s'.mem.pipe > 0 || exists t :: t in s'.senders && s'.senders[t].pc == Writing
  {
    var s := Run(Start(signals), events, eventfd);
    assert later[..0] == [] && Active(Run(s, later[..0], eventfd).loop, w);
    InvRun(signals, events, eventfd);
    assert Watched(s.loop, w) && !SomeRaises(s.senders, w.kind) && !SomeBrings(s.senders);
    assert Raised(s.mem, w.kind) && Covered(s.mem, s.loop, s.senders, w.kind);
    HeardRun(s, later, eventfd, w);
    var s' := Run(s, later, eventfd);
    if s'.loop.pc == Idle && !s'.loop.pending && SomeWrites(s'.senders) {
      var t :| Writes(s'.senders, t);
    }
  }

  /** The same without other senders: the poll still under way reports the pipe. */
  ghost predicate Sure(m: Memory, l: LoopState, w: Item) {
    || Coming(m, l, w)
    || (&& w in m.marked && Active(l, w) && Raised(m, w.kind)
        && ((m.pipe > 0 && l.pc in {Wanting, Asleep, Polling}) || (m.skipped && BeforeSkipTest(l.pc))))
  }

  lemma SureLoop(m: Memory, l: LoopState, e: Event, eventfd: bool, w: Item)
    requires LoopSound(m, l) && Sure(m, l, w)
    ensures var n := LoopExec(m, l, e, eventfd); w in n.0.marked && Active(n.1, w) ==> Sure(n.0, n.1, w)
  {
    if Coming(m, l, w) {
      ComingLoop(m, l, e, eventfd, w);
    }
  }

  lemma {:induction false} SureRun(s: State, events: seq<Event>, eventfd: bool, w: Item)
    requires Inv(s.mem, s.loop, s.senders) && Sure(s.mem, s.loop, w) && StaysActive(s, events, eventfd, w)
    requires forall e :: e in events ==> !e.Send? && !e.Step?
    ensures var s' := Run(s, events, eventfd);
      && Inv(s'.mem, s'.loop, s'.senders) && s.loop.fed <= s'.loop.fed
      && (FedSince(s.loop.fed, s'.loop, w) || Sure(s'.mem, s'.loop, w))
  {
    ActiveBefore(s, events, eventfd, w);
    if events != [] {
      var front, e := events[..|events| - 1], events[|events| - 1];
      SureRun(s, front, eventfd, w);
      var r := Run(s, front, eventfd);
      var r' := Exec(r, e, eventfd);
      InvExec(r, e, eventfd);
      FedGrows(r, e, eventfd);
      if FedSince(s.loop.fed, r.loop, w) {
        StaysFed(s.loop.fed, r.loop, r'.loop, w);
      } else {
        LoopKeepsMark(r.mem, r.loop, e, eventfd, w);
        SureLoop(r.mem, r.loop, e, eventfd, w);
        if r'.loop.fed == r.loop.fed + [w] {
          JustFed(s.loop.fed, r.loop, r'.loop, w);
        }
      }
    }
  }

  /** When no sender runs on, the mark is fed before the loop can poll again. */
  lemma MarkAtPollIsFedAlone(signals: seq<Item>, events: seq<Event>, eventfd: bool, w: Item, later: seq<Event>)
    requires forall x :: x in signals ==> x.kind == Signal
    requires var s := Run(Start(signals), events, eventfd);
      s.loop.pc in {Wanting, Asleep, Polling} && NoneInside(s.senders) && w in s.mem.marked
    requires StaysActive(Run(Start(signals), events, eventfd), later, eventfd, w)
    requires forall e :: e in later ==> !e.Send? && !e.Step?
    ensures var s := Run(Start(signals), events, eventfd);
      var l := Run(s, later, eventfd).loop;
      l.pc == Idle && !l.pending ==> FedSince(s.loop.fed, l, w)
  {
    var s := Run(Start(signals), events, eventfd);
    assert later[..0] == [] && Active(Run(s, later[..0], eventfd).loop, w);
    InvRun(signals, events, eventfd);
    assert Watched(s.loop, w) && !SomeRaises(s.senders, w.kind) && !SomeBrings(s.senders);
    assert Raised(s.mem, w.kind) && Covered(s.mem, s.loop, s.senders, w.kind);
    SureRun(s, later, eventfd, w);
  }

  // ---------- what was sent is fed ----------

  /** w is on its way from the sender t: to be marked, marked, or fed. */
  ghost predicate Underway(fed: seq<Item>, s: State, t: nat, w: Item) {
    && fed <= s.loop.fed
    && (w in s.mem.marked || FedSince(fed, s.loop, w) || (t in s.senders && s.senders[t] == Sender(w, Marking)))
  }

  lemma UnderwayExec(fed: seq<Item>, s: State, e: Event, eventfd: bool, t: nat, w: Item)
    requires Inv(s.mem, s.loop, s.senders) && Active(s.loop, w) && Underway(fed, s, t, w)
    ensures Underway(fed, Exec(s, e, eventfd), t, w)
  {
    var s' := Exec(s, e, eventfd);
    FedGrows(s, e, eventfd);
    if FedSince(fed, s.loop, w) {
      StaysFed(fed, s.loop, s'.loop, w);
    } else if w in s.mem.marked {
      MarkKeptOrFed(s, e, eventfd, w);
      if s'.loop.fed == s.loop.fed + [w] {
        JustFed(fed, s.loop, s'.loop, w);
      }
    }
  }

  lemma {:induction false} UnderwayRun(s: State, events: seq<Event>, eventfd: bool, t: nat, w: Item)
    requires Inv(s.mem, s.loop, s.senders) && StaysActive(s, events, eventfd, w) && Underway(s.loop.fed, s, t, w)
    ensures var s' := Run(s, events, eventfd); Inv(s'.mem, s'.loop, s'.senders) && Underway(s.loop.fed, s', t, w)
  {
    ActiveBefore(s, events, eventfd, w);
    if events != [] {
      var front, e := events[..|events| - 1], events[|events| - 1];
      ActiveBefore(s, front, eventfd, w);
      UnderwayRun(s, front, eventfd, t, w);
      InvExec(Run(s, front, eventfd), e, eventfd);
      UnderwayExec(s.loop.fed, Run(s, front, eventfd), e, eventfd, t, w);
    }
  }

  lemma {:induction false} RunConcat(s: State, a: seq<Event>, b: seq<Event>, eventfd: bool)
    ensures Run(s, a + b, eventfd) == Run(Run(s, a, eventfd), b, eventfd)
  {
    if b == [] {
      assert a + b == a;
    } else {
      assert (a + b)[..|a + b| - 1] == a + b[..|b| - 1];
      RunConcat(s, a, b[..|b| - 1], eventfd);
    }
  }

  lemma {:induction false} FedGrowsRun(s: State, events: seq<Event>, eventfd: bool)
    ensures s.loop.fed <= Run(s, events, eventfd).loop.fed
  {
    if events != [] {
      FedGrowsRun(s, events[..|events| - 1], eventfd);
      FedGrows(Run(s, events[..|events| - 1], eventfd), events[|events| - 1], eventfd);
    }
  }

  /** Whatever is sent is fed: an item sent after any run is fed before the loop can poll
    * again after the poll that follows the end of the call, unless it was stopped or a later
    * sender has called for another wake-up.
    */
  lemma SentIsFed(signals: seq<Item>, events: seq<Event>, eventfd: bool, t: nat, w: Item, during: seq<Event>,
                  later: seq<Event>)
    requires forall x :: x in signals ==> x.kind == Signal
    requires t !in Run(Start(signals), events, eventfd).senders
    requires var sent := Run(Start(signals), events + [Send(t, w)], eventfd);
      && StaysActive(sent, during, eventfd, w) && StaysActive(Run(sent, during, eventfd), later, eventfd, w)
      && t !in Run(sent, during, eventfd).senders && NoneInside(Run(sent, during, eventfd).senders)
      && Run(sent, during, eventfd).loop.pc in {Wanting, Asleep, Polling}
    ensures var sent := Run(Start(signals), events + [Send(t, w)], eventfd);
      var s := Run(Run(sent, during, eventfd), later, eventfd);
      s.loop.pc == Idle && !s.loop.pending ==>
      FedSince(sent.loop.fed, s.loop, w) || s.mem.pipe > 0 || exists u :: u in s.senders && s.senders[u].pc == Writing
  {
    var all := events + [Send(t, w)];
    var sent := Run(Start(signals), all, eventfd);
    assert all[..|all| - 1] == events && sent == Exec(Run(Start(signals), events, eventfd), Send(t, w), eventfd);
    var polled := Run(sent, during, eventfd);
    InvRun(signals, all, eventfd);
    UnderwayRun(sent, during, eventfd, t, w);
    FedGrowsRun(polled, later, eventfd);
    if FedSince(sent.loop.fed, polled.loop, w) {
      StaysFed(sent.loop.fed, polled.loop, Run(polled, later, eventfd).loop, w);
    } else {
      RunConcat(Start(signals), all, during, eventfd);
      MarkAtPollIsFed(signals, all + during, eventfd, w, later);
      FedLonger(sent.loop.fed, polled.loop.fed, Run(polled, later, eventfd).loop, w);
    }
  }

  lemma FedLonger(fed: seq<Item>, later: seq<Item>, l: LoopState, w: Item)
    requires fed <= later <= l.fed
    ensures FedSince(later, l, w) ==> FedSince(fed, l, w)
  {
    if FedSince(later, l, w) {
      var i :| |later| <= i < |l.fed| && l.fed[i] == w;
      assert l.fed[|fed|..][i - |fed|] == w;
    }
  }

  // ---------- which watchers are active ----------

  /** Stopping takes exactly the watcher at that index out of the list, starting adds exactly
    * the one started, and nothing else changes which signals and watchers are active.
    */
  lemma ActiveChanges(s: State, e: Event, eventfd: bool)
    ensures Exec(s, e, eventfd).loop.signals == s.loop.signals
    ensures multiset(Exec(s, e, eventfd).loop.asyncs) == ActiveAfter(s.loop, e)
  {
    if s.loop.pc.Idle? {
      IdleLists(s.mem, s.loop, e);
    } else if e.Loop? && InPipecb(s.loop.pc) {
      PipeKeepsLists(s.mem, s.loop, eventfd);
    } else if e.Loop? {
      PollLists(s.mem, s.loop, e.may);
    }
  }

  ghost function ActiveAfter(l: LoopState, e: Event): multiset<Item> {
    if l.pc.Idle? && e.StopAsync? && e.index < |l.asyncs| then multiset(l.asyncs) - multiset{l.asyncs[e.index]}
    else if l.pc.Starting? && e.Loop? then multiset(l.asyncs) + multiset{l.pc.w}
    else multiset(l.asyncs)
  }

  lemma IdleLists(m: Memory, l: LoopState, e: Event)
    requires l.pc.Idle?
    ensures IdleStep(m, l, e).1.signals == l.signals && multiset(IdleStep(m, l, e).1.asyncs) == ActiveAfter(l, e)
  {
    if e.StopAsync? && e.index < |l.asyncs| {
      StopLists(m, l, e.index);
    } else {
      IdleKeepsLists(m, l, e);
    }
  }

  lemma StopLists(m: Memory, l: LoopState, i: nat)
    requires i < |l.asyncs|
    ensures IdleStep(m, l, StopAsync(i)).1.signals == l.signals
    ensures multiset(IdleStep(m, l, StopAsync(i)).1.asyncs) == multiset(l.asyncs) - multiset{l.asyncs[i]}
  {
    LastIntoGap(l.asyncs, i);
  }

  lemma IdleKeepsLists(m: Memory, l: LoopState, e: Event)
    requires e.StopAsync? ==> e.index >= |l.asyncs|
    ensures IdleStep(m, l, e).1.signals == l.signals && IdleStep(m, l, e).1.asyncs == l.asyncs
  {
  }

  lemma PollLists(m: Memory, l: LoopState, may: bool)
    requires !l.pc.Idle?
    ensures PollStep(m, l, may).1.signals == l.signals
    ensures multiset(PollStep(m, l, may).1.asyncs) == ActiveAfter(l, Loop(may))
  {
    if l.pc.Starting? {
      assert multiset(l.asyncs + [l.pc.w]) == multiset(l.asyncs) + multiset{l.pc.w};
    } else {
      assert PollStep(m, l, may).1.asyncs == l.asyncs;
    }
  }

  /** The last item moves into the gap. */
  lemma LastIntoGap(items: seq<Item>, i: nat)
    requires i < |items|
    ensures multiset(items[i := items[|items| - 1]][..|items| - 1]) == multiset(items) - multiset{items[i]}
  {
    var n := |items| - 1;
    GapSplit(items[..n], items[n], i);
    assert items == items[..n] + [items[n]];
    if i < n {
      assert items[i := items[n]][..n] == items[..n][i := items[n]];
    } else {
      assert items[i := items[n]][..n] == items[..n];
    }
  }

  lemma GapSplit(front: seq<Item>, last: Item, i: nat)
    requires i <= |front|
    ensures i < |front| ==> multiset(front[i := last]) == multiset(front + [last]) - multiset{front[i]}
    ensures multiset(front) == multiset(front + [last]) - multiset{last}
  {
    assert multiset(front + [last]) == multiset(front) + multiset{last};
  }

  lemma PipeKeepsLists(m: Memory, l: LoopState, eventfd: bool)
    ensures PipeStep(m, l, eventfd).1.signals == l.signals && PipeStep(m, l, eventfd).1.asyncs == l.asyncs
  {
  }

  // ---------- only what was marked is fed ----------

  /** A mark is set only by a sender, for the item it sends. */
  lemma MarkedBySender(s: State, e: Event, eventfd: bool, w: Item)
    requires w !in s.mem.marked && w in Exec(s, e, eventfd).mem.marked
    ensures e.Step? && e.thread in s.senders && s.senders[e.thread] == Sender(w, Marking)
  {
    LoopMarksNothing(s.mem, s.loop, e, eventfd);
  }

  lemma LoopMarksNothing(m: Memory, l: LoopState, e: Event, eventfd: bool)
    ensures LoopExec(m, l, e, eventfd).0.marked <= m.marked
  {
    if InPipecb(l.pc) {
      PipeLowers(m, l, eventfd);
    }
  }

  /** Nothing was fed, or one item that is active and was marked, and is marked no longer. */
  ghost predicate FeedsMarked(m: Memory, l: LoopState, m': Memory, l': LoopState) {
    || l'.fed == l.fed
    || exists w :: && w in m.marked && (w in l.signals || w in l.asyncs)
                   && l'.fed == l.fed + [w] && m'.marked == m.marked - {w}
  }

  lemma PipeFeedsMarked(m: Memory, l: LoopState, eventfd: bool)
    requires TakesMarked(m, l)
    ensures var n := PipeStep(m, l, eventfd); FeedsMarked(m, l, n.0, n.1)
  {
    if l.pc.Take? && l.pc.i < |Listed(l, l.pc.kind)| {
      var w := Listed(l, l.pc.kind)[l.pc.i];
      assert w in m.marked && (w in l.signals || w in l.asyncs);
    }
  }

  /** In every run only what was marked is fed, and feeding takes the mark away. */
  lemma OnlyMarkedFed(signals: seq<Item>, events: seq<Event>, eventfd: bool, e: Event)
    requires forall x :: x in signals ==> x.kind == Signal
    ensures var s := Run(Start(signals), events, eventfd);
      var s' := Exec(s, e, eventfd);
      FeedsMarked(s.mem, s.loop, s'.mem, s'.loop)
  {
    InvRun(signals, events, eventfd);
    var s := Run(Start(signals), events, eventfd);
    if !e.Send? && !e.Step? && !s.loop.pc.Idle? && InPipecb(s.loop.pc) {
      PipeFeedsMarked(s.mem, s.loop, eventfd);
    }
  }
}
