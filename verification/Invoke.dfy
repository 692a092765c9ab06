/** ev_invoke_pending (ev.c) with callbacks that feed and clear watchers, start, stop and
  * restart timers, and invoke pending events themselves; and the pass over the timers
  * that ends in it.
  */
module Invoke {
  import opened Watchers
  import opened Heap
  import opened Pending
  import opened Timers

  /** A callback may bring a new watcher into use. */
  method UseNew(t: Timers, ghost start: map<Watcher, nat>, ghost from: nat, ghost pri: int)
    requires t.Valid() && Going(t.pend, start, from, pri)
    modifies t.pend`known
    ensures t.Valid() && Going(t.pend, start, from, pri) && t.Onward()
  {
    var priority: int :| true;
    var w := new Watcher(priority, 0, 0);
    t.pend.PriAdjust(w);
    t.StillPointed();
    t.pend.GoesOnQuietly(start, from, pri);
  }

  /** It may feed a watcher in use. */
  method Feed(t: Timers, w: Watcher, events: Mask, ghost start: map<Watcher, nat>, ghost from: nat, ghost pri: int)
    requires t.Valid() && Going(t.pend, start, from, pri) && w in t.pend.known
    modifies t.pend`queues, t.pend`trace, w`pending
    ensures t.Valid() && Going(t.pend, start, from, pri) && t.Onward()
  {
    t.pend.FeedKnown(w, events);
    t.StillPointed();
    t.pend.GoesOn(start, from, pri, Fed(w, events));
  }

  /** It may clear the events of a watcher in use. */
  method Clear(t: Timers, w: Watcher, ghost start: map<Watcher, nat>, ghost from: nat, ghost pri: int)
    requires t.Valid() && Going(t.pend, start, from, pri) && w in t.pend.known
    modifies t.pend`queues, t.pend`trace, w`pending
    ensures t.Valid() && Going(t.pend, start, from, pri) && t.Onward()
  {
    var _ := t.pend.ClearPending(w);
    t.StillPointed();
    t.pend.GoesOn(start, from, pri, Cleared(w));
  }

  /** It may start a timer that is inactive, new or not, and stop one that is active. */
  method StartOrStop(t: Timers, w: Watcher, ghost start: map<Watcher, nat>, ghost from: nat, ghost pri: int)
    requires t.Valid() && Going(t.pend, start, from, pri)
    requires t.Mine(w) && w.repeat >= 0 && (w in t.pend.known || w.pending == 0)
    modifies t`heap, t.pend`queues, t.pend`trace, t.pend`known
    modifies t.pend.known`active, w`active, w`pending, w`priority, w`at
    ensures t.Valid() && Going(t.pend, start, from, pri) && t.pend.known <= old(t.pend.known) + {w}
    ensures old(t.pend.known) <= t.pend.known && old(t.pend.trace) <= t.pend.trace
    ensures forall x :: x in old(t.pend.known) ==> x.priority == old(x.priority)
  {
    if w.active > 0 {
      t.TimerStop(w);
      assert Settles(t.pend.trace[|old(t.pend.trace)|], w);
    } else {
      t.TimerStart(w);
    }
    t.pend.GoesOnQuietly(start, from, pri);
  }

  /** It may restart any timer. */
  method Restart(t: Timers, w: Watcher, ghost start: map<Watcher, nat>, ghost from: nat, ghost pri: int)
    requires t.Valid() && Going(t.pend, start, from, pri)
    requires t.Mine(w) && w.repeat >= 0 && (w in t.pend.known || w.pending == 0)
    modifies t`heap, t.pend`queues, t.pend`trace, t.pend`known
    modifies t.pend.known`active, w`active, w`pending, w`priority, w`at
    ensures t.Valid() && Going(t.pend, start, from, pri) && t.pend.known <= old(t.pend.known) + {w}
    ensures old(t.pend.known) <= t.pend.known && old(t.pend.trace) <= t.pend.trace
    ensures forall x :: x in old(t.pend.known) ==> x.priority == old(x.priority)
  {
    t.TimerAgain(w);
    assert Settles(t.pend.trace[|old(t.pend.trace)|], w);
    t.pend.GoesOnQuietly(start, from, pri);
  }

  /** Any timer: a new one, one of the heap, or an inactive watcher in use. */
  method PickTimer(t: Timers) returns (w: Watcher)
    requires t.Valid()
    ensures t.Mine(w) && w.repeat >= 0 && (w in t.pend.known || fresh(w))
    ensures fresh(w) ==> w.pending == 0 && w.active == 0
  {
    var priority: int, at: int, repeat: nat, i: nat :| true;
    if i < |t.heap| {
      w := t.heap[i].w;
      assert t.heap[i] in t.heap && w in Ws(t.heap);
      t.InactiveIsOut(w);
      return;
    }
    if t.pend.known != {} {
      w :| w in t.pend.known;
      if w.active == 0 && w.repeat >= 0 {
        return;
      }
    }
    w := new Watcher(priority, at, repeat);
  }

  method Act(t: Timers, kind: nat, ghost start: map<Watcher, nat>, ghost from: nat, ghost pri: int)
    requires t.Valid() && Going(t.pend, start, from, pri)
    modifies t`heap, t.pend`queues, t.pend`trace, t.pend`known
    modifies t.pend.known`active, t.pend.known`pending, t.pend.known`priority, t.pend.known`at
    ensures t.Valid() && Going(t.pend, start, from, pri) && t.Onward()
  {
    if kind == 1 || t.pend.known == {} {
      UseNew(t, start, from, pri);
    } else if kind == 2 {
      var w :| w in t.pend.known;
      var feed: bool, events: Mask :| true;
      if feed {
        Feed(t, w, events, start, from, pri);
      } else {
        Clear(t, w, start, from, pri);
      }
    } else {
      var w := PickTimer(t);
      if kind == 3 {
        StartOrStop(t, w, start, from, pri);
      } else {
        Restart(t, w, start, from, pri);
      }
    }
  }

  /** A callback: at most budget acts, in any order; those of a nested ev_invoke_pending count. */
  method Callback(t: Timers, budget: nat, ghost start: map<Watcher, nat>, ghost from: nat, ghost pri: int)
    returns (left: nat)
    requires t.Valid() && Going(t.pend, start, from, pri) && 0 <= pri <= NUMPRI
    modifies t`heap, t.pend`queues, t.pend`trace, t.pend`known, t.pend.pendingW`pending
    modifies t.pend.known`active, t.pend.known`pending, t.pend.known`priority, t.pend.known`at
    ensures t.Valid() && Going(t.pend, start, from, pri) && t.Onward() && left <= budget
    ensures left == budget ==> t.pend.queues == old(t.pend.queues) && t.pend.trace == old(t.pend.trace)
    decreases budget, 0
  {
    left := budget;
    var more: bool :| true;
    while left > 0 && more
      invariant t.Valid() && Going(t.pend, start, from, pri) && t.Onward() && left <= budget
      invariant left == budget ==> t.pend.queues == old(t.pend.queues) && t.pend.trace == old(t.pend.trace)
      decreases left
    {
      var kind: nat :| true;
      left := left - 1;
      if kind == 0 {
        t.pend.GoingAbove(start, from, pri, NUMPRI);
        left := InvokeAll(t, left, start, from);
        t.pend.GoingAbove(start, from, 0, pri);
      } else {
        Act(t, kind, start, from, pri);
      }
      more :| true;
    }
  }

  /** EV_CB_INVOKE. */
  method InvokeCallback(t: Timers, w: Watcher, budget: nat, ghost start: map<Watcher, nat>, ghost from: nat,
                        ghost pri: int)
    returns (left: nat)
    requires t.Valid() && Going(t.pend, start, from, pri) && 0 <= pri <= NUMPRI
    modifies t`heap, t.pend`queues, t.pend`trace, t.pend`known, t.pend.pendingW`pending
    modifies t.pend.known`active, t.pend.known`pending, t.pend.known`priority, t.pend.known`at
    ensures t.Valid() && Going(t.pend, start, from, pri) && t.Onward() && left <= budget
    ensures left == budget ==> t.pend.queues == old(t.pend.queues) && t.pend.trace == old(t.pend.trace)
    decreases budget, 1
  {
    left := budget;
    if w != t.pend.pendingW {
      left := Callback(t, budget, start, from, pri);
    }
  }

  /** One turn of the inner loop of ev_invoke_pending, up to the callback. */
  method TakeFor(t: Timers, pri: nat, ghost start: map<Watcher, nat>, ghost from: nat) returns (e: Entry)
    requires t.Valid() && pri < NUMPRI && t.pend.queues[pri] != [] && Going(t.pend, start, from, pri + 1)
    modifies t.pend`queues, t.pend`trace, t.pend.known`pending, t.pend.pendingW`pending
    ensures t.Valid() && Going(t.pend, start, from, pri + 1) && t.Onward()
    ensures t.pend.queues == old(t.pend.queues)[pri := old(t.pend.queues)[pri][..|old(t.pend.queues)[pri]| - 1]]
    ensures e == old(t.pend.queues)[pri][|old(t.pend.queues)[pri]| - 1]
    ensures t.pend.trace == old(t.pend.trace) + (if e.w == t.pend.pendingW then [] else [Delivered(e.w, e.events)])
  {
    e := t.pend.TakeNext(pri, start, from);
    t.StillPointed();
  }

  /** The next pending event of this priority is delivered and its callback run. */
  method InvokeOne(t: Timers, pri: nat, budget: nat, ghost start: map<Watcher, nat>, ghost from: nat)
    returns (left: nat)
    requires t.Valid() && pri < NUMPRI && t.pend.queues[pri] != [] && Going(t.pend, start, from, pri + 1)
    modifies t`heap, t.pend`queues, t.pend`trace, t.pend`known, t.pend.pendingW`pending
    modifies t.pend.known`active, t.pend.known`pending, t.pend.known`priority, t.pend.known`at
    ensures t.Valid() && Going(t.pend, start, from, pri + 1) && t.Onward() && left <= budget
    ensures left == budget ==>
      t.pend.queues == old(t.pend.queues)[pri := old(t.pend.queues)[pri][..|old(t.pend.queues)[pri]| - 1]]
    ensures left == budget ==>
      var e := old(t.pend.queues)[pri][|old(t.pend.queues)[pri]| - 1];
      t.pend.trace == old(t.pend.trace) + (if e.w == t.pend.pendingW then [] else [Delivered(e.w, e.events)])
    decreases budget, 2
  {
    var e := TakeFor(t, pri, start, from);
    left := InvokeCallback(t, e.w, budget, start, from, pri + 1);
  }

  method InvokeLevel(t: Timers, pri: nat, budget: nat, ghost start: map<Watcher, nat>, ghost from: nat)
    returns (left: nat)
    requires t.Valid() && pri < NUMPRI && Going(t.pend, start, from, pri + 1)
    modifies t`heap, t.pend`queues, t.pend`trace, t.pend`known, t.pend.pendingW`pending
    modifies t.pend.known`active, t.pend.known`pending, t.pend.known`priority, t.pend.known`at
    ensures t.Valid() && Going(t.pend, start, from, pri) && t.Onward() && t.pend.queues[pri] == [] && left <= budget
    ensures budget == 0 ==> t.pend.queues == old(t.pend.queues)[pri := []]
    ensures budget == 0 ==> t.pend.trace == old(t.pend.trace) + Drained(old(t.pend.queues)[pri], t.pend.pendingW)
    decreases budget, 3
  {
    left := budget;
    while t.pend.queues[pri] != []
      invariant t.Valid() && Going(t.pend, start, from, pri + 1) && t.Onward() && left <= budget
      invariant budget == 0 ==> t.pend.queues == old(t.pend.queues)[pri := t.pend.queues[pri]]
      invariant budget == 0 ==>
        t.pend.trace + Drained(t.pend.queues[pri], t.pend.pendingW) ==
        old(t.pend.trace) + Drained(old(t.pend.queues)[pri], t.pend.pendingW)
      decreases left, |t.pend.queues[pri]|
    {
      ghost var was, q := t.pend.trace, t.pend.queues[pri];
      left := InvokeOne(t, pri, left, start, from);
      if budget == 0 {
        DrainedLast(was, q, t.pend.pendingW);
      }
    }
    t.pend.LevelDone(start, from, pri);
  }

  /** The loop of ev_invoke_pending, inside the run from position from on. */
  method InvokeAll(t: Timers, budget: nat, ghost start: map<Watcher, nat>, ghost from: nat) returns (left: nat)
    requires t.Valid() && Going(t.pend, start, from, NUMPRI)
    modifies t`heap, t.pend`queues, t.pend`trace, t.pend`known, t.pend.pendingW`pending
    modifies t.pend.known`active, t.pend.known`pending, t.pend.known`priority, t.pend.known`at
    ensures t.Valid() && Going(t.pend, start, from, 0) && t.Onward() && t.pend.queues[0] == [] && left <= budget
    ensures budget == 0 ==> Emptied(old(t.pend.queues), t.pend.queues, 0)
    ensures budget == 0 ==> t.pend.trace == old(t.pend.trace) + DrainedAll(old(t.pend.queues), NUMPRI, t.pend.pendingW)
    decreases budget, 4
  {
    left := budget;
    DrainingStart(t.pend.queues, t.pend.trace, t.pend.pendingW);
    for pri := NUMPRI downto 0
      invariant t.Valid() && Going(t.pend, start, from, pri) && t.Onward() && left <= budget
      invariant pri < NUMPRI ==> t.pend.queues[pri] == []
      invariant budget == 0 ==>
        Draining(old(t.pend.queues), old(t.pend.trace), t.pend.queues, t.pend.trace, pri, t.pend.pendingW)
    {
      ghost var was, qs := t.pend.trace, t.pend.queues;
      left := InvokeLevel(t, pri, left, start, from);
      if budget == 0 {
        DrainingNext(old(t.pend.queues), old(t.pend.trace), qs, was, pri, t.pend.pendingW);
      }
    }
    if budget == 0 {
      DrainingEnd(old(t.pend.queues), old(t.pend.trace), t.pend.queues, t.pend.trace, t.pend.pendingW);
    }
  }

  /** ev_invoke_pending: everything that was pending is delivered or cleared, higher
    * priorities first and the newest of a priority first, whatever the callbacks do, and
    * the timers stay valid. A callback may leave new events behind, but only at a higher
    * priority than the lowest; without them every queue empties.
    */
  method InvokePending(t: Timers, budget: nat) returns (left: nat)
    requires t.Valid()
    modifies t`heap, t.pend`queues, t.pend`trace, t.pend`known, t.pend.pendingW`pending
    modifies t.pend.known`active, t.pend.known`pending, t.pend.known`priority, t.pend.known`at
    ensures t.Valid() && t.Onward() && t.pend.queues[0] == [] && left <= budget
    ensures forall w :: w in old(t.pend.known) && old(w.pending) > 0 ==> Settled(t.pend.trace, |old(t.pend.trace)|, w)
    ensures t.pend.InOrder(old(t.pend.Places()), |old(t.pend.trace)|)
    ensures budget == 0 ==> Emptied(old(t.pend.queues), t.pend.queues, 0)
    ensures budget == 0 ==> t.pend.trace == old(t.pend.trace) + DrainedAll(old(t.pend.queues), NUMPRI, t.pend.pendingW)
  {
    ghost var start, from := t.pend.Places(), |t.pend.trace|;
    t.pend.GoingStart();
    left := InvokeAll(t, budget, start, from);
    t.pend.GoingEnd(start, from);
  }

  // ---------- the timers that are due ----------

  /** Those of the watchers idle that are earliest and newest in their queues are settled first. */
  method InvokeTimers(t: Timers, budget: nat, ghost idle: set<Watcher>, ghost at: map<Watcher, int>) returns (left: nat)
    requires t.Valid() && NewestEarliest(idle, at, t.pend.Prios(), t.pend.Places())
    requires forall w :: w in idle ==> w in at && w in t.pend.known && w.pending > 0
    modifies t`heap, t.pend`queues, t.pend`trace, t.pend`known, t.pend.pendingW`pending
    modifies t.pend.known`active, t.pend.known`pending, t.pend.known`priority, t.pend.known`at
    ensures t.Valid() && t.Onward() && left <= budget
    ensures forall w :: w in old(t.pend.known) && old(w.pending) > 0 ==> Settled(t.pend.trace, |old(t.pend.trace)|, w)
    ensures forall a, b :: a in idle && b in idle && at[a] < at[b] && a.priority == b.priority ==>
      SettledFirst(t.pend.trace, |old(t.pend.trace)|, a, b)
    ensures budget == 0 ==> t.pend.trace == old(t.pend.trace) + DrainedAll(old(t.pend.queues), NUMPRI, t.pend.pendingW)
  {
    ghost var pri, places, from := t.pend.Prios(), t.pend.Places(), |t.pend.trace|;
    left := InvokePending(t, budget);
    t.IdleInOrder(idle, at, pri, places, from);
  }

  /** timers_reify and then ev_invoke_pending, whatever the callbacks do: every timer that
    * was due is delivered or cleared, and of two with one priority that were not pending
    * before, the earlier one first. The timers stay valid.
    */
  method ReifyAndInvoke(t: Timers, budget: nat) returns (left: nat, ghost order: seq<Watcher>, ghost from: nat)
    requires t.Valid() && t.pend.rfeeds == []
    modifies t`heap, t.pend`queues, t.pend`trace, t.pend`rfeeds, t.pend`known, t.pend.pendingW`pending
    modifies t.pend.known`active, t.pend.known`pending, t.pend.known`priority, t.pend.known`at
    ensures t.Valid() && t.Onward() && left <= budget
    ensures Reified(order, old(Due(t.heap, t.now)), {}, old(t.Times())) && from <= |t.pend.trace|
    ensures t.pend.trace[..from] == old(t.pend.trace) + Clears(order) + FedBack(order, EV_TIMER)
    ensures forall w :: w in old(Due(t.heap, t.now)) ==> Settled(t.pend.trace, from, w)
    ensures forall a, b ::
      a in old(t.IdleDue()) && b in old(t.IdleDue()) && old(a.at) < old(b.at) && a.priority == b.priority ==>
      SettledFirst(t.pend.trace, from, a, b)
  {
    ghost var idle, at := t.IdleDue(), t.Times();
    t.DueKnown(t.heap, t.now);
    order := t.TimersReify();
    from := |t.pend.trace|;
    left := InvokeTimers(t, budget, idle, at);
  }

  /** The same when no callback interferes and nothing due was pending: the deliveries are
    * the timers of each priority, earliest first, before what was queued already.
    */
  method ReifyAndDrain(t: Timers) returns (ghost order: seq<Watcher>)
    requires t.Valid() && t.pend.rfeeds == [] && t.DueIdle()
    modifies t`heap, t.pend`queues, t.pend`trace, t.pend`rfeeds, t.pend`known, t.pend.pendingW`pending
    modifies t.pend.known`active, t.pend.known`pending, t.pend.known`priority, t.pend.known`at
    ensures Reified(order, old(Due(t.heap, t.now)), {}, old(t.Times()))
    ensures t.pend.trace == old(t.pend.trace) + Clears(order) + FedBack(order, EV_TIMER)
      + TimersThenRest(order, old(t.pend.queues), |old(t.pend.queues)|, t.pend.pendingW)
  {
    ghost var due, at, qs := Due(t.heap, t.now), t.Times(), t.pend.queues;
    t.DueKnown(t.heap, t.now);
    order := t.TimersReify();
    ghost var fed := t.pend.queues;
    var _ := InvokeTimers(t, 0, {}, map[]);
    DrainedTimers(order, due, at, qs, fed, |qs|, t.pend.pendingW);
  }
}
