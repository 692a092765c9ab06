/** The queues of pending events (ev.c): one per priority, with back-pointers from
  * the watchers and tombstones where a pending watcher was cleared.
  */
module Pending {
  import opened Watchers

  /** Events waiting for a watcher (ANPENDING). */
  datatype Entry = Entry(w: Watcher, events: Mask)

  /** What happened to pending events, in order. */
  datatype Happening =
    | Fed(w: Watcher, events: Mask)
    | Cleared(w: Watcher)
    | Delivered(w: Watcher, events: Mask)

  /** The events each watcher has pending. */
  type Masks = map<Watcher, Mask>

  function Merge(m: Masks, w: Watcher, events: Mask): Masks {
    m[w := if w in m then m[w] | events else events]
  }

  function After(m: Masks, h: Happening): Masks {
    match h
    case Fed(w, events) => Merge(m, w, events)
    case Cleared(w) => m - {w}
    case Delivered(w, _) => m - {w}
  }

  function Replayed(trace: seq<Happening>): Masks {
    if trace == [] then map[] else After(Replayed(trace[..|trace| - 1]), trace[|trace| - 1])
  }

  ghost predicate ReplayIs(m: Masks, trace: seq<Happening>) {
    forall k {:trigger Unfold(k)} :: Unfold(k) ==> m == Replayed(trace)
  }

  /** Replayed, folded until ReplayUnfold opens it. */
  ghost function Replay(trace: seq<Happening>): Masks {
    assert ReplayIs(Replayed(trace), trace);
    var m :| ReplayIs(m, trace);
    m
  }

  lemma ReplayUnfold(trace: seq<Happening>)
    ensures Replay(trace) == Replayed(trace)
  {
    assert Unfold(0);
  }

  /** Whatever is delivered is everything fed to that watcher since its events were
    * last delivered or cleared.
    */
  ghost predicate AllDelivered(trace: seq<Happening>) {
    forall i :: 0 <= i < |trace| && trace[i].Delivered? ==>
      trace[i].w in Replay(trace[..i]) && Replay(trace[..i])[trace[i].w] == trace[i].events
  }

  ghost predicate HonestIs(ok: bool, trace: seq<Happening>) {
    forall k {:trigger Unfold(k)} :: Unfold(k) ==> ok == AllDelivered(trace)
  }

  /** AllDelivered, folded until HonestUnfold opens it. */
  ghost predicate Honest(trace: seq<Happening>) {
    assert HonestIs(AllDelivered(trace), trace);
    var ok :| HonestIs(ok, trace);
    ok
  }

  lemma HonestUnfold(trace: seq<Happening>)
    ensures Honest(trace) == AllDelivered(trace)
  {
    assert Unfold(0);
  }

  lemma TraceGrows(trace: seq<Happening>, h: Happening)
    requires Honest(trace)
    requires h.Delivered? ==> h.w in Replay(trace) && Replay(trace)[h.w] == h.events
    ensures Honest(trace + [h]) && Replay(trace + [h]) == After(Replay(trace), h)
  {
    var t := trace + [h];
    assert t[..|trace|] == trace;
    ReplayUnfold(trace);
    ReplayUnfold(t);
    HonestUnfold(trace);
    HonestUnfold(t);
    forall i | 0 <= i < |t| && t[i].Delivered?
      ensures t[i].w in Replay(t[..i]) && Replay(t[..i])[t[i].w] == t[i].events
    {
      if i < |trace| {
        assert t[..i] == trace[..i];
      }
    }
  }

  /** At position n, w has been fed at j and neither delivered nor cleared since. */
  ghost predicate FedUpTo(trace: seq<Happening>, j: nat, n: nat, w: Watcher) {
    && j < n <= |trace| && trace[j].Fed? && trace[j].w == w
    && forall k :: j < k < n ==> trace[k].w != w || !(trace[k].Delivered? || trace[k].Cleared?)
  }

  ghost predicate HasIs(ok: bool, x: Mask, b: Mask) {
    forall k {:trigger Unfold(k)} :: Unfold(k) ==> ok == (x & b != 0)
  }

  /** x has one of the events of b; folded until HasUnfold opens it. */
  ghost predicate Has(x: Mask, b: Mask) {
    assert HasIs(x & b != 0, x, b);
    var ok :| HasIs(ok, x, b);
    ok
  }

  lemma HasUnfold(x: Mask, b: Mask)
    ensures Has(x, b) == (x & b != 0)
  {
    assert Unfold(0);
  }

  lemma OrBits(a: Mask, c: Mask, b: Mask)
    ensures (a | c) & b != 0 <==> a & b != 0 || c & b != 0
  {
  }

  lemma HasOr(a: Mask, c: Mask, b: Mask)
    ensures Has(a | c, b) <==> Has(a, b) || Has(c, b)
  {
    OrBits(a, c, b);
    HasUnfold(a | c, b);
    HasUnfold(a, b);
    HasUnfold(c, b);
  }

  /** The same, with an event of b among those fed. */
  ghost predicate BitFed(trace: seq<Happening>, j: nat, n: nat, w: Watcher, b: Mask) {
    FedUpTo(trace, j, n, w) && Has(trace[j].events, b)
  }

  ghost predicate SomeFed(trace: seq<Happening>, n: nat, w: Watcher) {
    exists j: nat :: FedUpTo(trace, j, n, w)
  }

  ghost predicate SomeBit(trace: seq<Happening>, n: nat, w: Watcher, b: Mask) {
    exists j: nat :: BitFed(trace, j, n, w, b)
  }

  lemma SomeFedSnoc(trace: seq<Happening>, n: nat, w: Watcher)
    requires n < |trace|
    ensures SomeFed(trace, n + 1, w) <==> if trace[n].w == w then trace[n].Fed? else SomeFed(trace, n, w)
  {
    if trace[n].Fed? && trace[n].w == w {
      assert FedUpTo(trace, n, n + 1, w);
    } else if trace[n].w != w && SomeFed(trace, n, w) {
      var j: nat :| FedUpTo(trace, j, n, w);
      assert FedUpTo(trace, j, n + 1, w);
    } else if SomeFed(trace, n + 1, w) {
      var j: nat :| FedUpTo(trace, j, n + 1, w);
      assert FedUpTo(trace, j, n, w);
    }
  }

  lemma SomeBitSnoc(trace: seq<Happening>, n: nat, w: Watcher, b: Mask)
    requires n < |trace|
    ensures SomeBit(trace, n + 1, w, b) <==>
      if trace[n].w == w then trace[n].Fed? && (Has(trace[n].events, b) || SomeBit(trace, n, w, b))
      else SomeBit(trace, n, w, b)
  {
    if trace[n].Fed? && trace[n].w == w && Has(trace[n].events, b) {
      assert BitFed(trace, n, n + 1, w, b);
    }
    if (trace[n].w != w || trace[n].Fed?) && SomeBit(trace, n, w, b) {
      var j: nat :| BitFed(trace, j, n, w, b);
      assert BitFed(trace, j, n + 1, w, b);
    }
    if SomeBit(trace, n + 1, w, b) {
      var j: nat :| BitFed(trace, j, n + 1, w, b);
      assert j < n ==> BitFed(trace, j, n, w, b);
    }
  }

  ghost predicate BitIn(m: Masks, w: Watcher, b: Mask) {
    w in m && Has(m[w], b)
  }

  /** A feed adds to what its watcher has pending. */
  lemma MergeBits(m: Masks, w: Watcher, events: Mask, b: Mask)
    ensures BitIn(Merge(m, w, events), w, b) <==> Has(events, b) || BitIn(m, w, b)
  {
    if w in m {
      MergedMask(m, w, events, b);
      HasOr(m[w], events, b);
    }
  }

  lemma MergedMask(m: Masks, w: Watcher, events: Mask, b: Mask)
    requires w in m
    ensures Has(Merge(m, w, events)[w], b) <==> Has(m[w] | events, b)
  {
  }

  /** Nothing that happens to another watcher changes it. */
  lemma AfterOther(m: Masks, h: Happening, w: Watcher, b: Mask)
    requires h.w != w
    ensures (w in After(m, h) <==> w in m) && (BitIn(After(m, h), w, b) <==> BitIn(m, w, b))
  {
  }

  lemma AfterBits(m: Masks, h: Happening, w: Watcher, b: Mask)
    ensures w in After(m, h) <==> if h.w == w then h.Fed? else w in m
    ensures BitIn(After(m, h), w, b) <==>
      if h.w == w then h.Fed? && (Has(h.events, b) || BitIn(m, w, b)) else BitIn(m, w, b)
  {
    if h.w != w {
      AfterOther(m, h, w, b);
    } else if h.Fed? {
      MergeBits(m, w, h.events, b);
    }
  }

  /** The masks m are those fed up to n, as far as w and the events b go. */
  ghost predicate HoldsFed(m: Masks, trace: seq<Happening>, n: nat, w: Watcher, b: Mask) {
    (w in m <==> SomeFed(trace, n, w)) && (BitIn(m, w, b) <==> SomeBit(trace, n, w, b))
  }

  lemma {:induction false} PendingHoldsFed(trace: seq<Happening>, n: nat, w: Watcher, b: Mask)
    requires n <= |trace|
    ensures HoldsFed(Replayed(trace[..n]), trace, n, w, b)
  {
    if n > 0 {
      assert trace[..n][..n - 1] == trace[..n - 1];
      PendingHoldsFed(trace, n - 1, w, b);
      SomeFedSnoc(trace, n - 1, w);
      SomeBitSnoc(trace, n - 1, w, b);
      AfterBits(Replayed(trace[..n - 1]), trace[n - 1], w, b);
    }
  }

  /** A delivered mask has exactly the bits of the feeds since the watcher was last
    * delivered or cleared.
    */
  lemma DeliveredIsOr(trace: seq<Happening>, i: nat, b: Mask)
    requires Honest(trace) && i < |trace| && trace[i].Delivered?
    ensures trace[i].events & b != 0 <==>
      exists j: nat :: FedUpTo(trace, j, i, trace[i].w) && trace[j].events & b != 0
  {
    DeliveredHas(trace, i, b);
    HasUnfold(trace[i].events, b);
    if Has(trace[i].events, b) {
      var j := BitWitness(trace, i, trace[i].w, b);
    }
    NoBit(trace, i, trace[i].w, b);
  }

  /** Nothing is delivered that was not fed, not even an empty mask. */
  lemma DeliveredWasFed(trace: seq<Happening>, i: nat)
    requires Honest(trace) && i < |trace| && trace[i].Delivered?
    ensures exists j: nat :: FedUpTo(trace, j, i, trace[i].w)
  {
    DeliveredHas(trace, i, 0);
  }

  lemma DeliveredHas(trace: seq<Happening>, i: nat, b: Mask)
    requires Honest(trace) && i < |trace| && trace[i].Delivered?
    ensures SomeFed(trace, i, trace[i].w) && (Has(trace[i].events, b) <==> SomeBit(trace, i, trace[i].w, b))
  {
    HonestUnfold(trace);
    ReplayUnfold(trace[..i]);
    PendingHoldsFed(trace, i, trace[i].w, b);
  }

  lemma BitWitness(trace: seq<Happening>, n: nat, w: Watcher, b: Mask) returns (j: nat)
    requires SomeBit(trace, n, w, b)
    ensures FedUpTo(trace, j, n, w) && trace[j].events & b != 0
  {
    j :| BitFed(trace, j, n, w, b);
    HasUnfold(trace[j].events, b);
  }

  lemma NoBit(trace: seq<Happening>, n: nat, w: Watcher, b: Mask)
    ensures !SomeBit(trace, n, w, b) ==> forall j: nat :: FedUpTo(trace, j, n, w) ==> trace[j].events & b == 0
  {
    forall j: nat | FedUpTo(trace, j, n, w) && !BitFed(trace, j, n, w, b) ensures trace[j].events & b == 0 {
      HasUnfold(trace[j].events, b);
    }
  }

  ghost predicate Settles(h: Happening, w: Watcher) {
    h.w == w && !h.Fed?
  }

  /** w's events were delivered or cleared at or after position from. */
  ghost predicate Settled(trace: seq<Happening>, from: nat, w: Watcher) {
    exists i :: from <= i < |trace| && Settles(trace[i], w)
  }

  /** What w had pending at position from is delivered at i. */
  ghost predicate DeliveredAt(trace: seq<Happening>, from: nat, i: nat, w: Watcher) {
    from <= i < |trace| && trace[i].Delivered? && trace[i].w == w && !Settled(trace[..i], from, w)
  }

  /** If what b had pending at position from is ever delivered, a's events have been settled by then. */
  ghost predicate SettledFirst(trace: seq<Happening>, from: nat, a: Watcher, b: Watcher) {
    forall i: nat :: DeliveredAt(trace, from, i, b) ==> Settled(trace[..i], from, a)
  }

  lemma SettledSnoc(trace: seq<Happening>, h: Happening, from: nat, w: Watcher)
    requires from <= |trace|
    ensures Settled(trace + [h], from, w) <==> Settled(trace, from, w) || Settles(h, w)
  {
    var t := trace + [h];
    assert t[|trace|] == h && forall i :: 0 <= i < |trace| ==> t[i] == trace[i];
    if Settled(trace, from, w) {
      var i :| from <= i < |trace| && Settles(trace[i], w);
      assert Settles(t[i], w);
    }
  }

  lemma StaysSettled(trace: seq<Happening>, later: seq<Happening>, from: nat, w: Watcher)
    requires trace <= later && Settled(trace, from, w)
    ensures Settled(later, from, w)
  {
    var i :| from <= i < |trace| && Settles(trace[i], w);
    assert later[i] == trace[i];
  }

  lemma StaysFirst(trace: seq<Happening>, later: seq<Happening>, from: nat, a: Watcher, b: Watcher)
    requires trace <= later && SettledFirst(trace, from, a, b)
    requires forall i :: |trace| <= i < |later| ==> !later[i].Delivered?
    ensures SettledFirst(later, from, a, b)
  {
    forall i: nat | DeliveredAt(later, from, i, b) ensures Settled(later[..i], from, a) {
      assert i < |trace| && later[..i] == trace[..i];
      assert DeliveredAt(trace, from, i, b);
    }
  }

  lemma FirstSnoc(trace: seq<Happening>, h: Happening, from: nat, a: Watcher, b: Watcher)
    requires from <= |trace| && SettledFirst(trace, from, a, b)
    requires h.Delivered? && h.w == b && !Settled(trace, from, b) ==> Settled(trace, from, a)
    ensures SettledFirst(trace + [h], from, a, b)
  {
    var t := trace + [h];
    assert t[..|trace|] == trace;
    forall i: nat | DeliveredAt(t, from, i, b) ensures Settled(t[..i], from, a) {
      if i < |trace| {
        assert t[..i] == trace[..i];
        assert DeliveredAt(trace, from, i, b);
      }
    }
  }

  ghost predicate Different(ws: seq<Watcher>) {
    forall i, j :: 0 <= i < j < |ws| ==> ws[i] != ws[j]
  }

  lemma PrefixLess(ws: seq<Watcher>, front: seq<Watcher>, k: nat)
    requires k < |ws| && front == ws[..k + 1]
    ensures front[k] == ws[k] && front[..k] == ws[..k]
  {
  }

  ghost predicate GoingIs(ok: bool, p: Pendings, start: map<Watcher, nat>, from: nat, pri: int)
    reads p`trace, p`known, p.known`pending, p.known`priority
  {
    forall k {:trigger Unfold(k)} :: Unfold(k) ==>
      ok == (p.Kept(start, from) && p.InOrder(start, from) && p.DoneFrom(start, from, pri))
  }

  /** What was pending at position from keeps its place or has been settled in order, and that
    * of priority pri or more has been settled; folded until GoingUnfold opens it.
    */
  ghost predicate Going(p: Pendings, start: map<Watcher, nat>, from: nat, pri: int)
    reads p`trace, p`known, p.known`pending, p.known`priority
  {
    assert GoingIs(p.Kept(start, from) && p.InOrder(start, from) && p.DoneFrom(start, from, pri), p, start, from, pri);
    var ok :| GoingIs(ok, p, start, from, pri);
    ok
  }

  class Pendings {
    var queues: seq<seq<Entry>>
    /** The watcher whose callback does nothing. */
    const pendingW: Watcher
    var rfeeds: seq<Watcher>
    /** The watchers in use. */
    var known: set<Watcher>
    ghost var trace: seq<Happening>

    ghost function Pri(w: Watcher): int
      reads w`priority
    {
      w.priority - MINPRI
    }

    /** The entry is a tombstone or belongs to the watcher that points back at it. */
    ghost predicate EntryOk(p: nat, i: nat)
      requires p < |queues| && i < |queues[p]|
      reads this`queues, this`known, known`pending, known`priority
    {
      var w := queues[p][i].w;
      w == pendingW || (w in known && w.pending == i + 1 && Pri(w) == p)
    }

    /** The watcher is not pending, or points at its entry. */
    ghost predicate BackOk(w: Watcher)
      reads this`queues, w`pending, w`priority
    {
      && 0 <= Pri(w) < NUMPRI == |queues|
      && (w.pending > 0 ==> w.pending <= |queues[Pri(w)]| && queues[Pri(w)][w.pending - 1].w == w)
    }

    ghost predicate Linked()
      reads this`queues, this`known, known`pending, known`priority
    {
      && |queues| == NUMPRI && pendingW !in known
      && (forall p, i :: 0 <= p < NUMPRI && 0 <= i < |queues[p]| ==> EntryOk(p, i))
      && (forall w :: w in known ==> BackOk(w))
    }

    ghost function MaskOf(w: Watcher): Mask
      requires BackOk(w) && w.pending > 0
      reads this`queues, w`pending, w`priority
    {
      queues[Pri(w)][w.pending - 1].events
    }

    /** The events pending now. */
    ghost function Current(): Masks
      requires Linked()
      reads this`queues, this`known, known`pending, known`priority
    {
      map w | w in known && w.pending > 0 :: MaskOf(w)
    }

    /** The pending events are those the history says. */
    ghost predicate Valid()
      reads this`queues, this`known, this`trace, known`pending, known`priority
    {
      Linked() && Honest(trace) && Replay(trace) == Current()
    }

    constructor ()
      ensures Valid() && known == {} && trace == [] && rfeeds == [] && queues == [[], [], [], [], []] && fresh(pendingW)
    {
      var w := new Watcher(0, 0, 0);
      queues, pendingW, rfeeds, known, trace := [[], [], [], [], []], w, [], {}, [];
      HonestUnfold([]);
      ReplayUnfold([]);
    }

    /** pri_adjust: brings a watcher into use with a priority in range. */
    method PriAdjust(w: Watcher)
      requires Valid() && w != pendingW && (w.pending == 0 || w in known)
      modifies this`known, w`priority
      ensures Valid() && known == old(known) + {w} && w.priority == ClampPri(old(w.priority))
      ensures old(w in known) ==> w.priority == old(w.priority)
    {
      Adopt(w);
      assert Current() == old(Current());
    }

    method Adopt(w: Watcher)
      requires Linked() && w != pendingW && (w.pending == 0 || w in known)
      modifies this`known, w`priority
      ensures Linked() && known == old(known) + {w} && w.priority == ClampPri(old(w.priority))
      ensures old(w in known) ==> w.priority == old(w.priority)
    {
      assert w in known ==> BackOk(w);
      w.priority := ClampPri(w.priority);
      known := known + {w};
      forall x | x in known ensures BackOk(x) {
        assert x != w ==> old(BackOk(x));
      }
      forall p, j | 0 <= p < NUMPRI && 0 <= j < |queues[p]| ensures EntryOk(p, j) {
        assert old(EntryOk(p, j));
      }
    }

    method MergeEvents(w: Watcher, revents: Mask)
      requires Linked() && w in known && w.pending > 0
      modifies this`queues
      ensures Linked() && Current() == Merge(old(Current()), w, revents)
    {
      assert BackOk(w);
      SetEvents(w, queues[w.priority - MINPRI][w.pending - 1].events | revents);
    }

    method SetEvents(w: Watcher, events: Mask)
      requires Linked() && w in known && w.pending > 0
      modifies this`queues
      ensures Linked() && Current() == old(Current())[w := events]
    {
      ghost var was := Current();
      assert BackOk(w);
      var pri, i := w.priority - MINPRI, w.pending - 1;
      queues := queues[pri := queues[pri][i := Entry(w, events)]];
      forall x | x in known ensures BackOk(x) {
        assert old(BackOk(x));
      }
      forall p, j | 0 <= p < NUMPRI && 0 <= j < |queues[p]| ensures EntryOk(p, j) {
        assert old(EntryOk(p, j));
      }
      ghost var now := Current();
      forall x | x in now ensures x in was && now[x] == was[w := events][x] {
        assert BackOk(x) && old(BackOk(x));
      }
      assert now == was[w := events];
    }

    method Append(w: Watcher, revents: Mask)
      requires Linked() && w in known && w.pending == 0
      modifies this`queues, w`pending
      ensures Linked() && Current() == Merge(old(Current()), w, revents)
      ensures var p := Pri(w);
        w.pending == |queues[p]| && queues == old(queues)[p := old(queues[p]) + [Entry(w, revents)]]
    {
      PutLast(w, revents);
      ghost var was, now := old(Current()), Current();
      forall x | x in known && x.pending > 0 ensures now[x] == Merge(was, w, revents)[x] {
        assert BackOk(x);
      }
      assert now == Merge(was, w, revents);
    }

    method PutLast(w: Watcher, revents: Mask)
      requires Linked() && w in known && w.pending == 0
      modifies this`queues, w`pending
      ensures Linked() && 0 <= Pri(w) < NUMPRI
      ensures var p := Pri(w);
        w.pending == |queues[p]| && queues == old(queues)[p := old(queues[p]) + [Entry(w, revents)]]
    {
      var pri := w.priority - MINPRI;
      assert BackOk(w);
      w.pending := |queues[pri]| + 1;
      queues := queues[pri := queues[pri] + [Entry(w, revents)]];
      forall x | x in known ensures BackOk(x) {
        assert old(BackOk(x));
      }
      forall p, i | 0 <= p < NUMPRI && 0 <= i < |queues[p]| ensures EntryOk(p, i) {
        if i < |old(queues)[p]| {
          assert old(EntryOk(p, i));
        }
      }
    }

    /** A watcher in use, or one that was only initialised, with a priority in range. */
    ghost predicate Feedable(w: Watcher)
      reads this`known, w`pending, w`priority
    {
      w in known || (w != pendingW && w.pending == 0 && MINPRI <= w.priority <= MAXPRI)
    }

    /** ev_feed_event, for any watcher, started or not. */
    method FeedEvent(w: Watcher, revents: Mask)
      requires Valid() && Feedable(w)
      modifies this`known, this`queues, this`trace, w`pending, w`priority
      ensures Valid() && known == old(known) + {w} && w.priority == old(w.priority)
      ensures trace == old(trace) + [Fed(w, revents)]
      ensures old(w.pending) == 0 ==>
        var p := Pri(w);
        && 0 <= p < |old(queues)| && w.pending == |queues[p]|
        && queues == old(queues)[p := old(queues)[p] + [Entry(w, revents)]]
      ensures old(w.pending) > 0 ==> w.pending == old(w.pending)
    {
      PriAdjust(w);
      FeedKnown(w, revents);
    }

    method FeedKnown(w: Watcher, revents: Mask)
      requires Valid() && w in known
      modifies this`queues, this`trace, w`pending
      ensures Valid() && trace == old(trace) + [Fed(w, revents)]
      ensures old(w.pending) == 0 ==>
        var p := Pri(w);
        && p < |old(queues)| && w.pending == |queues[p]|
        && queues == old(queues)[p := old(queues)[p] + [Entry(w, revents)]]
      ensures old(w.pending) > 0 ==> w.pending == old(w.pending)
    {
      TraceGrows(trace, Fed(w, revents));
      if w.pending > 0 {
        MergeEvents(w, revents);
      } else {
        Append(w, revents);
      }
      Record(Fed(w, revents));
    }

    /** Takes down what has just happened to the queues. */
    ghost method Record(h: Happening)
      requires Linked() && Honest(trace + [h]) && Replay(trace + [h]) == Current()
      modifies this`trace
      ensures Valid() && trace == old(trace) + [h]
    {
      trace := trace + [h];
    }

    method Tombstone(w: Watcher) returns (events: Mask)
      requires Linked() && w in known && w.pending > 0
      modifies this`queues, w`pending
      ensures Linked() && w.pending == 0 && Current() == old(Current()) - {w} && events == old(Current())[w]
    {
      ghost var was := Current();
      assert BackOk(w);
      var pri, i := w.priority - MINPRI, w.pending - 1;
      events := queues[pri][i].events;
      queues := queues[pri := queues[pri][i := Entry(pendingW, events)]];
      w.pending := 0;
      forall x | x in known ensures BackOk(x) {
        assert old(BackOk(x));
      }
      forall p, j | 0 <= p < NUMPRI && 0 <= j < |queues[p]| ensures EntryOk(p, j) {
        assert old(EntryOk(p, j));
      }
      ghost var now := Current();
      forall x | x in now ensures x in was && now[x] == was[x] {
        assert BackOk(x) && old(BackOk(x));
      }
      assert now == was - {w};
    }

    /** ev_clear_pending; it does nothing to a watcher that was never fed. */
    method ClearPending(w: Watcher) returns (events: Mask)
      requires Valid() && (w.pending > 0 ==> w in known)
      modifies this`queues, this`trace, w`pending
      ensures Valid() && w.pending == 0 && trace == old(trace) + [Cleared(w)]
      ensures events == if old(w.pending) > 0 then Replay(old(trace))[w] else 0
      ensures old(w.pending) == 0 ==> queues == old(queues)
    {
      TraceGrows(trace, Cleared(w));
      events := 0;
      if w.pending > 0 {
        events := Tombstone(w);
      } else {
        assert Current() - {w} == Current();
      }
      Record(Cleared(w));
    }

    /** Takes the last entry off queue pri; a tombstone goes unnoticed. */
    method Pop(pri: nat) returns (e: Entry)
      requires Linked() && pri < NUMPRI && queues[pri] != []
      modifies this`queues, known`pending, pendingW`pending
      ensures Linked() && queues == old(queues)[pri := old(queues)[pri][..|old(queues)[pri]| - 1]]
      ensures e == old(queues)[pri][|old(queues)[pri]| - 1]
      ensures e.w == pendingW ==> Current() == old(Current()) && forall w :: w in known ==> w.pending == old(w.pending)
      ensures e.w != pendingW ==>
        e.w in old(Current()) && old(Current())[e.w] == e.events && Current() == old(Current()) - {e.w}
      ensures e.w != pendingW ==> e.w in known && forall w :: w in known && w != e.w ==> w.pending == old(w.pending)
    {
      ghost var was := Current();
      assert EntryOk(pri, |queues[pri]| - 1);
      e := PopEntry(pri);
      ghost var now := Current();
      forall x | x in now ensures x in was && now[x] == was[x] {
        assert BackOk(x) && old(BackOk(x));
      }
      assert e.w == pendingW ==> now == was;
      assert e.w != pendingW ==> now == was - {e.w};
    }

    method PopEntry(pri: nat) returns (e: Entry)
      requires Linked() && pri < NUMPRI && queues[pri] != []
      modifies this`queues, known`pending, pendingW`pending
      ensures Linked() && queues == old(queues)[pri := old(queues)[pri][..|old(queues)[pri]| - 1]]
      ensures e == old(queues)[pri][|old(queues)[pri]| - 1] && e.w.pending == 0
      ensures e.w in old(known) || e.w == pendingW
      ensures forall w :: w in known && w != e.w ==> w.pending == old(w.pending)
    {
      var cnt := |queues[pri]| - 1;
      e := queues[pri][cnt];
      assert EntryOk(pri, cnt);
      queues := queues[pri := queues[pri][..cnt]];
      e.w.pending := 0;
      forall x | x in known ensures BackOk(x) {
        assert old(BackOk(x));
      }
      forall p, j | 0 <= p < NUMPRI && 0 <= j < |queues[p]| ensures EntryOk(p, j) {
        assert old(EntryOk(p, j));
      }
    }

    /** One turn of the inner loop of ev_invoke_pending, up to the callback. */
    method TakeOne(pri: nat) returns (e: Entry)
      requires Valid() && pri < NUMPRI && queues[pri] != []
      modifies this`queues, this`trace, known`pending, pendingW`pending
      ensures Valid() && queues == old(queues)[pri := old(queues)[pri][..|old(queues)[pri]| - 1]]
      ensures e == old(queues)[pri][|old(queues)[pri]| - 1]
      ensures trace == old(trace) + (if e.w == pendingW then [] else [Delivered(e.w, e.events)])
      ensures forall w :: w in known && w != e.w ==> w.pending == old(w.pending)
    {
      e := Pop(pri);
      if e.w == pendingW {
        assert trace + [] == trace;
      } else {
        TraceGrows(trace, Delivered(e.w, e.events));
        Record(Delivered(e.w, e.events));
      }
    }

    /** The watchers' places in their queues, and their priorities. */
    ghost function Places(): map<Watcher, nat>
      reads this`known, known`pending
    {
      map w | w in known :: w.pending
    }

    ghost function Prios(): map<Watcher, int>
      reads this`known, known`priority
    {
      map w | w in known :: w.priority
    }

    lemma LastIsNewest(w: Watcher)
      requires Linked() && w in known && w.pending == |queues[Pri(w)]| > 0
      ensures forall x :: x in known && x != w && Pri(x) == Pri(w) ==> x.pending < w.pending
    {
      assert BackOk(w);
      forall x | x in known && x != w && Pri(x) == Pri(w) ensures x.pending < w.pending {
        assert BackOk(x);
      }
    }

    /** feed_reverse_done: the watchers collected are fed last first. */
    method FeedReverseDone(revents: Mask)
      requires Valid() && rfeeds != [] && (forall w :: w in rfeeds ==> w in known)
      modifies this`queues, this`trace, this`rfeeds, known`pending
      ensures Valid() && rfeeds == [] && trace == old(trace) + FedBack(old(rfeeds), revents)
      ensures old(AllIdle()) ==> Queued(old(queues), queues, old(rfeeds), [], revents)
      ensures old(Different(rfeeds)) ==> FedSince(old(rfeeds), Prios(), old(Places()), Places(), 0)
    {
      ghost var ws, was := rfeeds, Places();
      ghost var quiet, once := AllIdle(), Different(rfeeds);
      QueuedStart(queues, ws, revents);
      if once {
        FedStart(ws, Prios(), was);
      }
      while rfeeds != []
        invariant Valid() && |rfeeds| <= |ws| && rfeeds == ws[..|rfeeds|] && (forall w :: w in ws ==> w in known)
        invariant trace + FedBack(rfeeds, revents) == old(trace) + FedBack(ws, revents)
        invariant quiet ==> Queued(old(queues), queues, ws, rfeeds, revents)
        invariant once ==> FedSince(ws, Prios(), was, Places(), |rfeeds|)
        decreases |rfeeds|
      {
        FeedTurn(revents, ws, was, old(queues), quiet, once);
      }
      assert trace + [] == trace;
    }

    twostate lemma SamePlaces()
      requires known == old(known)
      requires forall w :: w in old(known) ==> w.pending == old(w.pending) && w.priority == old(w.priority)
      ensures Places() == old(Places()) && Prios() == old(Prios())
    {
    }

    /** One turn of the loop of feed_reverse_done, which has come from the end of ws to the
      * end of rfeeds.
      */
    method FeedTurn(revents: Mask, ghost ws: seq<Watcher>, ghost was: map<Watcher, nat>, ghost qs: seq<seq<Entry>>,
                    ghost quiet: bool, ghost once: bool)
      requires Valid() && rfeeds != [] && |rfeeds| <= |ws| && rfeeds == ws[..|rfeeds|]
      requires forall w :: w in ws ==> w in known
      requires once ==> FedSince(ws, Prios(), was, Places(), |rfeeds|)
      requires quiet ==> once && Queued(qs, queues, ws, rfeeds, revents)
      requires quiet ==> forall w :: w in ws && w in was ==> was[w] == 0
      modifies this`queues, this`trace, this`rfeeds, known`pending
      ensures Valid() && |rfeeds| == old(|rfeeds|) - 1 && rfeeds == ws[..|rfeeds|]
      ensures trace + FedBack(rfeeds, revents) == old(trace + FedBack(rfeeds, revents))
      ensures once ==> FedSince(ws, Prios(), was, Places(), |rfeeds|)
      ensures quiet ==> Queued(qs, queues, ws, rfeeds, revents)
    {
      ghost var t, feeds, queued, k := trace, rfeeds, queues, |rfeeds| - 1;
      PrefixLess(ws, feeds, k);
      if quiet {
        FedIdle(ws, Prios(), was, Places(), k);
      }
      FeedLast(revents, ws, was, k, once);
      FedBackLast(t, feeds, revents);
      if quiet {
        QueuedNext(qs, queued, ws, feeds, revents);
      }
    }

    /** Entry k of ws is the last one left. */
    method FeedLast(revents: Mask, ghost ws: seq<Watcher>, ghost was: map<Watcher, nat>, ghost k: nat, ghost once: bool)
      requires Valid() && |rfeeds| == k + 1 && k < |ws| && rfeeds[k] == ws[k] && ws[k] in known
      requires once ==> FedSince(ws, Prios(), was, Places(), k + 1)
      modifies this`queues, this`trace, this`rfeeds, known`pending
      ensures Valid() && rfeeds == old(rfeeds)[..k] && 0 <= Pri(ws[k]) < |old(queues)|
      ensures trace == old(trace) + [Fed(ws[k], revents)]
      ensures old(ws[k].pending) == 0 ==>
        queues == old(queues)[Pri(ws[k]) := old(queues)[Pri(ws[k])] + [Entry(ws[k], revents)]]
      ensures once ==> FedSince(ws, Prios(), was, Places(), k)
    {
      var w := rfeeds[|rfeeds| - 1];
      rfeeds := rfeeds[..|rfeeds| - 1];
      SamePlaces();
      ghost var pri, before := Prios(), Places();
      FeedNewest(w, revents);
      if once {
        FedNext(ws, pri, was, before, Places(), k);
      }
    }

    method FeedNewest(w: Watcher, revents: Mask)
      requires Valid() && w in known
      modifies this`queues, this`trace, w`pending
      ensures Valid() && 0 <= Pri(w) < |old(queues)| && trace == old(trace) + [Fed(w, revents)]
      ensures Prios() == old(Prios()) && Newest(w, old(Prios()), old(Places()), Places())
      ensures old(w.pending) == 0 ==> queues == old(queues)[Pri(w) := old(queues)[Pri(w)] + [Entry(w, revents)]]
    {
      assert BackOk(w);
      FeedKnown(w, revents);
      if old(w.pending) == 0 {
        LastIsNewest(w);
      }
      NewestUnfold(w, Prios(), old(Places()), Places());
    }

    /** The watchers collected are different ones and none is pending. */
    ghost predicate AllIdle()
      reads this`rfeeds, rfeeds`pending
    {
      Different(rfeeds) && forall w :: w in rfeeds ==> w.pending == 0
    }

    /** What was pending at position from has been settled since or keeps its place in start. */
    ghost predicate Kept(start: map<Watcher, nat>, from: nat)
      reads this`trace, this`known, known`pending
    {
      && from <= |trace| && start.Keys <= known
      && forall w :: w in start && start[w] > 0 ==> w.pending == start[w] || Settled(trace, from, w)
    }

    /** Both were pending and a comes first: it has the higher priority, or is the newer
      * one of the same priority.
      */
    ghost predicate Ahead(start: map<Watcher, nat>, a: Watcher, b: Watcher)
      requires a in start && b in start
      reads a`priority, b`priority
    {
      start[a] > 0 && start[b] > 0 && (Pri(a) > Pri(b) || (Pri(a) == Pri(b) && start[a] > start[b]))
    }

    /** Of what was pending at position from, whatever is ahead is settled first. */
    ghost predicate InOrder(start: map<Watcher, nat>, from: nat)
      reads this`trace, start.Keys`priority
    {
      forall a, b :: a in start && b in start && Ahead(start, a, b) ==> SettledFirst(trace, from, a, b)
    }

    /** What was pending with a priority of pri or more has been settled. */
    ghost predicate DoneFrom(start: map<Watcher, nat>, from: nat, pri: int)
      reads this`trace, start.Keys`priority
    {
      forall w :: w in start && start[w] > 0 && Pri(w) >= pri ==> Settled(trace, from, w)
    }

    lemma GoingUnfold(start: map<Watcher, nat>, from: nat, pri: int)
      ensures Going(this, start, from, pri) == (Kept(start, from) && InOrder(start, from) && DoneFrom(start, from, pri))
    {
      assert Unfold(0);
    }

    /** w is pending with priority pri, and nothing of that priority is newer. */
    ghost predicate Last(w: Watcher, pri: int)
      reads this`known, known`pending, known`priority, w`pending, w`priority
    {
      Pri(w) == pri && w.pending > 0 && forall x :: x in known && Pri(x) == pri ==> x.pending <= w.pending
    }

    /** Whatever happens to w, the order stands, if w is not delivered before its turn. */
    twostate lemma GoesOn(start: map<Watcher, nat>, new from: nat, new pri: int, new h: Happening)
      requires old(Going(this, start, from, pri)) && trace == old(trace) + [h] && old(known) <= known
      requires forall x :: x in old(known) ==> x.priority == old(x.priority)
      requires forall x :: x in old(known) && old(x.pending) > 0 ==> x.pending == old(x.pending) || Settles(h, x)
      requires h.Delivered? ==> h.w in old(known) && old(Last(h.w, pri - 1))
      ensures Going(this, start, from, pri)
    {
      assert Unfold(0);
      forall w | w in start && start[w] > 0 ensures w.pending == start[w] || Settled(trace, from, w) {
        SettledSnoc(old(trace), h, from, w);
      }
      forall w | w in start && start[w] > 0 && Pri(w) >= pri ensures Settled(trace, from, w) {
        SettledSnoc(old(trace), h, from, w);
      }
      forall a, b | a in start && b in start && Ahead(start, a, b) ensures SettledFirst(trace, from, a, b) {
        assert old(SettledFirst(trace, from, a, b));
        FirstSnoc(old(trace), h, from, a, b);
      }
    }

    /** A stretch in which nothing is delivered keeps the order, whatever is fed and cleared. */
    twostate lemma GoesOnQuietly(start: map<Watcher, nat>, new from: nat, new pri: int)
      requires old(Going(this, start, from, pri)) && old(trace) <= trace && old(known) <= known
      requires forall i :: |old(trace)| <= i < |trace| ==> !trace[i].Delivered?
      requires forall x :: x in old(known) ==> x.priority == old(x.priority)
      requires forall x :: x in old(known) && old(x.pending) > 0 ==>
        x.pending == old(x.pending) || Settled(trace, |old(trace)|, x)
      ensures Going(this, start, from, pri)
    {
      assert Unfold(0);
      forall w | w in start && Settled(old(trace), from, w) ensures Settled(trace, from, w) {
        StaysSettled(old(trace), trace, from, w);
      }
      forall w | w in start && start[w] > 0 ensures w.pending == start[w] || Settled(trace, from, w) {
        assert Settled(trace, |old(trace)|, w) ==> Settled(trace, from, w);
      }
      forall a, b | a in start && b in start && Ahead(start, a, b) ensures SettledFirst(trace, from, a, b) {
        assert old(SettledFirst(trace, from, a, b));
        StaysFirst(old(trace), trace, from, a, b);
      }
    }

    /** What has been settled from some priority on has been from a higher one on. */
    lemma GoingAbove(start: map<Watcher, nat>, from: nat, pri: int, above: int)
      requires Going(this, start, from, pri) && pri <= above
      ensures Going(this, start, from, above)
    {
      assert Unfold(0);
    }

    lemma LastIsLast(pri: nat)
      requires Valid() && pri < NUMPRI && queues[pri] != []
      ensures var w := queues[pri][|queues[pri]| - 1].w; w == pendingW || (w in known && Last(w, pri))
    {
      assert EntryOk(pri, |queues[pri]| - 1);
      forall x | x in known && Pri(x) == pri ensures x.pending <= |queues[pri]| {
        assert BackOk(x);
      }
    }

    /** TakeOne, in the run from position from on. */
    method TakeNext(pri: nat, ghost start: map<Watcher, nat>, ghost from: nat) returns (e: Entry)
      requires Valid() && pri < NUMPRI && queues[pri] != [] && Going(this, start, from, pri + 1)
      modifies this`queues, this`trace, known`pending, pendingW`pending
      ensures Valid() && Going(this, start, from, pri + 1) && old(trace) <= trace
      ensures queues == old(queues)[pri := old(queues)[pri][..|old(queues)[pri]| - 1]]
      ensures e == old(queues)[pri][|old(queues)[pri]| - 1]
      ensures trace == old(trace) + (if e.w == pendingW then [] else [Delivered(e.w, e.events)])
    {
      GoingUnfold(start, from, pri + 1);
      LastIsLast(pri);
      e := TakeOne(pri);
      if e.w != pendingW {
        GoesOn(start, from, pri + 1, Delivered(e.w, e.events));
      } else {
        assert trace == old(trace) && e.w !in known;
        GoingUnfold(start, from, pri + 1);
      }
    }

    lemma LevelDone(start: map<Watcher, nat>, from: nat, pri: nat)
      requires Valid() && pri < NUMPRI && queues[pri] == [] && Going(this, start, from, pri + 1)
      ensures Going(this, start, from, pri)
    {
      assert Unfold(0);
      forall w | w in start && start[w] > 0 && Pri(w) >= pri ensures Settled(trace, from, w) {
        assert BackOk(w);
      }
    }

    lemma GoingStart()
      requires Valid()
      ensures Going(this, Places(), |trace|, NUMPRI)
    {
      assert Unfold(0);
      forall w | w in known ensures Pri(w) < NUMPRI {
        assert BackOk(w);
      }
    }

    lemma GoingEnd(start: map<Watcher, nat>, from: nat)
      requires Valid() && Going(this, start, from, 0)
      ensures InOrder(start, from) && forall w :: w in start && start[w] > 0 ==> Settled(trace, from, w)
    {
      assert Unfold(0);
      forall w | w in start ensures Pri(w) >= 0 {
        assert w in known && BackOk(w);
      }
    }
  }

  /** Of the watchers ws, those from k on have been fed, last first: of two that were not
    * pending before and share a priority the earlier one is the newer in their queue.
    */
  ghost predicate FedInTurn(ws: seq<Watcher>, pri: map<Watcher, int>, was: map<Watcher, nat>, now: map<Watcher, nat>,
                            k: nat)
  {
    && Different(ws) && (forall w :: w in ws ==> w in pri && w in was && w in now)
    && (forall i :: 0 <= i < k <= |ws| ==> now[ws[i]] == was[ws[i]])
    && (forall i :: k <= i < |ws| ==> now[ws[i]] > 0)
    && (forall i, j :: k <= i < j < |ws| && was[ws[i]] == was[ws[j]] == 0 && pri[ws[i]] == pri[ws[j]] ==>
          now[ws[i]] > now[ws[j]])
  }

  ghost predicate FedSinceIs(ok: bool, ws: seq<Watcher>, pri: map<Watcher, int>, was: map<Watcher, nat>,
                             now: map<Watcher, nat>, k: nat)
  {
    forall u {:trigger Unfold(u)} :: Unfold(u) ==> ok == FedInTurn(ws, pri, was, now, k)
  }

  /** FedInTurn, folded until FedUnfold opens it. */
  ghost predicate FedSince(ws: seq<Watcher>, pri: map<Watcher, int>, was: map<Watcher, nat>, now: map<Watcher, nat>,
                           k: nat)
  {
    assert FedSinceIs(FedInTurn(ws, pri, was, now, k), ws, pri, was, now, k);
    var ok :| FedSinceIs(ok, ws, pri, was, now, k);
    ok
  }

  lemma FedUnfold(ws: seq<Watcher>, pri: map<Watcher, int>, was: map<Watcher, nat>, now: map<Watcher, nat>, k: nat)
    ensures FedSince(ws, pri, was, now, k) == FedInTurn(ws, pri, was, now, k)
  {
    assert Unfold(0);
  }

  lemma FedStart(ws: seq<Watcher>, pri: map<Watcher, int>, was: map<Watcher, nat>)
    requires Different(ws) && forall w :: w in ws ==> w in pri && w in was
    ensures FedSince(ws, pri, was, was, |ws|)
  {
    FedUnfold(ws, pri, was, was, |ws|);
  }

  /** Watchers still to be fed are where they were. */
  lemma FedIdle(ws: seq<Watcher>, pri: map<Watcher, int>, was: map<Watcher, nat>, now: map<Watcher, nat>, k: nat)
    requires k < |ws| && FedSince(ws, pri, was, now, k + 1)
    ensures ws[k] in was && ws[k] in now && now[ws[k]] == was[ws[k]]
  {
    FedUnfold(ws, pri, was, now, k + 1);
  }

  /** Only w changed its place, and if it was not pending it is the newest of its queue now. */
  ghost predicate PutNewest(w: Watcher, pri: map<Watcher, int>, was: map<Watcher, nat>, now: map<Watcher, nat>) {
    && was.Keys == now.Keys <= pri.Keys && w in now && now[w] > 0
    && (forall x :: x in now && x != w ==> now[x] == was[x])
    && (was[w] == 0 ==> forall x :: x in now && x != w && pri[x] == pri[w] ==> now[x] < now[w])
  }

  ghost predicate NewestIs(ok: bool, w: Watcher, pri: map<Watcher, int>, was: map<Watcher, nat>, now: map<Watcher, nat>)
  {
    forall u {:trigger Unfold(u)} :: Unfold(u) ==> ok == PutNewest(w, pri, was, now)
  }

  /** PutNewest, folded until NewestUnfold opens it. */
  ghost predicate Newest(w: Watcher, pri: map<Watcher, int>, was: map<Watcher, nat>, now: map<Watcher, nat>) {
    assert NewestIs(PutNewest(w, pri, was, now), w, pri, was, now);
    var ok :| NewestIs(ok, w, pri, was, now);
    ok
  }

  lemma NewestUnfold(w: Watcher, pri: map<Watcher, int>, was: map<Watcher, nat>, now: map<Watcher, nat>)
    ensures Newest(w, pri, was, now) == PutNewest(w, pri, was, now)
  {
    assert Unfold(0);
  }

  /** The next one fed becomes the newest of its queue. */
  lemma FedNext(ws: seq<Watcher>, pri: map<Watcher, int>, was: map<Watcher, nat>, before: map<Watcher, nat>,
                now: map<Watcher, nat>, k: nat)
    requires k < |ws| && FedSince(ws, pri, was, before, k + 1) && Newest(ws[k], pri, before, now)
    ensures FedSince(ws, pri, was, now, k)
  {
    NewestUnfold(ws[k], pri, before, now);
    FedUnfold(ws, pri, was, before, k + 1);
    FedUnfold(ws, pri, was, now, k);
    forall i | 0 <= i < |ws| && i != k ensures now[ws[i]] == before[ws[i]] {
      assert ws[i] in ws;
    }
  }

  ghost function FedBack(ws: seq<Watcher>, events: Mask): seq<Happening> {
    if ws == [] then [] else [Fed(ws[|ws| - 1], events)] + FedBack(ws[..|ws| - 1], events)
  }

  lemma FedBackLast(t: seq<Happening>, ws: seq<Watcher>, events: Mask)
    requires ws != []
    ensures t + [Fed(ws[|ws| - 1], events)] + FedBack(ws[..|ws| - 1], events) == t + FedBack(ws, events)
  {
  }

  ghost function AbsPri(w: Watcher): int
    reads w`priority
  {
    w.priority - MINPRI
  }

  /** The entries of priority p that feeding the watchers last first makes. */
  ghost function Backwards(ws: seq<Watcher>, p: nat, events: Mask): seq<Entry>
    reads ws`priority
  {
    if ws == [] then []
    else
      var w := ws[|ws| - 1];
      (if AbsPri(w) == p then [Entry(w, events)] else []) + Backwards(ws[..|ws| - 1], p, events)
  }

  ghost predicate QueuedSo(qs: seq<seq<Entry>>, now: seq<seq<Entry>>, ws: seq<Watcher>, left: seq<Watcher>,
                           events: Mask)
    reads ws`priority, left`priority
  {
    && |now| == |qs|
    && forall p :: 0 <= p < |qs| ==> now[p] + Backwards(left, p, events) == qs[p] + Backwards(ws, p, events)
  }

  ghost predicate QueuedIs(ok: bool, qs: seq<seq<Entry>>, now: seq<seq<Entry>>, ws: seq<Watcher>, left: seq<Watcher>,
                           events: Mask)
    reads ws`priority, left`priority
  {
    forall k {:trigger Unfold(k)} :: Unfold(k) ==> ok == QueuedSo(qs, now, ws, left, events)
  }

  /** Of the watchers ws, those in left are still to be queued behind qs; folded. */
  ghost predicate Queued(qs: seq<seq<Entry>>, now: seq<seq<Entry>>, ws: seq<Watcher>, left: seq<Watcher>, events: Mask)
    reads ws`priority, left`priority
  {
    assert QueuedIs(QueuedSo(qs, now, ws, left, events), qs, now, ws, left, events);
    var ok :| QueuedIs(ok, qs, now, ws, left, events);
    ok
  }

  lemma QueuedStart(qs: seq<seq<Entry>>, ws: seq<Watcher>, events: Mask)
    ensures Queued(qs, qs, ws, ws, events)
  {
    assert Unfold(0);
  }

  lemma QueuedNext(qs: seq<seq<Entry>>, now: seq<seq<Entry>>, ws: seq<Watcher>, left: seq<Watcher>, events: Mask)
    requires Queued(qs, now, ws, left, events) && left != [] && 0 <= AbsPri(left[|left| - 1]) < |now|
    ensures var w := left[|left| - 1]; var p := AbsPri(w);
      Queued(qs, now[p := now[p] + [Entry(w, events)]], ws, left[..|left| - 1], events)
  {
    assert Unfold(0);
    var w := left[|left| - 1];
    var p := AbsPri(w);
    assert now[p] + [Entry(w, events)] + Backwards(left[..|left| - 1], p, events) ==
           now[p] + Backwards(left, p, events);
  }

  lemma QueuedEnd(qs: seq<seq<Entry>>, now: seq<seq<Entry>>, ws: seq<Watcher>, events: Mask, p: nat)
    requires Queued(qs, now, ws, [], events) && p < |qs|
    ensures |now| == |qs| && now[p] == qs[p] + Backwards(ws, p, events)
  {
    assert Unfold(0);
    assert now[p] + [] == now[p];
  }

  /** The deliveries of priority p, in the order of ws. */
  ghost function Forwards(ws: seq<Watcher>, p: nat, events: Mask): seq<Happening>
    reads ws`priority
  {
    if ws == [] then []
    else
      var w := ws[|ws| - 1];
      Forwards(ws[..|ws| - 1], p, events) + (if AbsPri(w) == p then [Delivered(w, events)] else [])
  }

  /** Fed backwards and taken from the end, the watchers come out in their order,
    * before anything that was queued already.
    */
  lemma {:induction false} BackwardsForwards(q: seq<Entry>, ws: seq<Watcher>, p: nat, events: Mask, dummy: Watcher)
    requires dummy !in ws
    ensures Drained(q + Backwards(ws, p, events), dummy) == Forwards(ws, p, events) + Drained(q, dummy)
    decreases ws
  {
    if ws == [] {
      assert q + [] == q;
    } else {
      var front, w := ws[..|ws| - 1], ws[|ws| - 1];
      assert w in ws;
      if AbsPri(w) == p {
        var q' := q + [Entry(w, events)];
        assert q + ([Entry(w, events)] + Backwards(front, p, events)) == q' + Backwards(front, p, events);
        BackwardsForwards(q', front, p, events, dummy);
        assert q'[..|q|] == q;
      } else {
        assert [] + Backwards(front, p, events) == Backwards(front, p, events);
        BackwardsForwards(q, front, p, events, dummy);
      }
    }
  }

  /** What emptying a queue from its end delivers, when no callback interferes. */
  ghost function Drained(q: seq<Entry>, dummy: Watcher): seq<Happening> {
    if q == [] then []
    else
      var e := q[|q| - 1];
      (if e.w == dummy then [] else [Delivered(e.w, e.events)]) + Drained(q[..|q| - 1], dummy)
  }

  /** The queues from n up are empty and the others as they were. */
  ghost predicate Emptied(was: seq<seq<Entry>>, now: seq<seq<Entry>>, n: nat) {
    n <= |was| == |now| && now[..n] == was[..n] && forall p :: n <= p < |now| ==> now[p] == []
  }

  ghost function DrainedAll(qs: seq<seq<Entry>>, n: nat, dummy: Watcher): seq<Happening>
    requires n <= |qs|
  {
    if n == 0 then [] else Drained(qs[n - 1], dummy) + DrainedAll(qs, n - 1, dummy)
  }

  lemma DrainedLast(was: seq<Happening>, q: seq<Entry>, dummy: Watcher)
    requires q != []
    ensures var e := q[|q| - 1];
      was + (if e.w == dummy then [] else [Delivered(e.w, e.events)]) + Drained(q[..|q| - 1], dummy) ==
      was + Drained(q, dummy)
  {
  }

  /** Without interference, having emptied the queues from n up, the rest is still
    * to be delivered.
    */
  ghost predicate DrainedTo(qs: seq<seq<Entry>>, t: seq<Happening>, now: seq<seq<Entry>>, trace: seq<Happening>, n: nat,
                            dummy: Watcher)
  {
    && |qs| == NUMPRI && Emptied(qs, now, n)
    && trace + DrainedAll(qs, n, dummy) == t + DrainedAll(qs, NUMPRI, dummy)
  }

  ghost predicate DrainingIs(ok: bool, qs: seq<seq<Entry>>, t: seq<Happening>, now: seq<seq<Entry>>,
                             trace: seq<Happening>, n: nat, dummy: Watcher) {
    forall k {:trigger Unfold(k)} :: Unfold(k) ==> ok == DrainedTo(qs, t, now, trace, n, dummy)
  }

  /** DrainedTo, folded until Unfold(k) is mentioned. */
  ghost predicate Draining(qs: seq<seq<Entry>>, t: seq<Happening>, now: seq<seq<Entry>>, trace: seq<Happening>, n: nat,
                           dummy: Watcher)
  {
    assert DrainingIs(DrainedTo(qs, t, now, trace, n, dummy), qs, t, now, trace, n, dummy);
    var ok :| DrainingIs(ok, qs, t, now, trace, n, dummy);
    ok
  }

  lemma DrainingStart(qs: seq<seq<Entry>>, t: seq<Happening>, dummy: Watcher)
    requires |qs| == NUMPRI
    ensures Draining(qs, t, qs, t, NUMPRI, dummy)
  {
    assert Unfold(0);
  }

  lemma DrainingNext(qs: seq<seq<Entry>>, t: seq<Happening>, now: seq<seq<Entry>>, trace: seq<Happening>, n: nat,
                     dummy: Watcher)
    requires Draining(qs, t, now, trace, n + 1, dummy) && n < |now|
    ensures Draining(qs, t, now[n := []], trace + Drained(now[n], dummy), n, dummy)
  {
    assert Unfold(0);
    assert now[n] == now[..n + 1][n] == qs[n];
    assert now[..n] == now[..n + 1][..n] == qs[..n];
    assert trace + (Drained(qs[n], dummy) + DrainedAll(qs, n, dummy)) ==
           trace + Drained(qs[n], dummy) + DrainedAll(qs, n, dummy);
  }

  lemma DrainingEnd(qs: seq<seq<Entry>>, t: seq<Happening>, now: seq<seq<Entry>>, trace: seq<Happening>, dummy: Watcher)
    requires Draining(qs, t, now, trace, 0, dummy)
    ensures |qs| == NUMPRI && Emptied(qs, now, 0) && trace == t + DrainedAll(qs, NUMPRI, dummy)
  {
    assert Unfold(0);
    assert trace + [] == trace;
  }
}
