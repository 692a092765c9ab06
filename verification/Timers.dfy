/** libev's timers (ev.c): starting, stopping and rescheduling them keeps the heap
  * valid, and timers_reify feeds exactly those that are due.
  */
module Timers {
  import opened Watchers
  import opened Heap
  import opened Pending

  /** Entries are of watchers in use and are pointed at by them, but for the one at k. */
  ghost predicate PointedBut(p: Pendings, h: seq<Anhe>, k: nat)
    reads p`known, p.known`active
  {
    Ws(h) <= p.known && forall i: nat :: InHeap(h, i) && i != k ==> InUse(p, h, i) && h[i - HEAP0].w.active == i
  }

  ghost predicate InUse(p: Pendings, h: seq<Anhe>, i: nat)
    requires InHeap(h, i)
    reads p`known
  {
    h[i - HEAP0].w in p.known
  }

  ghost predicate PointedIs(ok: bool, p: Pendings, h: seq<Anhe>, k: nat)
    reads p`known, p.known`active
  {
    forall u {:trigger Unfold(u)} :: Unfold(u) ==> ok == PointedBut(p, h, k)
  }

  /** PointedBut, folded until Unfold is mentioned. */
  ghost predicate Pointed(p: Pendings, h: seq<Anhe>, k: nat)
    reads p`known, p.known`active
  {
    assert PointedIs(PointedBut(p, h, k), p, h, k);
    var ok :| PointedIs(ok, p, h, k);
    ok
  }

  class Timers {
    /** timers[HEAP0..HEAP0 + timercnt]. */
    var heap: seq<Anhe>
    /** mn_now. */
    var now: int
    const pend: Pendings

    constructor (pend: Pendings, now: int)
      requires pend.Valid()
      ensures Valid() && heap == [] && this.pend == pend && this.now == now
    {
      heap, this.now, this.pend := [], now, pend;
      new;
      assert Unfold(0);
      WholeHeap([]);
    }

    method MinChild(k: nat) returns (m: nat)
      requires InHeap(heap, k) && InHeap(heap, FirstChild(k))
      ensures IsMinChild(heap, k, m)
    {
      var pos, end := FirstChild(k), |heap| + HEAP0;
      m := pos;
      var minat := heap[pos - HEAP0].at;
      if pos + DHEAP - 1 < end {
        if heap[pos + 1 - HEAP0].at < minat {
          m, minat := pos + 1, heap[pos + 1 - HEAP0].at;
        }
        if heap[pos + 2 - HEAP0].at < minat {
          m, minat := pos + 2, heap[pos + 2 - HEAP0].at;
        }
        if heap[pos + 3 - HEAP0].at < minat {
          m, minat := pos + 3, heap[pos + 3 - HEAP0].at;
        }
      } else {
        if pos + 1 < end && heap[pos + 1 - HEAP0].at < minat {
          m, minat := pos + 1, heap[pos + 1 - HEAP0].at;
        }
        if pos + 2 < end && heap[pos + 2 - HEAP0].at < minat {
          m, minat := pos + 2, heap[pos + 2 - HEAP0].at;
        }
        // The C code tests a fourth child here, but four children take the fast path.
        assert pos + 3 >= end;
      }
    }

    /** Moves the entry at j into the hole at k, which is then at j. */
    method MoveInto(k: nat, j: nat, ghost he: Anhe)
      requires InHeap(heap, k) && InHeap(heap, j) && j != k
      requires Distinct(heap[k - HEAP0 := he]) && Pointed(pend, heap[k - HEAP0 := he], k)
      modifies this`heap, pend.known`active
      ensures |heap| == |old(heap)| && heap[j - HEAP0 := he] == Swapped(old(heap)[k - HEAP0 := he], k, j)
      ensures Pointed(pend, heap[j - HEAP0 := he], j)
      ensures forall w :: w in pend.known && w !in Ws(old(heap)[k - HEAP0 := he]) ==> w.active == old(w.active)
    {
      assert Unfold(0);
      ghost var h := heap[k - HEAP0 := he];
      SwapKeeps(h, k, j);
      assert h[j - HEAP0] in h && h[j - HEAP0].w in Ws(h);
      heap := heap[k - HEAP0 := heap[j - HEAP0]];
      heap[k - HEAP0].w.active := k;
      ghost var s := Swapped(h, k, j);
      assert heap[j - HEAP0 := he] == s;
      forall i: nat | InHeap(s, i) && i != j ensures InUse(pend, s, i) && s[i - HEAP0].w.active == i {
        if i != k {
          assert s[i - HEAP0] == h[i - HEAP0] && old(InUse(pend, h, i));
          DistinctAt(h, i, j);
        }
      }
    }

    /** Puts he into the hole at k. */
    method Fill(k: nat, he: Anhe)
      requires InHeap(heap, k) && Distinct(heap[k - HEAP0 := he]) && Pointed(pend, heap[k - HEAP0 := he], k)
      modifies this`heap, pend.known`active
      ensures heap == old(heap)[k - HEAP0 := he] && Pointed(pend, heap, 0)
      ensures forall w :: w in pend.known && w !in Ws(heap) ==> w.active == old(w.active)
    {
      assert Unfold(0);
      heap := heap[k - HEAP0 := he];
      assert heap[k - HEAP0] == he && he in heap && he.w in Ws(heap);
      he.w.active := k;
      forall i: nat | InHeap(heap, i) ensures InUse(pend, heap, i) && heap[i - HEAP0].w.active == i {
        if i != k {
          DistinctAt(heap, i, k);
        }
      }
    }

    /** downheap: away from the root. */
    method DownHeap(k0: nat)
      requires InHeap(heap, k0) && Sinks(heap, k0) && Pointed(pend, heap, k0)
      modifies this`heap, pend.known`active
      ensures IsHeap(heap, |heap|) && Pointed(pend, heap, 0) && multiset(heap) == multiset(old(heap))
      ensures Ws(heap) == Ws(old(heap))
      ensures forall w :: w in pend.known && w !in Ws(old(heap)) ==> w.active == old(w.active)
    {
      var k := k0;
      var he := heap[k - HEAP0];
      ghost var h := heap;
      while true
        invariant InHeap(heap, k) && |h| == |heap| && h == heap[k - HEAP0 := he]
        invariant Sinks(h, k) && Pointed(pend, h, k) && multiset(h) == multiset(old(heap)) && Ws(h) == Ws(old(heap))
        invariant forall w :: w in pend.known && w !in Ws(old(heap)) ==> w.active == old(w.active)
        decreases |heap| + HEAP0 - k
      {
        if FirstChild(k) >= |heap| + HEAP0 {
          SinkDone(h, k, k);
          break;
        }
        var m := MinChild(k);
        MinOfLogical(h, heap, k, m);
        if he.at <= heap[m - HEAP0].at {
          SinkDone(h, k, m);
          break;
        }
        SinkStep(h, k, m);
        SinksUnfold(h, k);
        MoveInto(k, m, he);
        h := Swapped(h, k, m);
        k := m;
      }
      WholeHeap(h);
      Fill(k, he);
    }

    /** upheap: towards the root, within the first n entries. */
    method UpHeap(k0: nat, ghost n: nat)
      requires InHeap(heap, k0) && Rises(heap, k0, n) && Pointed(pend, heap, k0) && n <= |heap|
      modifies this`heap, pend.known`active
      ensures IsHeap(heap, n) && Pointed(pend, heap, 0) && multiset(heap) == multiset(old(heap))
      ensures Ws(heap) == Ws(old(heap))
      ensures |heap| == |old(heap)| && heap[n..] == old(heap)[n..]
      ensures forall w :: w in pend.known && w !in Ws(old(heap)) ==> w.active == old(w.active)
    {
      var k := k0;
      var he := heap[k - HEAP0];
      ghost var h := heap;
      while true
        invariant InHeap(heap, k) && |h| == |heap| == |old(heap)| && h == heap[k - HEAP0 := he]
        invariant h[n..] == old(heap)[n..]
        invariant Rises(h, k, n) && Pointed(pend, h, k) && multiset(h) == multiset(old(heap)) && Ws(h) == Ws(old(heap))
        invariant forall w :: w in pend.known && w !in Ws(old(heap)) ==> w.active == old(w.active)
        decreases k
      {
        var p := Parent(k);
        if p == k || heap[p - HEAP0].at <= he.at {
          RiseDone(h, k, n);
          break;
        }
        RiseStep(h, k, n);
        RisesUnfold(h, k, n);
        MoveInto(k, p, he);
        h := Swapped(h, k, p);
        k := p;
      }
      IsHeapUnfold(h, n);
      Fill(k, he);
    }

    method AdjustHeap(k: nat)
      requires InHeap(heap, k) && Loose(heap, k) && Pointed(pend, heap, k)
      modifies this`heap, pend.known`active
      ensures IsHeap(heap, |heap|) && Pointed(pend, heap, 0) && multiset(heap) == multiset(old(heap))
      ensures Ws(heap) == Ws(old(heap))
      ensures forall w :: w in pend.known && w !in Ws(old(heap)) ==> w.active == old(w.active)
    {
      LooseAdjusts(heap, k);
      if k > HEAP0 && heap[k - HEAP0].at <= heap[Parent(k) - HEAP0].at {
        UpHeap(k, |heap|);
      } else {
        DownHeap(k);
      }
    }

    /** reheap: turns entries in any order into a heap. */
    method ReHeap()
      requires Distinct(heap) && Pointed(pend, heap, 0)
      modifies this`heap, pend.known`active
      ensures IsHeap(heap, |heap|) && Pointed(pend, heap, 0) && multiset(heap) == multiset(old(heap))
      ensures Ws(heap) == Ws(old(heap))
    {
      IsHeapUnfold(heap, 0);
      for i := 0 to |heap|
        invariant |heap| == |old(heap)| && IsHeap(heap, i) && Pointed(pend, heap, 0)
        invariant multiset(heap) == multiset(old(heap)) && Ws(heap) == Ws(old(heap))
      {
        HeapAdd(heap, i);
        PointedButOne(heap, i + HEAP0);
        UpHeap(i + HEAP0, i + 1);
      }
    }

    /** An entry's cached time is its watcher's, and no timer repeats backwards. */
    ghost predicate CachedBut(h: seq<Anhe>, ws: set<Watcher>)
      reads set a | a in h :: a.w
    {
      forall a :: a in h && a.w !in ws ==> a.at == a.w.at && a.w.repeat >= 0
    }

    ghost predicate Valid()
      reads this, pend, pend.known
    {
      pend.Valid() && IsHeap(heap, |heap|) && Pointed(pend, heap, 0) && Ws(heap) <= pend.known && CachedBut(heap, {})
    }

    /** An active timer is one of this heap. */
    ghost predicate Mine(w: Watcher)
      reads this`heap, pend`known, w`active, w`pending
    {
      w != pend.pendingW && if w.active > 0 then w in Ws(heap) else w.pending > 0 ==> w in pend.known
    }

    lemma InactiveIsOut(w: Watcher)
      requires Pointed(pend, heap, 0)
      ensures w.active == 0 ==> w !in Ws(heap)
      ensures w in Ws(heap) ==> InHeap(heap, w.active) && heap[w.active - HEAP0].w == w
    {
      assert Unfold(0);
      if w in Ws(heap) {
        var a :| a in heap && a.w == w;
        var i :| 0 <= i < |heap| && heap[i] == a;
        assert InUse(pend, heap, i + HEAP0);
      }
    }

    /** ev_start. */
    method EvStart(w: Watcher, active: nat)
      requires Valid0() && Mine(w) && w !in Ws(heap)
      modifies pend`known, w`active, w`priority
      ensures Valid0() && pend.known == old(pend.known) + {w} && w.active == active
      ensures old(w in pend.known) ==> w.priority == old(w.priority)
    {
      assert Unfold(0);
      pend.PriAdjust(w);
      w.active := active;
      forall i: nat | InHeap(heap, i) ensures InUse(pend, heap, i) && heap[i - HEAP0].w.active == i {
        assert old(InUse(pend, heap, i)) && heap[i - HEAP0] in heap;
      }
    }

    /** Valid but for the cached times. */
    ghost predicate Valid0()
      reads this, pend, pend.known
    {
      pend.Valid() && IsHeap(heap, |heap|) && Pointed(pend, heap, 0) && Ws(heap) <= pend.known
    }

    lemma SameCached(h: seq<Anhe>, s: seq<Anhe>, ws: set<Watcher>)
      requires multiset(s) == multiset(h) && CachedBut(h, ws)
      ensures CachedBut(s, ws)
    {
      forall a | a in s ensures a in h {
        assert a in multiset(s);
      }
    }

    lemma PointedSnoc(h: seq<Anhe>, x: Anhe)
      requires Pointed(pend, h, 0) && x.w in pend.known && Ws(h + [x]) == Ws(h) + {x.w}
      ensures Pointed(pend, h + [x], |h| + HEAP0)
    {
      assert Unfold(0);
      var s := h + [x];
      forall i: nat | InHeap(s, i) && i != |h| + HEAP0 ensures InUse(pend, s, i) && s[i - HEAP0].w.active == i {
        assert InUse(pend, h, i);
      }
    }

    /** ev_timer_start. */
    method TimerStart(w: Watcher)
      requires Valid() && Mine(w) && w.repeat >= 0
      modifies this`heap, pend`known, pend.known`active, w`active, w`priority, w`at
      ensures Valid() && Mine(w) && w.active > 0 && pend.known == old(pend.known) + {w}
      ensures old(w in pend.known) ==> w.priority == old(w.priority)
      ensures old(w.active) > 0 ==> heap == old(heap) && w.at == old(w.at)
      ensures old(w.active) == 0 ==>
        w.at == old(w.at) + now && multiset(heap) == multiset(old(heap)) + multiset{Anhe(w.at, w)}
    {
      InactiveIsOut(w);
      if w.active > 0 {
        return;
      }
      w.at := w.at + now;
      EvStart(w, |heap| + 1 + HEAP0 - 1);
      Insert(w);
      InactiveIsOut(w);
    }

    /** Puts a started timer at the end of the heap and lets it rise. */
    method Insert(w: Watcher)
      requires Valid() && w in pend.known && w !in Ws(heap) && w.active == |heap| + HEAP0 && w.repeat >= 0
      modifies this`heap, pend.known`active
      ensures Valid() && multiset(heap) == multiset(old(heap)) + multiset{Anhe(w.at, w)}
      ensures Ws(heap) == Ws(old(heap)) + {w}
    {
      ghost var x := Anhe(w.at, w);
      HeapSnoc(heap, x);
      PointedSnoc(heap, x);
      ghost var h := heap + [x];
      heap := heap + [Anhe(w.at, w)];
      UpHeap(w.active, |heap|);
      SameCached(h, heap, {});
    }

    /** Takes the entry at k off the heap; its watcher keeps a stale index. */
    method Remove(k: nat)
      requires Valid0() && InHeap(heap, k)
      modifies this`heap, pend.known`active
      ensures Valid0() && multiset(heap) == multiset(old(heap)) - multiset{old(heap)[k - HEAP0]}
      ensures Ws(heap) == Ws(old(heap)) - {old(heap)[k - HEAP0].w}
      ensures forall w :: w in pend.known && w !in Ws(old(heap)) ==> w.active == old(w.active)
    {
      ghost var h := heap;
      RemovalReady(h, k);
      var timercnt := |heap| - 1;
      if k < timercnt + HEAP0 {
        heap := heap[..timercnt][k - HEAP0 := heap[timercnt]];
        assert heap == Without(h, k);
        AdjustHeap(k);
      } else {
        heap := heap[..timercnt];
        assert heap == Without(h, k);
      }
    }

    lemma RemovalReady(h: seq<Anhe>, k: nat)
      requires IsHeap(h, |h|) && Pointed(pend, h, 0) && InHeap(h, k) && Ws(h) <= pend.known
      ensures multiset(Without(h, k)) == multiset(h) - multiset{h[k - HEAP0]}
      ensures Ws(Without(h, k)) == Ws(h) - {h[k - HEAP0].w}
      ensures if k < |h| - 1 + HEAP0 then Loose(Without(h, k), k) && Pointed(pend, Without(h, k), k)
              else IsHeap(Without(h, k), |h| - 1) && Pointed(pend, Without(h, k), 0)
    {
      WholeHeap(h);
      WithoutLoose(h, k);
      WithoutKeeps(h, k);
      PointedWithout(h, k);
    }

    lemma PointedWithout(h: seq<Anhe>, k: nat)
      requires Pointed(pend, h, 0) && InHeap(h, k) && Ws(Without(h, k)) <= Ws(h) <= pend.known
      ensures Pointed(pend, Without(h, k), if k < |h| - 1 + HEAP0 then k else 0)
    {
      assert Unfold(0);
      var s := Without(h, k);
      forall i: nat | InHeap(s, i) && i != k ensures InUse(pend, s, i) && s[i - HEAP0].w.active == i {
        assert InUse(pend, h, i);
      }
    }

    lemma LessCached(h: seq<Anhe>, s: seq<Anhe>, x: Anhe)
      requires multiset(s) == multiset(h) - multiset{x} && Ws(s) == Ws(h) - {x.w} && CachedBut(h, {x.w})
      ensures CachedBut(s, {})
    {
      forall a | a in s ensures a in h && a.w != x.w {
        assert a in multiset(s) && a.w in Ws(s);
      }
    }

    /** ev_timer_stop; a timer that was never started stays as it is. */
    method TimerStop(w: Watcher)
      requires Valid() && Mine(w)
      modifies this`heap, pend`queues, pend`trace, pend.known`active, w`pending, w`at
      ensures Valid() && w.active == 0 && w.pending == 0 && w !in Ws(heap)
      ensures pend.trace == old(pend.trace) + [Cleared(w)]
      ensures old(w.active) == 0 ==> heap == old(heap) && w.at == old(w.at)
      ensures old(w.active) > 0 ==>
        w.at == old(w.at) - now && multiset(heap) == multiset(old(heap)) - multiset{Anhe(old(w.at), w)}
      ensures old(w.pending) == 0 ==> pend.queues == old(pend.queues)
    {
      InactiveIsOut(w);
      ClearPending(w);
      if w.active == 0 {
        return;
      }
      Detach(w);
      EvStop(w);
    }

    /** Takes an active timer off the heap and leaves it the time it had left. */
    method Detach(w: Watcher)
      requires Valid() && InHeap(heap, w.active) && heap[w.active - HEAP0].w == w
      modifies this`heap, pend.known`active, w`at
      ensures Valid() && w !in Ws(heap) && w.at == old(w.at) - now
      ensures multiset(heap) == multiset(old(heap)) - multiset{Anhe(old(w.at), w)}
    {
      ghost var h, x := heap, Anhe(w.at, w);
      assert heap[w.active - HEAP0] in heap && heap[w.active - HEAP0] == x;
      Remove(w.active);
      w.at := w.at - now;
      LessCached(h, heap, x);
    }

    method ClearPending(w: Watcher)
      requires Valid() && (w.pending > 0 ==> w in pend.known)
      modifies pend`queues, pend`trace, w`pending
      ensures Valid() && w.pending == 0 && pend.trace == old(pend.trace) + [Cleared(w)]
      ensures old(w.pending) == 0 ==> pend.queues == old(pend.queues)
    {
      var _ := pend.ClearPending(w);
    }

    /** ev_stop. */
    method EvStop(w: Watcher)
      requires Valid() && w in pend.known && w !in Ws(heap)
      modifies w`active
      ensures Valid() && w.active == 0
    {
      assert Unfold(0);
      w.active := 0;
      forall i: nat | InHeap(heap, i) ensures InUse(pend, heap, i) && heap[i - HEAP0].w.active == i {
        assert old(InUse(pend, heap, i)) && heap[i - HEAP0] in heap;
      }
    }

    lemma PointedRetimed(h: seq<Anhe>, k: nat, at: int)
      requires Pointed(pend, h, 0) && InHeap(h, k) && Ws(h[k - HEAP0 := Anhe(at, h[k - HEAP0].w)]) == Ws(h)
      ensures Pointed(pend, h[k - HEAP0 := Anhe(at, h[k - HEAP0].w)], 0)
    {
      assert Unfold(0);
      var s := h[k - HEAP0 := Anhe(at, h[k - HEAP0].w)];
      forall i: nat | InHeap(s, i) ensures InUse(pend, s, i) && s[i - HEAP0].w.active == i {
        assert InUse(pend, h, i);
      }
    }

    /** ANHE_at_cache: takes over the watcher's time. */
    method CacheAt(k: nat)
      requires Valid0() && InHeap(heap, k) && CachedBut(heap, {heap[k - HEAP0].w}) && heap[k - HEAP0].w.repeat >= 0
      modifies this`heap
      ensures |heap| == |old(heap)| && heap[k - HEAP0].w == old(heap)[k - HEAP0].w
      ensures heap[k - HEAP0].at == heap[k - HEAP0].w.at
      ensures heap == old(heap)[k - HEAP0 := heap[k - HEAP0]]
      ensures Loose(heap, k) && Pointed(pend, heap, 0) && CachedBut(heap, {}) && Ws(heap) == Ws(old(heap))
      ensures multiset(heap) == multiset(old(heap)) - multiset{old(heap)[k - HEAP0]} + multiset{heap[k - HEAP0]}
    {
      ghost var h, w := heap, heap[k - HEAP0].w;
      WholeHeap(h);
      ReplaceKeeps(h, k, w.at);
      HeapReplace(h, k, Anhe(w.at, w));
      PointedRetimed(h, k, w.at);
      heap := heap[k - HEAP0 := Anhe(heap[k - HEAP0].w.at, heap[k - HEAP0].w)];
      forall a | a in heap ensures a.at == a.w.at && a.w.repeat >= 0 {
        var j :| 0 <= j < |heap| && heap[j] == a;
        if j != k - HEAP0 {
          DistinctAt(h, j + HEAP0, k);
          assert h[j] in h;
        }
      }
    }

    /** ev_timer_again, for a timer that is active, stopped or never started. */
    method TimerAgain(w: Watcher)
      requires Valid() && Mine(w) && w.repeat >= 0
      modifies this`heap, pend`known, pend`queues, pend`trace, pend.known`active, w`active, w`pending, w`priority, w`at
      ensures Valid() && Mine(w) && w.pending == 0
      ensures pend.known == old(pend.known) + (if w.repeat != 0 then {w} else {})
      ensures pend.trace ==
              old(pend.trace) + [Cleared(w)] + (if old(w.active) > 0 && w.repeat == 0 then [Cleared(w)] else [])
      ensures old(w in pend.known) ==> w.priority == old(w.priority)
      ensures w.active > 0 <==> w.repeat != 0
      ensures w.repeat != 0 ==> w.at == now + w.repeat
      ensures old(w.active) > 0 && w.repeat != 0 ==>
        multiset(heap) == multiset(old(heap)) - multiset{Anhe(old(w.at), w)} + multiset{Anhe(w.at, w)}
      ensures old(w.active) > 0 && w.repeat == 0 ==>
        multiset(heap) == multiset(old(heap)) - multiset{Anhe(old(w.at), w)}
      ensures old(w.active) == 0 && w.repeat != 0 ==> multiset(heap) == multiset(old(heap)) + multiset{Anhe(w.at, w)}
      ensures old(w.active) == 0 && w.repeat == 0 ==> heap == old(heap) && w.at == old(w.at)
    {
      InactiveIsOut(w);
      ClearPending(w);
      if w.active > 0 {
        AgainActive(w);
      } else if w.repeat != 0 {
        w.at := w.repeat;
        TimerStart(w);
      }
    }

    /** An active timer is rescheduled if it repeats, else stopped. */
    method AgainActive(w: Watcher)
      requires Valid() && Mine(w) && w.active > 0 && w.repeat >= 0 && w.pending == 0
      modifies this`heap, pend`queues, pend`trace, pend.known`active, w`pending, w`at
      ensures Valid() && Mine(w) && w.pending == 0 && (w.active > 0 <==> w.repeat != 0)
      ensures pend.trace == old(pend.trace) + (if w.repeat == 0 then [Cleared(w)] else [])
      ensures w.repeat != 0 ==> w.at == now + w.repeat
      ensures w.repeat != 0 ==>
        multiset(heap) == multiset(old(heap)) - multiset{Anhe(old(w.at), w)} + multiset{Anhe(w.at, w)}
      ensures w.repeat == 0 ==> multiset(heap) == multiset(old(heap)) - multiset{Anhe(old(w.at), w)}
    {
      if w.repeat != 0 {
        Reschedule(w);
      } else {
        TimerStop(w);
      }
    }

    method Reschedule(w: Watcher)
      requires Valid() && w.active > 0 && w in Ws(heap) && w.repeat > 0
      modifies this`heap, pend.known`active, w`at
      ensures Valid() && w.active > 0 && w in Ws(heap) && w.at == now + w.repeat
      ensures multiset(heap) == multiset(old(heap)) - multiset{Anhe(old(w.at), w)} + multiset{Anhe(w.at, w)}
    {
      InactiveIsOut(w);
      ghost var g, a := heap, Anhe(w.at, w);
      assert heap[w.active - HEAP0] in heap && heap[w.active - HEAP0] == a;
      w.at := now + w.repeat;
      Retime(w.active);
      InactiveIsOut(w);
    }

    /** An entry takes over its watcher's time and finds its place. */
    method Retime(k: nat)
      requires Valid0() && InHeap(heap, k) && CachedBut(heap, {heap[k - HEAP0].w}) && heap[k - HEAP0].w.repeat >= 0
      modifies this`heap, pend.known`active
      ensures Valid() && Ws(heap) == Ws(old(heap))
      ensures
        var a := old(heap)[k - HEAP0];
        multiset(heap) == multiset(old(heap)) - multiset{a} + multiset{Anhe(a.w.at, a.w)}
    {
      CacheAt(k);
      ghost var h := heap;
      PointedButOne(heap, k);
      AdjustHeap(k);
      SameCached(h, heap, {});
    }

    /** Only w's fields changed, and its events were cleared if it was stopped. */
    twostate predicate OneReified(w: Watcher)
      reads this, pend, pend.known
    {
      && pend.known == old(pend.known) && w in pend.known
      && (forall x :: x in pend.known && x != w ==> x.at == old(x.at) && x.pending == old(x.pending))
      && w.pending == (if w.repeat == 0 then 0 else old(w.pending))
      && pend.trace == old(pend.trace) + (if w.repeat == 0 then [Cleared(w)] else [])
      && (old(w.pending) == 0 ==> pend.queues == old(pend.queues))
    }

    /** The root takes over its watcher's later time. */
    method SinkRoot(ghost w: Watcher)
      requires Valid0() && heap != [] && heap[0].w == w && w.repeat >= 0 && CachedBut(heap, {w})
      modifies this`heap, pend.known`active
      ensures Valid() && Ws(heap) == Ws(old(heap))
      ensures multiset(heap) == multiset(old(heap)) - multiset{old(heap)[0]} + multiset{Anhe(w.at, w)}
    {
      CacheAt(HEAP0);
      ghost var s := heap;
      LooseAdjusts(heap, HEAP0);
      PointedButOne(heap, HEAP0);
      DownHeap(HEAP0);
      SameCached(s, heap, {});
    }

    /** A due timer that repeats moves on, to now at the earliest. */
    method Repeat(w: Watcher)
      requires Valid() && heap != [] && heap[0].w == w && heap[0].at < now && w.repeat > 0
      modifies this`heap, pend.known`active, w`at
      ensures Valid() && OneReified(w) && Due(heap, now) == old(Due(heap, now)) - {w}
      ensures w.at == (if old(w.at) + w.repeat < now then now else old(w.at) + w.repeat) && Ws(heap) == Ws(old(heap))
    {
      ghost var h := heap;
      WholeHeap(h);
      assert heap[0] in heap && w in Ws(heap);
      w.at := w.at + w.repeat;
      if w.at < now {
        w.at := now;
      }
      SinkRoot(w);
      OnceOnly(h, HEAP0, h[0]);
      DueMoved(h, heap, h[0], Anhe(w.at, w), now);
      assert pend.trace + [] == pend.trace;
    }

    /** A due timer that does not repeat is stopped. */
    method Expire(w: Watcher)
      requires Valid() && heap != [] && heap[0].w == w && heap[0].at < now && w.repeat == 0
      modifies this`heap, pend`queues, pend`trace, pend.known`active, w`pending, w`at
      ensures Valid() && OneReified(w) && Due(heap, now) == old(Due(heap, now)) - {w}
      ensures w.active == 0 && w.at == old(w.at) - now && Ws(heap) == Ws(old(heap)) - {w}
    {
      ghost var h := heap;
      WholeHeap(h);
      assert heap[0] in heap && w in Ws(heap);
      InactiveIsOut(w);
      OnceOnly(h, HEAP0, h[0]);
      TimerStop(w);
      DueLess(h, heap, h[0], now);
      WsLess(h, heap, h[0]);
    }

    /** feed_reverse. */
    method FeedReverse(w: Watcher)
      requires Valid()
      modifies pend`rfeeds
      ensures Valid() && pend.rfeeds == old(pend.rfeeds) + [w]
    {
      pend.rfeeds := pend.rfeeds + [w];
    }

    /** One turn of the loop of timers_reify. */
    method ReifyOne() returns (w: Watcher)
      requires Valid() && heap != [] && heap[0].at < now
      modifies this`heap, pend`queues, pend`trace, pend`rfeeds, pend.known`active, pend.known`pending, pend.known`at
      ensures w in old(pend.known) && Valid() && OneReified(w) && pend.rfeeds == old(pend.rfeeds) + [w]
      ensures w in old(Due(heap, now)) && Due(heap, now) == old(Due(heap, now)) - {w}
      ensures forall x :: x in old(Due(heap, now)) ==> old(w.at) <= old(x.at)
    {
      RootDue(heap, now);
      w := heap[0].w;
      if w.repeat != 0 {
        Repeat(w);
      } else {
        Expire(w);
      }
      FeedReverse(w);
    }

    ghost function Times(): map<Watcher, int>
      reads pend`known, pend.known`at
    {
      map w | w in pend.known :: w.at
    }

    /** Nothing due was pending before. */
    ghost predicate DueIdle()
      reads this, pend, pend.known
    {
      forall w :: w in pend.known && w in Due(heap, now) ==> w.pending == 0
    }

    /** One turn, as the loop sees it. */
    method CollectOne(ghost order: seq<Watcher>, ghost due: set<Watcher>, ghost was: map<Watcher, int>,
                      ghost t: seq<Happening>)
      returns (w: Watcher)
      requires Valid() && heap != [] && heap[0].at < now && pend.rfeeds == order && pend.trace == t + Clears(order)
      requires Reified(order, due, Due(heap, now), was)
      requires forall x :: x in Due(heap, now) && x in was ==> was[x] == x.at
      modifies this`heap, pend`queues, pend`trace, pend`rfeeds, pend.known`active, pend.known`pending, pend.known`at
      ensures w in old(pend.known) && Valid() && OneReified(w) && pend.rfeeds == order + [w]
      ensures pend.trace == t + Clears(order + [w]) && w !in order
      ensures w in old(Due(heap, now)) && Due(heap, now) == old(Due(heap, now)) - {w}
      ensures Reified(order + [w], due, Due(heap, now), was)
    {
      ghost var left := Due(heap, now);
      ReifiedApart(order, due, left, was);
      w := ReifyOne();
      ReifiedSnoc(order, due, left, was, w);
      ClearsSnoc(t, order, w);
    }

    /** What the loop of timers_reify does to a watcher it takes, or does not. */
    twostate predicate Left(taken: bool, w: Watcher)
      reads w
    {
      (!taken ==> w.at == old(w.at)) && w.pending == if taken && w.repeat == 0 then 0 else old(w.pending)
    }

    /** The loop of timers_reify. */
    method CollectDue() returns (ghost order: seq<Watcher>)
      requires Valid() && pend.rfeeds == []
      modifies this`heap, pend`queues, pend`trace, pend`rfeeds, pend.known`active, pend.known`pending, pend.known`at
      ensures Valid() && pend.rfeeds == order && Reified(order, old(Due(heap, now)), {}, old(Times()))
      ensures forall a :: a in heap ==> a.at >= now
      ensures pend.trace == old(pend.trace) + Clears(order)
      ensures pend.known == old(pend.known) && forall x :: x in old(pend.known) ==> Left(x in order, x)
      ensures old(DueIdle()) ==> pend.queues == old(pend.queues)
    {
      order := [];
      assert pend.trace + [] == pend.trace;
      ghost var due, was := Due(heap, now), Times();
      DueKnown(heap, now);
      ReifiedStart(due, was);
      while heap != [] && heap[0].at < now
        invariant Valid() && pend.rfeeds == order && Due(heap, now) <= pend.known
        invariant Reified(order, due, Due(heap, now), was) && pend.trace == old(pend.trace) + Clears(order)
        invariant pend.known == old(pend.known) && forall x :: x in old(pend.known) ==> Left(x in order, x)
        invariant old(DueIdle()) ==> pend.queues == old(pend.queues)
        decreases Due(heap, now)
      {
        ReifiedApart(order, due, Due(heap, now), was);
        var w := CollectOne(order, due, was, old(pend.trace));
        forall x | x in old(pend.known) ensures Left(x in order + [w], x) {
          SnocElements(order, w, x);
        }
        order := order + [w];
      }
      NoneDue(heap, now);
    }

    /** feed_reverse_done. */
    method FeedCollected()
      requires Valid() && pend.rfeeds != [] && forall w :: w in pend.rfeeds ==> w in pend.known
      modifies pend`queues, pend`trace, pend`rfeeds, pend.known`pending
      ensures Valid() && pend.rfeeds == [] && pend.trace == old(pend.trace) + FedBack(old(pend.rfeeds), EV_TIMER)
      ensures old(pend.AllIdle()) ==> Queued(old(pend.queues), pend.queues, old(pend.rfeeds), [], EV_TIMER)
      ensures old(Different(pend.rfeeds)) ==>
        FedSince(old(pend.rfeeds), pend.Prios(), old(pend.Places()), pend.Places(), 0)
    {
      pend.FeedReverseDone(EV_TIMER);
    }

    /** timers_reify when something is due. */
    method ReifyDue() returns (ghost order: seq<Watcher>, ghost was: map<Watcher, nat>)
      requires Valid() && pend.rfeeds == [] && heap != [] && heap[0].at < now
      modifies this`heap, pend`queues, pend`trace, pend`rfeeds, pend.known`active, pend.known`pending, pend.known`at
      ensures Valid() && pend.rfeeds == [] && Reified(order, old(Due(heap, now)), {}, old(Times()))
      ensures forall a :: a in heap ==> a.at >= now
      ensures forall x :: x in pend.known && x !in order ==> x.at == old(x.at)
      ensures pend.trace == old(pend.trace) + Clears(order) + FedBack(order, EV_TIMER)
      ensures old(DueIdle()) ==> Queued(old(pend.queues), pend.queues, order, [], EV_TIMER)
      ensures pend.known == old(pend.known) && FedSince(order, pend.Prios(), was, pend.Places(), 0)
      ensures forall w :: w in order ==>
        w in was && w in old(pend.known) && was[w] == if w.repeat == 0 then 0 else old(w.pending)
    {
      DueKnown(heap, now);
      order := CollectDue();
      RootReified(order, old(heap), now, old(Times()));
      assert old(DueIdle()) ==> pend.AllIdle();
      was := pend.Places();
      FeedCollected();
    }

    /** The timers due that have nothing pending, or will have it cleared when they expire. */
    ghost function IdleDue(): set<Watcher>
      reads this, pend, pend.known
    {
      set w | w in Due(heap, now) && w in pend.known && (w.pending == 0 || w.repeat == 0)
    }

    /** timers_reify: exactly the timers that were due are fed, each once and the
      * latest first; nothing is left that is due; and when none of them was pending,
      * each queue grows by those of its priority.
      */
    method TimersReify() returns (ghost order: seq<Watcher>)
      requires Valid() && pend.rfeeds == []
      modifies this`heap, pend`queues, pend`trace, pend`rfeeds, pend.known`active, pend.known`pending, pend.known`at
      ensures Valid() && pend.rfeeds == [] && Reified(order, old(Due(heap, now)), {}, old(Times()))
      ensures forall a :: a in heap ==> a.at >= now
      ensures forall x :: x in pend.known && x !in order ==> x.at == old(x.at)
      ensures pend.trace == old(pend.trace) + Clears(order) + FedBack(order, EV_TIMER)
      ensures pend.known == old(pend.known) && forall w :: w in old(Due(heap, now)) ==> w in pend.known && w.pending > 0
      ensures NewestEarliest(old(IdleDue()), old(Times()), pend.Prios(), pend.Places())
      ensures old(DueIdle()) ==> Queued(old(pend.queues), pend.queues, order, [], EV_TIMER)
    {
      if heap != [] && heap[0].at < now {
        ghost var due, at := Due(heap, now), Times();
        ghost var was;
        order, was := ReifyDue();
        DuePending(order, due, at, pend.Prios(), was, pend.Places());
        IdleNewest(order, due, at, old(IdleDue()), pend.Prios(), was, pend.Places());
      } else {
        order := [];
        NoneDue(heap, now);
        ReifiedStart({}, Times());
        QueuedStart(pend.queues, [], EV_TIMER);
        assert pend.trace + [] + [] == pend.trace;
      }
    }

    /** Watchers have only come into use, and the history has only grown. */
    twostate predicate Onward()
      reads pend`known, pend`trace, pend.known`priority
    {
      && old(pend.known) <= pend.known && fresh(pend.known - old(pend.known)) && old(pend.trace) <= pend.trace
      && forall w :: w in old(pend.known) ==> w.priority == old(w.priority)
    }

    /** Watchers that come into use do not disturb the heap. */
    twostate lemma StillPointed()
      requires old(Pointed(pend, heap, 0)) && heap == old(heap) && old(pend.known) <= pend.known
      requires forall w :: w in old(pend.known) ==> w.active == old(w.active)
      ensures Pointed(pend, heap, 0)
    {
      assert Unfold(0);
      forall i: nat | InHeap(heap, i) ensures InUse(pend, heap, i) && heap[i - HEAP0].w.active == i {
        assert old(InUse(pend, heap, i));
      }
    }

    lemma IdleInOrder(idle: set<Watcher>, at: map<Watcher, int>, pri: map<Watcher, int>, places: map<Watcher, nat>,
                      from: nat)
      requires NewestEarliest(idle, at, pri, places) && pend.InOrder(places, from)
      requires forall w :: w in idle ==> w in at && w in places && places[w] > 0 && w in pri && pri[w] == w.priority
      ensures forall a, b :: a in idle && b in idle && at[a] < at[b] && a.priority == b.priority ==>
        SettledFirst(pend.trace, from, a, b)
    {
      forall a, b | a in idle && b in idle && at[a] < at[b] && a.priority == b.priority
        ensures SettledFirst(pend.trace, from, a, b)
      {
        assert pend.Ahead(places, a, b);
      }
    }

    lemma DueKnown(h: seq<Anhe>, now: int)
      requires Ws(h) <= pend.known
      ensures Due(h, now) <= pend.known
    {
      forall a | a in h ensures a.w in pend.known {
        assert a.w in Ws(h);
      }
    }

    lemma PointedButOne(h: seq<Anhe>, k: nat)
      requires Pointed(pend, h, 0)
      ensures Pointed(pend, h, k)
    {
      assert Unfold(0);
    }
  }

  ghost function Elems(ws: seq<Watcher>): set<Watcher> {
    set w | w in ws
  }

  /** Of the timers due, those in order have been reified, each once and earliest
    * first, and those left are no earlier.
    */
  ghost predicate EachOnceInOrder(order: seq<Watcher>, due: set<Watcher>, left: set<Watcher>, at: map<Watcher, int>) {
    && (forall i, j :: 0 <= i < j < |order| ==> order[i] != order[j])
    && Elems(order) + left == due && Elems(order) !! left && due <= at.Keys
    && (forall i, j :: 0 <= i < j < |order| && order[i] in at && order[j] in at ==> at[order[i]] <= at[order[j]])
    && (forall w, x :: w in order && x in left && w in at && x in at ==> at[w] <= at[x])
  }

  ghost predicate ReifiedIs(ok: bool, order: seq<Watcher>, due: set<Watcher>, left: set<Watcher>, at: map<Watcher, int>)
  {
    forall u {:trigger Unfold(u)} :: Unfold(u) ==> ok == EachOnceInOrder(order, due, left, at)
  }

  /** EachOnceInOrder, folded until Unfold is mentioned. */
  ghost predicate Reified(order: seq<Watcher>, due: set<Watcher>, left: set<Watcher>, at: map<Watcher, int>) {
    assert ReifiedIs(EachOnceInOrder(order, due, left, at), order, due, left, at);
    var ok :| ReifiedIs(ok, order, due, left, at);
    ok
  }

  lemma ReifiedUnfold(order: seq<Watcher>, due: set<Watcher>, left: set<Watcher>, at: map<Watcher, int>)
    ensures Reified(order, due, left, at) == EachOnceInOrder(order, due, left, at)
  {
    assert Unfold(0);
  }

  lemma ReifiedStart(due: set<Watcher>, at: map<Watcher, int>)
    requires due <= at.Keys
    ensures Reified([], due, due, at)
  {
    ReifiedUnfold([], due, due, at);
    assert Elems([]) == {};
  }

  lemma ReifiedSnoc(order: seq<Watcher>, due: set<Watcher>, left: set<Watcher>, at: map<Watcher, int>, w: Watcher)
    requires Reified(order, due, left, at) && w in left
    requires forall x :: x in left && w in at && x in at ==> at[w] <= at[x]
    ensures Reified(order + [w], due, left - {w}, at)
  {
    ReifiedUnfold(order, due, left, at);
    ReifiedUnfold(order + [w], due, left - {w}, at);
    assert Elems(order + [w]) == Elems(order) + {w};
  }

  lemma RootReified(order: seq<Watcher>, h: seq<Anhe>, now: int, at: map<Watcher, int>)
    requires Reified(order, Due(h, now), {}, at) && h != [] && h[0].at < now
    ensures order != [] && forall w :: w in order ==> w in Due(h, now)
    ensures forall i, j :: 0 <= i < j < |order| ==> order[i] != order[j]
  {
    ReifiedUnfold(order, Due(h, now), {}, at);
    assert h[0] in h && h[0].w in Due(h, now);
    forall w | w in order ensures w in Due(h, now) {
      assert w in Elems(order);
    }
    assert Elems(order) == Due(h, now);
  }

  /** Invoking timers that were not pending yet delivers those of one priority
    * earliest first, before what was queued already.
    */
  lemma TimersInOrder(order: seq<Watcher>, due: set<Watcher>, at: map<Watcher, int>, qs: seq<seq<Entry>>,
                      now: seq<seq<Entry>>, p: nat, dummy: Watcher)
    requires Reified(order, due, {}, at) && Queued(qs, now, order, [], EV_TIMER) && p < |qs| && dummy !in due
    ensures |now| == |qs| && Drained(now[p], dummy) == Forwards(order, p, EV_TIMER) + Drained(qs[p], dummy)
    ensures forall i, j :: 0 <= i < j < |Forwards(order, p, EV_TIMER)| ==>
      var a, b := Forwards(order, p, EV_TIMER)[i].w, Forwards(order, p, EV_TIMER)[j].w;
      a in at && b in at && at[a] <= at[b]
  {
    ReifiedUnfold(order, due, {}, at);
    forall w | w in order ensures w in due {
      assert w in Elems(order);
    }
    QueuedEnd(qs, now, order, EV_TIMER, p);
    BackwardsForwards(qs[p], order, p, EV_TIMER, dummy);
    ForwardsAscend(order, p, at);
  }

  /** For the priorities below n, highest first: the timers in order and then the queue. */
  ghost function TimersThenRest(order: seq<Watcher>, qs: seq<seq<Entry>>, n: nat, dummy: Watcher): seq<Happening>
    requires n <= |qs|
    reads order`priority
  {
    if n == 0 then []
    else Forwards(order, n - 1, EV_TIMER) + Drained(qs[n - 1], dummy) + TimersThenRest(order, qs, n - 1, dummy)
  }

  lemma {:induction false} DrainedTimers(order: seq<Watcher>, due: set<Watcher>, at: map<Watcher, int>,
                                         qs: seq<seq<Entry>>, now: seq<seq<Entry>>, n: nat, dummy: Watcher)
    requires Reified(order, due, {}, at) && Queued(qs, now, order, [], EV_TIMER) && n <= |qs| == |now| && dummy !in due
    ensures DrainedAll(now, n, dummy) == TimersThenRest(order, qs, n, dummy)
  {
    if n > 0 {
      TimersInOrder(order, due, at, qs, now, n - 1, dummy);
      DrainedTimers(order, due, at, qs, now, n - 1, dummy);
    }
  }

  /** Of two idle timers of one priority the earlier one is now the newer in the queue. */
  ghost predicate NewestEarliest(idle: set<Watcher>, at: map<Watcher, int>, pri: map<Watcher, int>,
                                 now: map<Watcher, nat>)
  {
    forall a, b :: a in idle && b in idle && a in at && b in at && a in pri && b in pri && a in now && b in now ==>
      at[a] < at[b] && pri[a] == pri[b] ==> now[a] > now[b]
  }

  lemma IdleNewest(order: seq<Watcher>, due: set<Watcher>, at: map<Watcher, int>, idle: set<Watcher>,
                   pri: map<Watcher, int>, was: map<Watcher, nat>, now: map<Watcher, nat>)
    requires Reified(order, due, {}, at) && FedSince(order, pri, was, now, 0)
    requires idle <= due && forall w :: w in idle ==> w in was && was[w] == 0
    ensures NewestEarliest(idle, at, pri, now)
  {
    ReifiedUnfold(order, due, {}, at);
    FedUnfold(order, pri, was, now, 0);
    forall a, b | a in idle && b in idle && a in at && b in at && a in pri && b in pri && a in now && b in now
      && at[a] < at[b] && pri[a] == pri[b]
      ensures now[a] > now[b]
    {
      assert a in Elems(order) && b in Elems(order);
      var i :| 0 <= i < |order| && order[i] == a;
      var j :| 0 <= j < |order| && order[j] == b;
      assert i < j;
    }
  }

  /** Every timer that was due is pending after it was fed. */
  lemma DuePending(order: seq<Watcher>, due: set<Watcher>, at: map<Watcher, int>, pri: map<Watcher, int>,
                   was: map<Watcher, nat>, now: map<Watcher, nat>)
    requires Reified(order, due, {}, at) && FedSince(order, pri, was, now, 0)
    ensures forall w :: w in due ==> w in order && w in pri && w in was && w in now && now[w] > 0
  {
    ReifiedUnfold(order, due, {}, at);
    FedUnfold(order, pri, was, now, 0);
    forall w | w in due ensures w in order {
      assert w in Elems(order);
    }
  }

  ghost predicate Ascend(ws: seq<Watcher>, at: map<Watcher, int>) {
    && (forall w :: w in ws ==> w in at)
    && (forall i, j :: 0 <= i < j < |ws| ==> at[ws[i]] <= at[ws[j]])
  }

  lemma {:induction false} ForwardsAscend(ws: seq<Watcher>, p: nat, at: map<Watcher, int>)
    requires Ascend(ws, at)
    ensures forall h :: h in Forwards(ws, p, EV_TIMER) ==> h.w in ws
    ensures forall i, j :: 0 <= i < j < |Forwards(ws, p, EV_TIMER)| ==>
      at[Forwards(ws, p, EV_TIMER)[i].w] <= at[Forwards(ws, p, EV_TIMER)[j].w]
  {
    if ws != [] {
      var front, w := ws[..|ws| - 1], ws[|ws| - 1];
      var f, g := Forwards(front, p, EV_TIMER), Forwards(ws, p, EV_TIMER);
      ForwardsAscend(front, p, at);
      forall i, j | 0 <= i < j < |g| ensures at[g[i].w] <= at[g[j].w] {
        assert f[i] in f && f[i].w in front;
        var k :| 0 <= k < |front| && front[k] == f[i].w;
        assert ws[k] == front[k];
      }
    }
  }

  lemma ReifiedApart(order: seq<Watcher>, due: set<Watcher>, left: set<Watcher>, at: map<Watcher, int>)
    requires Reified(order, due, left, at)
    ensures forall w :: w in left ==> w !in order
  {
    ReifiedUnfold(order, due, left, at);
    assert forall w :: w in order ==> w in Elems(order);
  }

  lemma SnocElements(ws: seq<Watcher>, w: Watcher, x: Watcher)
    ensures x in ws + [w] <==> x in ws || x == w
  {
  }

  /** Stopping a timer clears its events. */
  ghost function Clears(ws: seq<Watcher>): seq<Happening>
    reads ws`repeat
  {
    if ws == [] then []
    else
      var w := ws[|ws| - 1];
      Clears(ws[..|ws| - 1]) + (if w.repeat == 0 then [Cleared(w)] else [])
  }

  lemma ClearsSnoc(t: seq<Happening>, ws: seq<Watcher>, w: Watcher)
    ensures t + Clears(ws) + (if w.repeat == 0 then [Cleared(w)] else []) == t + Clears(ws + [w])
  {
    assert (ws + [w])[..|ws|] == ws;
  }

  lemma MinOfLogical(h: seq<Anhe>, heap: seq<Anhe>, k: nat, m: nat)
    requires |h| == |heap| && InHeap(h, k) && h == heap[k - HEAP0 := h[k - HEAP0]] && IsMinChild(heap, k, m)
    ensures IsMinChild(h, k, m) && h[m - HEAP0] == heap[m - HEAP0]
  {
    forall i: nat | InHeap(h, i) && FirstChild(k) <= i < FirstChild(k) + DHEAP ensures At(h, m) <= At(h, i) {
      assert At(heap, i) == At(h, i);
    }
  }
}
