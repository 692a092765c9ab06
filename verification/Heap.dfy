/** The 4-ary heap of libev's timers (ev.c, EV_USE_4HEAP with cached times), as
  * facts about the sequence of its entries. Array index k holds entry k - HEAP0;
  * the indices below HEAP0 are never used.
  */
module Heap {
  import opened Watchers

  /** An entry: the cached time and the watcher. */
  datatype Anhe = Anhe(at: int, w: Watcher)

  const DHEAP: nat := 4
  const HEAP0: nat := DHEAP - 1

  /** HPARENT: C truncates the quotient, so the root is its own parent. */
  function Parent(k: nat): (p: nat)
    requires k >= HEAP0
    ensures HEAP0 <= p <= k && (p == k <==> k == HEAP0)
  {
    if k == HEAP0 then HEAP0 else (k - HEAP0 - 1) / DHEAP + HEAP0
  }

  function FirstChild(k: nat): (c: nat)
    requires k >= HEAP0
    ensures c > k
  {
    DHEAP * (k - HEAP0) + HEAP0 + 1
  }

  lemma ChildParent(k: nat, i: nat)
    requires k >= HEAP0 && i > HEAP0
    ensures Parent(i) == k <==> FirstChild(k) <= i < FirstChild(k) + 4
  {
  }

  /** The root is entry 3, so that a parent's place is close to a quarter of its child's. */
  lemma QuarterWay(k: nat)
    requires k >= 3
    ensures Parent(k) == (if k == 3 then 3 else k / 4 + 2) && FirstChild(k) == 4 * k - 8
  {
  }

  ghost predicate InHeap(h: seq<Anhe>, k: int) {
    HEAP0 <= k < |h| + HEAP0
  }

  ghost function At(h: seq<Anhe>, k: nat): int
    requires InHeap(h, k)
  {
    h[k - HEAP0].at
  }

  /** Entry i is not earlier than its parent. */
  ghost predicate Edge(h: seq<Anhe>, i: nat)
    requires InHeap(h, i)
  {
    At(h, Parent(i)) <= At(h, i)
  }

  ghost predicate Ordered(h: seq<Anhe>) {
    forall i: nat {:trigger Edge(h, i)} :: InHeap(h, i) ==> Edge(h, i)
  }

  /** Whatever is put at k, its children would be in order below k's parent. */
  ghost predicate Skips(h: seq<Anhe>, k: nat)
    requires InHeap(h, k)
  {
    k > HEAP0 ==> forall i: nat :: InHeap(h, i) && Parent(i) == k ==> At(h, Parent(k)) <= At(h, i)
  }

  /** In order, except that entry k may be later than its children. */
  ghost predicate OrderedBut(h: seq<Anhe>, k: nat)
    requires InHeap(h, k)
  {
    (forall i: nat {:trigger Edge(h, i)} :: InHeap(h, i) && (i == k || Parent(i) != k) ==> Edge(h, i)) && Skips(h, k)
  }

  /** In order, except that entry k may be earlier than its parent. */
  ghost predicate OrderedExcept(h: seq<Anhe>, k: nat)
    requires InHeap(h, k)
  {
    (forall i: nat {:trigger Edge(h, i)} :: InHeap(h, i) && i != k ==> Edge(h, i)) && Skips(h, k)
  }

  ghost function Swapped(h: seq<Anhe>, i: nat, k: nat): seq<Anhe>
    requires InHeap(h, i) && InHeap(h, k)
  {
    h[i - HEAP0 := h[k - HEAP0]][k - HEAP0 := h[i - HEAP0]]
  }

  /** The earliest child moves up into the place of a later parent. */
  lemma DownStep(h: seq<Anhe>, k: nat, m: nat)
    requires InHeap(h, k) && InHeap(h, m) && Parent(m) == k && m > HEAP0 && OrderedBut(h, k)
    requires forall i: nat :: InHeap(h, i) && Parent(i) == k && i != k ==> At(h, m) <= At(h, i)
    requires At(h, m) < At(h, k)
    ensures OrderedBut(Swapped(h, k, m), m)
  {
    var s := Swapped(h, k, m);
    forall i: nat | InHeap(s, i) && (i == m || Parent(i) != m) ensures Edge(s, i) {
      DownEdge(h, k, m, i);
    }
    forall i: nat | InHeap(s, i) && Parent(i) == m ensures At(s, Parent(m)) <= At(s, i) {
      assert i != k && i != m && Edge(h, i);
    }
  }

  lemma DownEdge(h: seq<Anhe>, k: nat, m: nat, i: nat)
    requires InHeap(h, k) && InHeap(h, m) && Parent(m) == k && m > HEAP0 && OrderedBut(h, k)
    requires forall i: nat :: InHeap(h, i) && Parent(i) == k && i != k ==> At(h, m) <= At(h, i)
    requires At(h, m) < At(h, k) && InHeap(h, i) && (i == m || Parent(i) != m)
    ensures Edge(Swapped(h, k, m), i)
  {
    var s, q := Swapped(h, k, m), Parent(i);
    if i == m {
      assert At(s, q) == At(h, m) && At(s, i) == At(h, k);
    } else if i == k {
      assert k > HEAP0 ==> At(h, q) <= At(h, m) && At(s, q) == At(h, q);
    } else if q == k {
      assert At(s, q) == At(h, m) <= At(h, i) == At(s, i);
    } else {
      assert Edge(h, i) && At(s, q) == At(h, q) && At(s, i) == At(h, i);
    }
  }

  lemma DownDone(h: seq<Anhe>, k: nat)
    requires InHeap(h, k) && OrderedBut(h, k)
    requires forall i: nat :: InHeap(h, i) && Parent(i) == k && i != k ==> At(h, k) <= At(h, i)
    ensures Ordered(h)
  {
  }

  /** A later parent moves down into the place of an earlier child. */
  lemma UpStep(h: seq<Anhe>, k: nat)
    requires InHeap(h, k) && k > HEAP0 && OrderedExcept(h, k) && At(h, Parent(k)) > At(h, k)
    ensures OrderedExcept(Swapped(h, k, Parent(k)), Parent(k))
  {
    var p := Parent(k);
    var s := Swapped(h, k, p);
    forall i: nat | InHeap(s, i) && i != p ensures Edge(s, i) {
      assert i != k ==> Edge(h, i);
    }
    forall i: nat | p > HEAP0 && InHeap(s, i) && Parent(i) == p ensures At(s, Parent(p)) <= At(s, i) {
      assert Edge(h, p);
      assert i != k ==> Edge(h, i);
    }
  }

  lemma UpDone(h: seq<Anhe>, k: nat)
    requires InHeap(h, k) && OrderedExcept(h, k) && (k == HEAP0 || At(h, Parent(k)) <= At(h, k))
    ensures Ordered(h)
  {
  }

  /** The root is the earliest. */
  lemma {:induction false} RootEarliest(h: seq<Anhe>, k: nat)
    requires Ordered(h) && InHeap(h, k)
    ensures At(h, HEAP0) <= At(h, k)
    decreases k
  {
    if k > HEAP0 {
      RootEarliest(h, Parent(k));
      assert Edge(h, k);
    }
  }

  // ---------- the watchers of a heap ----------

  ghost predicate Distinct(h: seq<Anhe>) {
    forall i, j :: 0 <= i < j < |h| ==> h[i].w != h[j].w
  }

  ghost function Ws(h: seq<Anhe>): set<Watcher> {
    set a | a in h :: a.w
  }

  lemma SwapKeeps(h: seq<Anhe>, i: nat, k: nat)
    requires InHeap(h, i) && InHeap(h, k)
    ensures multiset(Swapped(h, i, k)) == multiset(h)
    ensures Distinct(h) ==> Distinct(Swapped(h, i, k))
    ensures Ws(Swapped(h, i, k)) == Ws(h)
  {
    var a, b := i - HEAP0, k - HEAP0;
    ghost var s := h[a := h[b]][b := h[a]];
    assert Swapped(h, i, k) == s;
    SwapMultiset(h, a, b);
    SameWs(h, s);
    assert Distinct(h) ==> Distinct(s) by {
      if Distinct(h) {
        SwapDistinct(h, a, b);
      }
    }
  }

  lemma SwapDistinct(h: seq<Anhe>, i: nat, k: nat)
    requires i < |h| && k < |h| && Distinct(h)
    ensures Distinct(h[i := h[k]][k := h[i]])
  {
    var s := h[i := h[k]][k := h[i]];
    forall a, b | 0 <= a < b < |s| ensures s[a].w != s[b].w {
      var a', b' := if a == i then k else if a == k then i else a, if b == i then k else if b == k then i else b;
      assert s[a] == h[a'] && s[b] == h[b'] && a' != b';
      DistinctAt(h, a' + HEAP0, b' + HEAP0);
    }
  }

  lemma SwapMultiset(h: seq<Anhe>, i: nat, k: nat)
    requires i < |h| && k < |h|
    ensures multiset(h[i := h[k]][k := h[i]]) == multiset(h)
  {
  }

  lemma SameWs(h: seq<Anhe>, s: seq<Anhe>)
    requires multiset(s) == multiset(h)
    ensures Ws(s) == Ws(h)
  {
    forall a ensures a in s <==> a in h {
      assert a in s <==> a in multiset(s);
      assert a in h <==> a in multiset(h);
    }
  }

  // ---------- the same, folded ----------

  ghost predicate SinksIs(ok: bool, h: seq<Anhe>, k: nat) {
    forall u {:trigger Unfold(u)} :: Unfold(u) ==> ok == (InHeap(h, k) && Distinct(h) && OrderedBut(h, k))
  }

  /** A heap but for the entry at k on its way down; folded until Unfold is mentioned. */
  ghost predicate Sinks(h: seq<Anhe>, k: nat) {
    assert SinksIs(InHeap(h, k) && Distinct(h) && OrderedBut(h, k), h, k);
    var ok :| SinksIs(ok, h, k);
    ok
  }

  ghost predicate RisesIs(ok: bool, h: seq<Anhe>, k: nat, n: nat) {
    forall u {:trigger Unfold(u)} :: Unfold(u) ==> ok == RisesIn(h, k, n)
  }

  /** The first n entries are a heap but for the one at k. */
  ghost predicate RisesIn(h: seq<Anhe>, k: nat, n: nat) {
    n <= |h| && Distinct(h) && InHeap(h[..n], k) && OrderedExcept(h[..n], k)
  }

  /** The entry at k is on its way up within the first n. */
  ghost predicate Rises(h: seq<Anhe>, k: nat, n: nat) {
    assert RisesIs(RisesIn(h, k, n), h, k, n);
    var ok :| RisesIs(ok, h, k, n);
    ok
  }

  ghost predicate HeapIs(ok: bool, h: seq<Anhe>, n: nat) {
    forall u {:trigger Unfold(u)} :: Unfold(u) ==> ok == (n <= |h| && Distinct(h) && Ordered(h[..n]))
  }

  /** The first n entries are a heap. */
  ghost predicate IsHeap(h: seq<Anhe>, n: nat) {
    assert HeapIs(n <= |h| && Distinct(h) && Ordered(h[..n]), h, n);
    var ok :| HeapIs(ok, h, n);
    ok
  }

  lemma SinksUnfold(h: seq<Anhe>, k: nat)
    ensures Sinks(h, k) == (InHeap(h, k) && Distinct(h) && OrderedBut(h, k))
  {
    assert Unfold(0);
  }

  lemma RisesUnfold(h: seq<Anhe>, k: nat, n: nat)
    ensures Rises(h, k, n) == RisesIn(h, k, n)
  {
    assert Unfold(0);
  }

  lemma IsHeapUnfold(h: seq<Anhe>, n: nat)
    ensures IsHeap(h, n) == (n <= |h| && Distinct(h) && Ordered(h[..n]))
  {
    assert Unfold(0);
  }

  lemma WholeHeap(h: seq<Anhe>)
    ensures IsHeap(h, |h|) == (Distinct(h) && Ordered(h))
  {
    IsHeapUnfold(h, |h|);
    assert h[..|h|] == h;
  }

  /** m is the earliest child of k. */
  ghost predicate IsMinChild(h: seq<Anhe>, k: nat, m: nat) {
    && InHeap(h, k) && InHeap(h, m) && FirstChild(k) <= m < FirstChild(k) + DHEAP
    && forall i: nat :: InHeap(h, i) && FirstChild(k) <= i < FirstChild(k) + DHEAP ==> At(h, m) <= At(h, i)
  }

  /** What the loop of downheap does to an entry that is later than a child. */
  lemma SinkStep(h: seq<Anhe>, k: nat, m: nat)
    requires Sinks(h, k) && IsMinChild(h, k, m) && At(h, m) < At(h, k)
    ensures Sinks(Swapped(h, k, m), m) && multiset(Swapped(h, k, m)) == multiset(h) && Ws(Swapped(h, k, m)) == Ws(h)
  {
    SinksUnfold(h, k);
    SinksUnfold(Swapped(h, k, m), m);
    ChildParent(k, m);
    EarliestChild(h, k, m);
    DownStep(h, k, m);
    SwapKeeps(h, k, m);
  }

  lemma EarliestChild(h: seq<Anhe>, k: nat, m: nat)
    requires IsMinChild(h, k, m)
    ensures forall i: nat :: InHeap(h, i) && Parent(i) == k && i != k ==> At(h, m) <= At(h, i)
  {
    forall i: nat | InHeap(h, i) && Parent(i) == k && i != k ensures At(h, m) <= At(h, i) {
      ChildParent(k, i);
    }
  }

  lemma SinkDone(h: seq<Anhe>, k: nat, m: nat)
    requires Sinks(h, k) && InHeap(h, k)
    requires FirstChild(k) >= |h| + HEAP0 || (IsMinChild(h, k, m) && At(h, k) <= At(h, m))
    ensures IsHeap(h, |h|)
  {
    SinksUnfold(h, k);
    WholeHeap(h);
    if FirstChild(k) >= |h| + HEAP0 {
      forall i: nat | InHeap(h, i) && Parent(i) == k && i != k ensures false {
        ChildParent(k, i);
      }
    } else {
      EarliestChild(h, k, m);
    }
    DownDone(h, k);
  }

  lemma SwappedPrefix(h: seq<Anhe>, i: nat, k: nat, n: nat)
    requires n <= |h| && InHeap(h[..n], i) && InHeap(h[..n], k)
    ensures Swapped(h, i, k)[..n] == Swapped(h[..n], i, k) && Swapped(h, i, k)[n..] == h[n..]
  {
  }

  /** What the loop of upheap does to an entry that is earlier than its parent. */
  lemma RiseStep(h: seq<Anhe>, k: nat, n: nat)
    requires Rises(h, k, n) && InHeap(h, k) && k > HEAP0 && At(h, Parent(k)) > At(h, k)
    ensures var s := Swapped(h, k, Parent(k));
      Rises(s, Parent(k), n) && multiset(s) == multiset(h) && Ws(s) == Ws(h) && n <= |h| && s[n..] == h[n..]
  {
    var p := Parent(k);
    RisesUnfold(h, k, n);
    RisesUnfold(Swapped(h, k, p), p, n);
    UpStep(h[..n], k);
    SwapKeeps(h, k, p);
    SwappedPrefix(h, k, p, n);
  }

  lemma RiseDone(h: seq<Anhe>, k: nat, n: nat)
    requires Rises(h, k, n) && InHeap(h, k) && (k == HEAP0 || At(h, Parent(k)) <= At(h, k))
    ensures IsHeap(h, n)
  {
    RisesUnfold(h, k, n);
    IsHeapUnfold(h, n);
    UpDone(h[..n], k);
  }

  // ---------- one entry added, removed or changed ----------

  /** A new last entry need only rise. */
  lemma HeapAdd(h: seq<Anhe>, n: nat)
    requires n < |h| && IsHeap(h, n)
    ensures Rises(h, n + HEAP0, n + 1)
  {
    IsHeapUnfold(h, n);
    RisesUnfold(h, n + HEAP0, n + 1);
    var s, t := h[..n + 1], h[..n];
    forall i: nat | InHeap(s, i) && i != n + HEAP0 ensures Edge(s, i) {
      assert Edge(t, i);
    }
  }

  lemma HeapSnoc(h: seq<Anhe>, x: Anhe)
    requires IsHeap(h, |h|) && x.w !in Ws(h)
    ensures Rises(h + [x], |h| + HEAP0, |h| + 1)
    ensures multiset(h + [x]) == multiset(h) + multiset{x} && Ws(h + [x]) == Ws(h) + {x.w}
  {
    var s := h + [x];
    WholeHeap(h);
    IsHeapUnfold(s, |h|);
    assert s[..|h|] == h;
    forall i, j | 0 <= i < j < |s| ensures s[i].w != s[j].w {
      if j == |h| {
        assert s[i] in h;
      }
    }
    HeapAdd(s, |h|);
  }

  ghost predicate LooseIs(ok: bool, h: seq<Anhe>, k: nat) {
    forall u {:trigger Unfold(u)} :: Unfold(u) ==> ok == LooseBody(h, k)
  }

  ghost predicate LooseBody(h: seq<Anhe>, k: nat) {
    && InHeap(h, k) && Distinct(h) && Skips(h, k)
    && forall i: nat {:trigger Edge(h, i)} :: InHeap(h, i) && i != k && Parent(i) != k ==> Edge(h, i)
  }

  /** A heap whose entry at k may be anything. */
  ghost predicate Loose(h: seq<Anhe>, k: nat) {
    assert LooseIs(LooseBody(h, k), h, k);
    var ok :| LooseIs(ok, h, k);
    ok
  }

  lemma LooseUnfold(h: seq<Anhe>, k: nat)
    ensures Loose(h, k) == LooseBody(h, k)
  {
    assert Unfold(0);
  }

  lemma LooseAdjusts(h: seq<Anhe>, k: nat)
    requires Loose(h, k) && InHeap(h, k)
    ensures k > HEAP0 && At(h, k) <= At(h, Parent(k)) ==> Rises(h, k, |h|)
    ensures k == HEAP0 || At(h, k) >= At(h, Parent(k)) ==> Sinks(h, k)
  {
    LooseUnfold(h, k);
    RisesUnfold(h, k, |h|);
    SinksUnfold(h, k);
    assert h[..|h|] == h;
  }

  /** Any entry of a heap may be replaced, as far as the others are concerned. */
  lemma HeapReplace(h: seq<Anhe>, k: nat, x: Anhe)
    requires IsHeap(h, |h|) && InHeap(h, k) && Distinct(h[k - HEAP0 := x])
    ensures Loose(h[k - HEAP0 := x], k)
  {
    var s := h[k - HEAP0 := x];
    WholeHeap(h);
    LooseUnfold(s, k);
    forall i: nat | InHeap(s, i) && i != k && Parent(i) != k ensures Edge(s, i) {
      assert Edge(h, i);
    }
    forall i: nat | k > HEAP0 && InHeap(s, i) && Parent(i) == k ensures At(s, Parent(k)) <= At(s, i) {
      assert Edge(h, i) && Edge(h, k);
    }
  }

  lemma HeapFront(h: seq<Anhe>)
    requires h != [] && IsHeap(h, |h|)
    ensures IsHeap(h[..|h| - 1], |h| - 1)
  {
    var s := h[..|h| - 1];
    WholeHeap(h);
    WholeHeap(s);
    forall i: nat | InHeap(s, i) ensures Edge(s, i) {
      assert Edge(h, i);
    }
  }

  lemma DistinctAt(h: seq<Anhe>, i: nat, j: nat)
    requires Distinct(h) && InHeap(h, i) && InHeap(h, j) && i != j
    ensures h[i - HEAP0].w != h[j - HEAP0].w
  {
  }

  /** The heap without its last entry, which takes the place of entry k. */
  ghost function Without(h: seq<Anhe>, k: nat): seq<Anhe>
    requires InHeap(h, k)
  {
    var front := h[..|h| - 1];
    if k < |h| - 1 + HEAP0 then front[k - HEAP0 := h[|h| - 1]] else front
  }

  lemma WithoutLoose(h: seq<Anhe>, k: nat)
    requires IsHeap(h, |h|) && InHeap(h, k)
    ensures if k < |h| - 1 + HEAP0 then Loose(Without(h, k), k) else IsHeap(Without(h, k), |h| - 1)
    ensures Distinct(Without(h, k))
  {
    WholeHeap(h);
    HeapFront(h);
    WholeHeap(h[..|h| - 1]);
    if k < |h| - 1 + HEAP0 {
      HeapReplace(h[..|h| - 1], k, h[|h| - 1]);
    }
  }

  lemma WithoutKeeps(h: seq<Anhe>, k: nat)
    requires InHeap(h, k) && Distinct(h)
    ensures multiset(Without(h, k)) == multiset(h) - multiset{h[k - HEAP0]}
    ensures Ws(Without(h, k)) == Ws(h) - {h[k - HEAP0].w}
  {
    WithoutMultiset(h, k);
    OnceOnly(h, k, h[k - HEAP0]);
    WsLess(h, Without(h, k), h[k - HEAP0]);
  }

  lemma WithoutMultiset(h: seq<Anhe>, k: nat)
    requires InHeap(h, k)
    ensures multiset(Without(h, k)) == multiset(h) - multiset{h[k - HEAP0]}
  {
    var n := |h| - 1;
    assert h == h[..n] + [h[n]];
    if k < n + HEAP0 {
      assert multiset(h[..n][k - HEAP0 := h[n]]) == multiset(h[..n]) - multiset{h[k - HEAP0]} + multiset{h[n]};
    }
  }

  lemma WsLess(h: seq<Anhe>, s: seq<Anhe>, x: Anhe)
    requires Distinct(h) && x in h && multiset(h)[x] == 1 && multiset(s) == multiset(h) - multiset{x}
    ensures Ws(s) == Ws(h) - {x.w}
  {
    forall a | a in s ensures a in h && a != x {
      assert a in multiset(s) && x !in multiset(s);
      assert a in multiset(h);
    }
    forall a | a in h && a != x ensures a in s && a.w != x.w {
      assert a in multiset(h);
      assert a in multiset(s);
    }
  }

  lemma OnceOnly(h: seq<Anhe>, k: nat, a: Anhe)
    requires InHeap(h, k) && Distinct(h) && a == h[k - HEAP0]
    ensures multiset(h)[a] == 1
  {
    var i := k - HEAP0;
    assert h == h[..i] + [a] + h[i + 1..];
    assert a !in h[..i] && a !in h[i + 1..];
  }

  lemma ReplaceMultiset(h: seq<Anhe>, i: nat, x: Anhe)
    requires i < |h|
    ensures multiset(h[i := x]) == multiset(h) - multiset{h[i]} + multiset{x}
  {
  }

  lemma ReplaceKeeps(h: seq<Anhe>, k: nat, at: int)
    requires InHeap(h, k) && Distinct(h)
    ensures var x := Anhe(at, h[k - HEAP0].w); var s := h[k - HEAP0 := x];
      Distinct(s) && multiset(s) == multiset(h) - multiset{h[k - HEAP0]} + multiset{x} && Ws(s) == Ws(h)
  {
    var i, x := k - HEAP0, Anhe(at, h[k - HEAP0].w);
    var s := h[i := x];
    ReplaceMultiset(h, i, x);
    assert forall j :: 0 <= j < |h| ==> s[j].w == h[j].w;
    forall a | a in h ensures a.w in Ws(s) {
      var j :| 0 <= j < |h| && h[j] == a;
      assert s[j] in s && s[j].w == a.w;
    }
    forall a | a in s ensures a.w in Ws(h) {
      var j :| 0 <= j < |h| && s[j] == a;
      assert h[j] in h && h[j].w == a.w;
    }
  }

  // ---------- what is due ----------

  /** The watchers whose time has come. */
  ghost function Due(h: seq<Anhe>, now: int): set<Watcher> {
    set a | a in h && a.at < now :: a.w
  }

  lemma NoneDue(h: seq<Anhe>, now: int)
    requires IsHeap(h, |h|) && (h == [] || At(h, HEAP0) >= now)
    ensures Due(h, now) == {} && forall a :: a in h ==> a.at >= now
  {
    WholeHeap(h);
    forall a | a in h ensures a.at >= now {
      var i :| 0 <= i < |h| && h[i] == a;
      RootEarliest(h, i + HEAP0);
    }
  }

  lemma RootDue(h: seq<Anhe>, now: int)
    requires IsHeap(h, |h|) && h != [] && h[0].at < now
    ensures h[0].w in Due(h, now) && forall a :: a in h ==> h[0].at <= a.at
  {
    WholeHeap(h);
    assert h[0] in h;
    forall a | a in h ensures h[0].at <= a.at {
      var i :| 0 <= i < |h| && h[i] == a;
      RootEarliest(h, i + HEAP0);
    }
  }

  lemma DueLess(h: seq<Anhe>, s: seq<Anhe>, x: Anhe, now: int)
    requires Distinct(h) && x in h && multiset(h)[x] == 1 && multiset(s) == multiset(h) - multiset{x}
    ensures Due(s, now) == Due(h, now) - {x.w}
  {
    forall a ensures a in s <==> a in h && a != x {
      assert a in s <==> a in multiset(s);
      assert a in h <==> a in multiset(h);
    }
    forall a | a in h && a != x ensures a.w != x.w {
    }
  }

  lemma DueMoved(h: seq<Anhe>, s: seq<Anhe>, x: Anhe, y: Anhe, now: int)
    requires Distinct(h) && x in h && multiset(h)[x] == 1 && multiset(s) == multiset(h) - multiset{x} + multiset{y}
    requires y.at >= now
    ensures Due(s, now) == Due(h, now) - {x.w}
  {
    forall a | a in s && a != y ensures a in h && a != x {
      assert a in multiset(s);
      assert a in multiset(h);
    }
    forall a | a in h && a != x ensures a in s && a.w != x.w {
      assert a in multiset(h);
      assert a in multiset(s);
    }
  }
}
