/** Compiling two maps into the actions that turn one into the other (proto.js,
  * morph): for every order in which keys are visited the actions follow a good
  * plan, so that patch ends in B.
  */
module TreeMorph {
  import opened TreeSync

  /** Array.prototype.filter. */
  function Filter<T>(a: seq<T>, keep: T -> bool): seq<T> {
    if a == [] then []
    else
      var r := Filter(a[..|a| - 1], keep);
      if keep(a[|a| - 1]) then r + [a[|a| - 1]] else r
  }

  lemma {:induction false} FilterMembers<T>(a: seq<T>, keep: T -> bool)
    ensures forall x :: x in Filter(a, keep) <==> x in a && keep(x)
  {
    if a != [] {
      FilterMembers(a[..|a| - 1], keep);
      assert a == a[..|a| - 1] + [a[|a| - 1]];
    }
  }

  lemma {:induction false} FilterDistinct<T>(a: seq<T>, keep: T -> bool)
    requires Distinct(a)
    ensures Distinct(Filter(a, keep))
  {
    if a != [] {
      FilterMembers(a[..|a| - 1], keep);
      FilterDistinct(a[..|a| - 1], keep);
    }
  }

  lemma {:induction false} FilterConcat<T>(a: seq<T>, c: seq<T>, keep: T -> bool)
    ensures Filter(a + c, keep) == Filter(a, keep) + Filter(c, keep)
  {
    if c == [] {
      assert a + c == a;
    } else {
      var front, x := c[..|c| - 1], c[|c| - 1];
      assert c == front + [x] && a + c == (a + front) + [x];
      FilterConcat(a, front, keep);
      FilterSnoc(a + front, x, keep);
    }
  }

  lemma FilterSnoc<T>(a: seq<T>, x: T, keep: T -> bool)
    ensures Filter(a + [x], keep) == if keep(x) then Filter(a, keep) + [x] else Filter(a, keep)
  {
    assert (a + [x])[..|a|] == a;
  }

  function Lacks<T(==)>(b: seq<T>): T -> bool {
    x => x !in b
  }

  function Has<T(==)>(b: seq<T>): T -> bool {
    x => x in b
  }

  function ArrayDiff<T(==, !new)>(a: seq<T>, b: seq<T>): (r: seq<T>)
    ensures forall x :: x in r <==> x in a && x !in b
    ensures Distinct(a) ==> Distinct(r)
  {
    FilterMembers(a, Lacks(b));
    assert Distinct(a) ==> Distinct(Filter(a, Lacks(b))) by {
      if Distinct(a) { FilterDistinct(a, Lacks(b)); }
    }
    Filter(a, Lacks(b))
  }

  function ArrayCommon<T(==, !new)>(a: seq<T>, b: seq<T>): (r: seq<T>)
    ensures forall x :: x in r <==> x in a && x in b
    ensures Distinct(a) ==> Distinct(r)
  {
    FilterMembers(a, Has(b));
    assert Distinct(a) ==> Distinct(Filter(a, Has(b))) by {
      if Distinct(a) { FilterDistinct(a, Has(b)); }
    }
    Filter(a, Has(b))
  }

  /** Both filters take a list piece by piece, so they keep its order and repetitions. */
  lemma DiffConcat<T(!new)>(a: seq<T>, c: seq<T>, b: seq<T>)
    ensures ArrayDiff(a + c, b) == ArrayDiff(a, b) + ArrayDiff(c, b)
  {
    FilterConcat(a, c, Lacks(b));
  }

  lemma CommonConcat<T(!new)>(a: seq<T>, c: seq<T>, b: seq<T>)
    ensures ArrayCommon(a + c, b) == ArrayCommon(a, b) + ArrayCommon(c, b)
  {
    FilterConcat(a, c, Has(b));
  }

  ghost predicate Links(A: Tree, c: Content, links: seq<Key>) {
    forall a :: a in links <==> a in A && A[a] == c
  }

  /** The keys of A that hold content c, in any order. */
  method ContentLinks(A: Tree, c: Content) returns (links: seq<Key>)
    ensures Links(A, c, links)
  {
    links := [];
    var todo := A.Keys;
    while todo != {}
      invariant todo <= A.Keys
      invariant forall a :: a in links <==> a in A && a !in todo && A[a] == c
    {
      var a :| a in todo;
      todo := todo - {a};
      if A[a] == c {
        links := links + [a];
      }
    }
  }

  // ---------- first loop: what becomes of each key of B ----------

  datatype Survey = Survey(
    links: map<Key, seq<Key>>, protect: seq<Key>, copyMove: set<Key>, overwrites: seq<Key>,
    rsync: map<Key, (Content, Content)>, patch: seq<Action>)

  ghost predicate LinksSurveyed(A: Tree, B: Tree, done: set<Key>, s: Survey) {
    done <= B.Keys && s.links.Keys == done && forall k :: k in done ==> Links(A, B[k], s.links[k])
  }

  ghost predicate DestsSurveyed(A: Tree, B: Tree, done: set<Key>, s: Survey) {
    && (forall k :: k in s.protect <==> k in done && (Kept(A, B, k) || IsRsync(A, B, k)))
    && (forall k :: k in s.copyMove <==> k in done && IsDest(A, B, k))
    && Distinct(s.overwrites) && (forall k :: k in s.overwrites <==> k in done && k in A && IsDest(A, B, k))
  }

  ghost predicate SentSurveyed(A: Tree, B: Tree, done: set<Key>, s: Survey, create: seq<Key>) {
    && (forall k :: k in s.rsync <==> k in done && IsRsync(A, B, k))
    && (forall k :: k in s.rsync ==> s.rsync[k] == (A[k], B[k]))
    && Distinct(create) && (forall k :: k in create <==> k in done && IsFresh(A, B, k))
    && Given(B, create) && s.patch == Creates(B, create)
  }

  ghost predicate Surveyed(A: Tree, B: Tree, done: set<Key>, s: Survey, create: seq<Key>) {
    LinksSurveyed(A, B, done, s) && DestsSurveyed(A, B, done, s) && SentSurveyed(A, B, done, s, create)
  }

  lemma FoundByLinks(A: Tree, c: Content, links: seq<Key>)
    requires Links(A, c, links)
    ensures Found(A, c) <==> |links| > 0
  {
    if |links| > 0 {
      assert links[0] in links;
    }
  }

  /** Each key of B falls into exactly one class. */
  lemma Classes(A: Tree, B: Tree, k: Key)
    requires k in B
    ensures Kept(A, B, k) ==> Found(A, B[k])
    ensures Kept(A, B, k) <==> !(IsDest(A, B, k) || IsRsync(A, B, k) || IsFresh(A, B, k))
    ensures IsDest(A, B, k) ==> !IsRsync(A, B, k) && !IsFresh(A, B, k)
  {
  }

  lemma DestsStep(A: Tree, B: Tree, k: Key, done: set<Key>, s: Survey, s': Survey)
    requires DestsSurveyed(A, B, done, s) && k in B && k !in done
    requires s'.protect == if Kept(A, B, k) || IsRsync(A, B, k) then s.protect + [k] else s.protect
    requires s'.copyMove == if IsDest(A, B, k) then s.copyMove + {k} else s.copyMove
    requires s'.overwrites == if k in A && IsDest(A, B, k) then s.overwrites + [k] else s.overwrites
    ensures DestsSurveyed(A, B, done + {k}, s')
  {
  }

  lemma SentStep(A: Tree, B: Tree, k: Key, done: set<Key>, s: Survey, s': Survey, create: seq<Key>, create': seq<Key>)
    requires SentSurveyed(A, B, done, s, create) && k in B && k !in done
    requires s'.rsync == if IsRsync(A, B, k) then s.rsync[k := (A[k], B[k])] else s.rsync
    requires create' == if IsFresh(A, B, k) then create + [k] else create
    requires s'.patch == if IsFresh(A, B, k) then s.patch + [Create(k, B[k])] else s.patch
    ensures SentSurveyed(A, B, done + {k}, s', create')
  {
    if IsFresh(A, B, k) {
      assert create'[..|create|] == create;
    }
  }

  method SurveyKey(A: Tree, B: Tree, k: Key, s: Survey, ghost done: set<Key>, ghost create: seq<Key>)
    returns (s': Survey, ghost create': seq<Key>)
    requires Surveyed(A, B, done, s, create) && k in B && k !in done
    ensures Surveyed(A, B, done + {k}, s', create')
  {
    create' := create;
    var links := ContentLinks(A, B[k]);
    FoundByLinks(A, B[k], links);
    Classes(A, B, k);
    s' := s.(links := s.links[k := links]);
    assert LinksSurveyed(A, B, done + {k}, s');
    if k in A {
      if A[k] == B[k] {
        s' := s'.(protect := s.protect + [k]);
      } else if |links| > 0 {
        s' := s'.(overwrites := s.overwrites + [k], copyMove := s.copyMove + {k});
      } else {
        s' := s'.(protect := s.protect + [k], rsync := s.rsync[k := (A[k], B[k])]);
      }
    } else if |links| > 0 {
      s' := s'.(copyMove := s.copyMove + {k});
    } else {
      s' := s'.(patch := s.patch + [Create(k, B[k])]);
      create' := create + [k];
    }
    DestsStep(A, B, k, done, s, s');
    SentStep(A, B, k, done, s, s', create, create');
  }

  method SurveyAll(A: Tree, B: Tree) returns (s: Survey, ghost create: seq<Key>)
    ensures Surveyed(A, B, B.Keys, s, create)
  {
    s, create := Survey(map[], [], {}, [], map[], []), [];
    var todo := B.Keys;
    ghost var done: set<Key> := {};
    while todo != {}
      invariant todo !! done && todo + done == B.Keys && Surveyed(A, B, done, s, create)
    {
      var k :| k in todo;
      s, create := SurveyKey(A, B, k, s, done, create);
      todo, done := todo - {k}, done + {k};
    }
  }

  // ---------- second loop: where each destination gets its content ----------

  datatype Choice = Choice(protect: seq<Key>, move: map<Key, Key>, moved: seq<Key>, copy: seq<Link>, copied: seq<Key>)

  ghost predicate MovesChosen(A: Tree, B: Tree, s: Survey, done: set<Key>, c: Choice) {
    && (forall k :: k in c.protect <==> k in s.protect || k in c.move)
    && (forall k :: k in c.move ==> Carries(A, B, Link(k, c.move[k])) && c.move[k] in done && k !in s.protect)
    && (forall k, l :: k in c.move && l in c.move && c.move[k] == c.move[l] ==> k == l)
    && (forall k :: k in c.moved <==> k in c.move)
  }

  ghost predicate CopiesChosen(A: Tree, B: Tree, done: set<Key>, c: Choice) {
    && (forall l :: l in c.copy ==> Carries(A, B, l) && l.to in done)
    && (forall i, j :: 0 <= i < j < |c.copy| ==> c.copy[i].to != c.copy[j].to)
    && (forall k :: k in c.copied <==> k in Froms(c.copy))
    && (forall l, a :: l in c.copy && l.to in B && a in A && A[a] == B[l.to] ==> a in c.protect)
  }

  ghost predicate Chosen(A: Tree, B: Tree, s: Survey, done: set<Key>, c: Choice) {
    && MovesChosen(A, B, s, done, c) && CopiesChosen(A, B, done, c)
    && (forall l, k :: l in c.copy && k in c.move ==> l.to != c.move[k])
    && (forall k :: k in done ==> k in Tos(c.copy) || k in c.move.Values)
  }

  lemma CopyAdded(A: Tree, B: Tree, s: Survey, done: set<Key>, c: Choice, l: Link)
    requires Chosen(A, B, s, done, c) && Carries(A, B, l) && l.to !in done
    requires forall a :: a in A && A[a] == B[l.to] ==> a in c.protect
    ensures Chosen(A, B, s, done + {l.to}, c.(copy := c.copy + [l], copied := c.copied + [l.from]))
  {
    var c' := c.(copy := c.copy + [l], copied := c.copied + [l.from]);
    assert Froms(c'.copy) == Froms(c.copy) + {l.from};
    assert Tos(c'.copy) == Tos(c.copy) + {l.to};
  }

  lemma MoveAdded(A: Tree, B: Tree, s: Survey, done: set<Key>, c: Choice, l: Link)
    requires Chosen(A, B, s, done, c) && Carries(A, B, l) && l.to !in done && l.from !in c.protect
    ensures Chosen(A, B, s, done + {l.to},
                   c.(protect := c.protect + [l.from], moved := c.moved + [l.from], move := c.move[l.from := l.to]))
  {
    var c' := c.(protect := c.protect + [l.from], moved := c.moved + [l.from], move := c.move[l.from := l.to]);
    forall k | k in done + {l.to} ensures k in Tos(c'.copy) || k in c'.move.Values {
      if k == l.to {
        assert c'.move[l.from] == k;
      } else if k !in Tos(c.copy) {
        var f :| f in c.move && c.move[f] == k;
        assert c'.move[f] == k;
      }
    }
  }

  /** The content comes from a key that may be moved, else from a copy of any. */
  method ChooseAll(A: Tree, B: Tree, s: Survey, ghost create: seq<Key>) returns (c: Choice)
    requires Surveyed(A, B, B.Keys, s, create)
    ensures Chosen(A, B, s, s.copyMove, c)
  {
    c := Choice(s.protect, map[], [], [], []);
    var todo := s.copyMove;
    while todo != {}
      invariant todo <= s.copyMove && Chosen(A, B, s, s.copyMove - todo, c)
    {
      var k :| k in todo;
      ghost var done := s.copyMove - todo;
      todo := todo - {k};
      assert done + {k} == s.copyMove - todo;
      c := ChooseOne(A, B, s, c, k, done, create);
    }
  }

  method ChooseOne(A: Tree, B: Tree, s: Survey, c: Choice, k: Key, ghost done: set<Key>, ghost create: seq<Key>)
    returns (c': Choice)
    requires Surveyed(A, B, B.Keys, s, create) && Chosen(A, B, s, done, c) && k in s.copyMove && k !in done
    ensures Chosen(A, B, s, done + {k}, c')
  {
    assert Links(A, B[k], s.links[k]);
    FoundByLinks(A, B[k], s.links[k]);
    var can := ArrayDiff(s.links[k], c.protect);
    if |can| > 0 {
      assert can[0] in can;
      MoveAdded(A, B, s, done, c, Link(can[0], k));
      c' := c.(protect := c.protect + [can[0]], moved := c.moved + [can[0]], move := c.move[can[0] := k]);
    } else {
      var from := s.links[k][0];
      assert from in s.links[k];
      CopyAdded(A, B, s, done, c, Link(from, k));
      c' := c.(copied := c.copied + [from], copy := c.copy + [Link(from, k)]);
    }
  }

  // ---------- the list of actions ----------

  method PushBackups(acts: seq<Action>, overwrites: seq<Key>) returns (acts': seq<Action>)
    ensures acts' == acts + Backups(overwrites)
  {
    acts' := acts;
    for i := 0 to |overwrites|
      invariant acts' == acts + Backups(overwrites[..i])
    {
      assert overwrites[..i + 1][..i] == overwrites[..i];
      acts' := acts' + [Backup(overwrites[i])];
    }
    assert overwrites[..|overwrites|] == overwrites;
  }

  method PushCopies(acts: seq<Action>, copy: seq<Link>) returns (acts': seq<Action>)
    ensures acts' == acts + Copies(copy)
  {
    acts' := acts;
    for i := 0 to |copy|
      invariant acts' == acts + Copies(copy[..i])
    {
      assert copy[..i + 1][..i] == copy[..i];
      acts' := acts' + [CopyTo(copy[i].from, copy[i].to)];
    }
    assert copy[..|copy|] == copy;
  }

  ghost predicate Listed(links: seq<Link>, move: map<Key, Key>, keys: set<Key>) {
    && (forall l :: l in links <==> l.from in keys && l.from in move && move[l.from] == l.to)
    && (forall i, j :: 0 <= i < j < |links| ==> links[i].from != links[j].from)
  }

  lemma ListedNext(links: seq<Link>, move: map<Key, Key>, keys: set<Key>, k: Key)
    requires Listed(links, move, keys) && k in move && k !in keys
    ensures Listed(links + [Link(k, move[k])], move, keys + {k})
  {
    var next := links + [Link(k, move[k])];
    forall l ensures l in next <==> l in links || l == Link(k, move[k]) {
    }
    forall i, j | 0 <= i < j < |next| ensures next[i].from != next[j].from {
      assert next[i] in links;
    }
  }

  lemma MovesSnoc(acts: seq<Action>, links: seq<Link>, l: Link)
    ensures acts + Moves(links + [l]) == acts + Moves(links) + [MoveTo(l.from, l.to)]
  {
    assert (links + [l])[..|links|] == links;
  }

  method PushMoves(acts: seq<Action>, move: map<Key, Key>) returns (acts': seq<Action>, ghost links: seq<Link>)
    ensures acts' == acts + Moves(links) && Listed(links, move, move.Keys)
  {
    acts', links := acts, [];
    var todo := move.Keys;
    while todo != {}
      invariant todo <= move.Keys && acts' == acts + Moves(links) && Listed(links, move, move.Keys - todo)
    {
      var k :| k in todo;
      ghost var done := move.Keys - todo;
      todo := todo - {k};
      acts' := acts' + [MoveTo(k, move[k])];
      MovesSnoc(acts, links, Link(k, move[k]));
      ListedNext(links, move, done, k);
      assert done + {k} == move.Keys - todo;
      links := links + [Link(k, move[k])];
    }
  }

  method PushRsyncs(acts: seq<Action>, rsync: map<Key, (Content, Content)>, ghost A: Tree, ghost B: Tree)
    returns (acts': seq<Action>, ghost ks: seq<Key>)
    requires forall k :: k in rsync ==> k in A && k in B && rsync[k] == (A[k], B[k])
    ensures Given(A, ks) && Given(B, ks) && acts' == acts + Rsyncs(A, B, ks)
    ensures Distinct(ks) && forall k :: k in ks <==> k in rsync
  {
    acts', ks := acts, [];
    var todo := rsync.Keys;
    while todo != {}
      invariant todo <= rsync.Keys && Distinct(ks) && forall k :: k in ks <==> k in rsync.Keys - todo
      invariant Given(A, ks) && Given(B, ks) && acts' == acts + Rsyncs(A, B, ks)
    {
      var k :| k in todo;
      todo := todo - {k};
      assert k !in ks;
      acts' := acts' + [Rsync(k, rsync[k].0, rsync[k].1)];
      assert (ks + [k])[..|ks|] == ks;
      ks := ks + [k];
    }
  }

  method PushDeletes(acts: seq<Action>, A: Tree, B: Tree, moved: seq<Key>)
    returns (acts': seq<Action>, ghost ks: seq<Key>)
    ensures acts' == acts + Deletes(ks)
    ensures Distinct(ks) && forall k :: k in ks <==> k in A && k !in B && k !in moved
  {
    acts', ks := acts, [];
    var todo := A.Keys;
    while todo != {}
      invariant todo <= A.Keys && acts' == acts + Deletes(ks)
      invariant Distinct(ks) && forall k :: k in ks <==> k in A.Keys - todo && k !in B && k !in moved
    {
      var k :| k in todo;
      todo := todo - {k};
      if k !in B && k !in moved {
        acts' := acts' + [Delete(k)];
        assert (ks + [k])[..|ks|] == ks;
        ks := ks + [k];
      }
    }
  }

  /** All of a destination's conditions but the last two phases. */
  lemma LinksGood(A: Tree, B: Tree, s: Survey, c: Choice, create: seq<Key>, move: seq<Link>)
    requires Surveyed(A, B, B.Keys, s, create) && Chosen(A, B, s, s.copyMove, c) && Listed(move, c.move, c.move.Keys)
    ensures forall l :: l in c.copy || l in move ==> Carries(A, B, l)
    ensures forall k :: k in Tos(c.copy) + Tos(move) <==> IsDest(A, B, k)
    ensures Movable(A, B, move)
    ensures forall k :: k in Froms(move) <==> k in c.move
  {
    forall l | l in move
      ensures Carries(A, B, l) && !Kept(A, B, l.from) && !IsRsync(A, B, l.from) && IsDest(A, B, l.to)
    {
      assert l == Link(l.from, c.move[l.from]);
    }
    forall k ensures k in Froms(move) <==> k in c.move {
      if k in c.move {
        assert Link(k, c.move[k]) in move;
      }
    }
    forall k | IsDest(A, B, k) ensures k in Tos(c.copy) + Tos(move) {
      if k !in Tos(c.copy) {
        var f :| f in c.move && c.move[f] == k;
        assert Link(f, k) in move;
      }
    }
  }

  lemma TosDistinct(copy: seq<Link>, move: seq<Link>, chosen: map<Key, Key>)
    requires Listed(move, chosen, chosen.Keys)
    requires forall i, j :: 0 <= i < j < |copy| ==> copy[i].to != copy[j].to
    requires forall k, l :: k in chosen && l in chosen && chosen[k] == chosen[l] ==> k == l
    requires forall l, k :: l in copy && k in chosen ==> l.to != chosen[k]
    ensures forall i, j :: 0 <= i < j < |copy + move| ==> (copy + move)[i].to != (copy + move)[j].to
  {
    forall i, j | 0 <= i < j < |copy + move| ensures (copy + move)[i].to != (copy + move)[j].to {
      var a, b := (copy + move)[i], (copy + move)[j];
      if j >= |copy| {
        assert b in move && chosen[b.from] == b.to;
        if i < |copy| {
          assert a in copy;
        } else {
          assert a in move && chosen[a.from] == a.to;
        }
      }
    }
  }

  lemma SendsGood(A: Tree, B: Tree, s: Survey, plan: Plan)
    requires SentSurveyed(A, B, B.Keys, s, plan.create)
    requires Distinct(plan.rsync) && forall k :: k in plan.rsync <==> k in s.rsync
    ensures Sends(A, B, plan) && Scripted(A, B, plan)
  {
  }

  ghost predicate Assembled(A: Tree, B: Tree, s: Survey, c: Choice, plan: Plan) {
    && plan.backup == ArrayCommon(s.overwrites, c.copied + c.moved)
    && plan.copy == c.copy && Listed(plan.move, c.move, c.move.Keys)
    && Distinct(plan.rsync) && (forall k :: k in plan.rsync <==> k in s.rsync)
    && Distinct(plan.delete) && (forall k :: k in plan.delete <==> k in A && k !in B && k !in c.moved)
  }

  lemma FillsGood(A: Tree, B: Tree, s: Survey, c: Choice, plan: Plan)
    requires Surveyed(A, B, B.Keys, s, plan.create) && Chosen(A, B, s, s.copyMove, c) && Assembled(A, B, s, c, plan)
    ensures Fills(A, B, plan.copy, plan.move) && Movable(A, B, plan.move) && Clears(A, B, plan)
  {
    LinksGood(A, B, s, c, plan.create, plan.move);
  }

  lemma SourcesGood(A: Tree, B: Tree, s: Survey, c: Choice, plan: Plan)
    requires Surveyed(A, B, B.Keys, s, plan.create) && Chosen(A, B, s, s.copyMove, c) && Assembled(A, B, s, c, plan)
    ensures Saves(A, B, plan) && Thrifty(A, B, plan)
  {
    LinksGood(A, B, s, c, plan.create, plan.move);
    TosDistinct(c.copy, plan.move, c.move);
    BackupsGood(A, B, s, c, plan);
    CopiesGood(A, B, s, c, plan);
  }

  lemma BackupsGood(A: Tree, B: Tree, s: Survey, c: Choice, plan: Plan)
    requires DestsSurveyed(A, B, B.Keys, s)
    requires plan.backup == ArrayCommon(s.overwrites, c.copied + c.moved) && plan.copy == c.copy
    requires forall k :: k in c.copied <==> k in Froms(c.copy)
    requires forall k :: k in c.moved <==> k in Froms(plan.move)
    ensures Saves(A, B, plan)
  {
  }

  lemma CopiesGood(A: Tree, B: Tree, s: Survey, c: Choice, plan: Plan)
    requires DestsSurveyed(A, B, B.Keys, s) && CopiesChosen(A, B, s.copyMove, c) && plan.copy == c.copy
    requires forall k :: k in c.protect <==> k in s.protect || k in Froms(plan.move)
    requires forall i, j :: 0 <= i < j < |c.copy + plan.move| ==>
      (c.copy + plan.move)[i].to != (c.copy + plan.move)[j].to
    ensures Thrifty(A, B, plan)
  {
  }

  lemma Regroup(a: seq<Action>, b: seq<Action>, c: seq<Action>, d: seq<Action>, e: seq<Action>, f: seq<Action>)
    ensures a + b + c + d + e + f == (a + b + c) + (d + e + f)
  {
  }

  /** morph: the actions are the script of a good plan, and turn A into B. */
  method Morph(A: Tree, B: Tree) returns (patch: seq<Action>, ghost plan: Plan)
    ensures Good(A, B, plan) && Scripted(A, B, plan) && patch == Script(A, B, plan)
    ensures Run(Start(A, patch), patch).Ok? && Run(Start(A, patch), patch).state.tree == B
  {
    ghost var create, move, rsync, delete;
    var survey;
    survey, create := SurveyAll(A, B);
    var choice := ChooseAll(A, B, survey, create);
    var overwrites := ArrayCommon(survey.overwrites, choice.copied + choice.moved);
    patch := PushBackups(survey.patch, overwrites);
    patch := PushCopies(patch, choice.copy);
    patch, move := PushMoves(patch, choice.move);
    patch, rsync := PushRsyncs(patch, survey.rsync, A, B);
    patch, delete := PushDeletes(patch, A, B, choice.moved);
    plan := Plan(create, overwrites, choice.copy, move, rsync, delete);
    SendsGood(A, B, survey, plan);
    FillsGood(A, B, survey, choice, plan);
    SourcesGood(A, B, survey, choice, plan);
    Regroup(Creates(B, create), Backups(overwrites), Copies(choice.copy), Moves(move),
            Rsyncs(A, B, rsync), Deletes(delete));
    GoodPlanWorks(A, B, plan);
  }

  /** Morphing A to B and patching A with the result takes no error exit and ends
    * in B, for all maps and every order of visiting keys.
    */
  method MorphThenPatch(A: Tree, B: Tree) returns (errors: set<Error>, result: Tree)
    ensures errors == {} && result == B
  {
    var acts, plan := Morph(A, B);
    var patcher := new Patcher(A);
    errors := patcher.Patch(acts);
    result := patcher.tree;
  }

  method IsEqual(A: Tree, B: Tree) returns (r: bool)
    ensures r <==> A == B
  {
    var todo := A.Keys;
    while todo != {}
      invariant todo <= A.Keys && forall k :: k in A && k !in todo ==> Kept(A, B, k)
    {
      var k :| k in todo;
      todo := todo - {k};
      if k !in B || B[k] != A[k] {
        return false;
      }
    }
    todo := B.Keys;
    while todo != {}
      invariant todo <= B.Keys && forall k :: k in B && k !in todo ==> k in A
    {
      var k :| k in todo;
      todo := todo - {k};
      if k !in A {
        return false;
      }
    }
    r := true;
  }
}
