/** Key-to-content maps turned into one another (proto.js): what a list of actions
  * does to a tree (patch), and that every good plan turns A into B.
  */
module TreeSync {
  type Key(==, !new)
  type Content(==, !new)
  type Tree = map<Key, Content>

  datatype Action =
    | Create(key: Key, content: Content)
    | Backup(key: Key)
    | CopyTo(key: Key, to: Key)
    | MoveTo(key: Key, to: Key)
    | Rsync(key: Key, src: Content, dst: Content)
    | Delete(key: Key)

  /** Which object storage[k] refers to. */
  datatype Place = InTree | InBackup

  datatype State = State(tree: Tree, backup: Tree, storage: map<Key, Place>)

  /** The error exits of patch, and the read of a content that is gone. */
  datatype Error = KeyExists | KeyMissing | WrongSource | NoContent

  datatype Outcome = Ok(state: State) | Exit(error: Error)

  predicate Stored(st: State, acts: seq<Action>) {
    forall i :: 0 <= i < |acts| ==> acts[i].key in st.storage
  }

  /** storage[key][key]. */
  function Source(st: State, key: Key): Tree
    requires key in st.storage
  {
    match st.storage[key]
    case InTree => st.tree
    case InBackup => st.backup
  }

  function Step(st: State, act: Action): (o: Outcome)
    requires act.key in st.storage
    ensures o.Ok? ==> o.state.storage.Keys == st.storage.Keys
  {
    match act
    case Create(key, content) =>
      if key in st.tree then Exit(KeyExists) else Ok(st.(tree := st.tree[key := content]))
    case Backup(key) =>
      if key !in st.tree then Exit(KeyMissing)
      else Ok(st.(backup := st.backup[key := st.tree[key]], storage := st.storage[key := InBackup]))
    case CopyTo(key, to) =>
      if key !in st.tree then Exit(KeyMissing)
      else if key !in Source(st, key) then Exit(NoContent)
      else Ok(st.(tree := st.tree[to := Source(st, key)[key]]))
    case MoveTo(key, to) =>
      if key !in st.tree then Exit(KeyMissing)
      else if key !in Source(st, key) then Exit(NoContent)
      else
        var tree := st.tree[to := Source(st, key)[key]];
        if st.storage[key] == InTree then Ok(st.(tree := tree - {key}))
        else Ok(st.(tree := tree, backup := st.backup - {key}))
    case Rsync(key, src, dst) =>
      if key !in st.tree || st.tree[key] != src then Exit(WrongSource) else Ok(st.(tree := st.tree[key := dst]))
    case Delete(key) =>
      if key !in st.tree then Exit(KeyMissing) else Ok(st.(tree := st.tree - {key}))
  }

  /** What patch refuses: creating a key that exists, reading or deleting one that does not,
    * rsyncing one whose content is not the expected, reading a content that is gone.
    */
  ghost predicate Refuses(st: State, act: Action, e: Error)
    requires act.key in st.storage
  {
    match e
    case KeyExists => act.Create? && act.key in st.tree
    case KeyMissing => (act.Backup? || act.CopyTo? || act.MoveTo? || act.Delete?) && act.key !in st.tree
    case WrongSource => act.Rsync? && (act.key in st.tree ==> st.tree[act.key] != act.src)
    case NoContent => (act.CopyTo? || act.MoveTo?) && act.key in st.tree && act.key !in Source(st, act.key)
  }

  lemma StepRefuses(st: State, act: Action, e: Error)
    requires act.key in st.storage
    ensures Step(st, act) == Exit(e) <==> Refuses(st, act, e)
  {
  }

  /** An action touches no key but its own and its destination; what it writes is its
    * content, or the one it was told to read. Only a move and a delete take a key away.
    */
  lemma StepTouches(st: State, act: Action, k: Key)
    requires act.key in st.storage && Step(st, act).Ok?
    ensures var tree := Step(st, act).state.tree;
      && (k != act.key && !((act.CopyTo? || act.MoveTo?) && k == act.to) ==>
            (k in tree <==> k in st.tree) && (k in tree ==> tree[k] == st.tree[k]))
      && (act.Create? ==> act.key in tree && tree[act.key] == act.content)
      && (act.Rsync? ==> act.key in tree && tree[act.key] == act.dst)
      && (act.Delete? ==> act.key !in tree)
      && (act.Backup? ==> tree == st.tree && Step(st, act).state.backup[act.key] == st.tree[act.key])
      && ((act.CopyTo? || (act.MoveTo? && act.to != act.key)) ==>
            act.to in tree && tree[act.to] == Source(st, act.key)[act.key])
      && (act.MoveTo? && act.to != act.key ==> (act.key !in tree <==> st.storage[act.key] == InTree))
  {
  }

  /** The actions one after the other; an exit ends the run. */
  function Run(st: State, acts: seq<Action>): (o: Outcome)
    requires Stored(st, acts)
    ensures o.Ok? ==> o.state.storage.Keys == st.storage.Keys
  {
    if acts == [] then Ok(st)
    else
      var o := Run(st, acts[..|acts| - 1]);
      if o.Exit? then o else Step(o.state, acts[|acts| - 1])
  }

  lemma RunSnoc(st: State, acts: seq<Action>, act: Action)
    requires Stored(st, acts) && act.key in st.storage && Run(st, acts).Ok?
    ensures Run(st, acts + [act]) == Step(Run(st, acts).state, act)
  {
    assert (acts + [act])[..|acts|] == acts;
  }

  lemma RunNext(st: State, acts: seq<Action>, i: nat)
    requires i < |acts| && Stored(st, acts[..i]) && acts[i].key in st.storage && Run(st, acts[..i]).Ok?
    ensures Run(st, acts[..i + 1]) == Step(Run(st, acts[..i]).state, acts[i])
  {
    assert acts[..i + 1][..i] == acts[..i];
  }

  lemma {:induction false} RunConcat(st: State, a: seq<Action>, b: seq<Action>)
    requires Stored(st, a) && Stored(st, b) && Run(st, a).Ok?
    ensures Stored(st, a + b) && Run(st, a + b) == Run(Run(st, a).state, b)
  {
    if b == [] {
      assert a + b == a;
    } else {
      var front, last := b[..|b| - 1], b[|b| - 1];
      RunConcat(st, a, front);
      assert (a + b)[..|a + b| - 1] == a + front;
    }
  }

  function KeysOf(acts: seq<Action>): set<Key> {
    set act | act in acts :: act.key
  }

  /** Initially all contents are stored in the tree. */
  function Start(tree: Tree, acts: seq<Action>): (st: State)
    ensures Stored(st, acts)
  {
    State(tree, map[], map k | k in KeysOf(acts) :: InTree)
  }

  /** patch: applies the actions to a tree, or stops at the first error. */
  class Patcher {
    var tree: Tree
    var backup: Tree
    var storage: map<Key, Place>

    constructor (tree: Tree)
      ensures this.tree == tree
    {
      this.tree, backup, storage := tree, map[], map[];
    }

    /** Initially all contents are stored in the tree. */
    method StoreAll(acts: seq<Action>)
      modifies this`backup, this`storage
      ensures State(tree, backup, storage) == Start(tree, acts)
    {
      backup, storage := map[], map[];
      for i := 0 to |acts|
        invariant backup == map[] && storage == map k | k in KeysOf(acts[..i]) :: InTree
      {
        assert acts[..i + 1] == acts[..i] + [acts[i]];
        storage := storage[acts[i].key := InTree];
      }
      assert acts[..|acts|] == acts;
    }

    /** Runs the actions on the tree; errors holds the exit taken, if any. */
    method Patch(acts: seq<Action>) returns (errors: set<Error>)
      modifies this
      ensures match Run(Start(old(tree), acts), acts)
              case Ok(st) => errors == {} && tree == st.tree
              case Exit(e) => errors == {e}
      ensures forall e :: e in errors ==> StopsOn(Start(old(tree), acts), acts, e, tree)
    {
      errors := {};
      StoreAll(acts);
      ghost var start := Start(old(tree), acts);
      for i := 0 to |acts|
        invariant errors == {} && Run(start, acts[..i]) == Ok(State(tree, backup, storage))
      {
        RunNext(start, acts, i);
        errors := Act(acts[i]);
        if errors != {} {
          Stopped(start, acts, i);
          ExitStays(start, acts, i + 1);
          return;
        }
      }
      assert acts[..|acts|] == acts;
    }

    method Act(act: Action) returns (error: set<Error>)
      requires act.key in storage
      modifies this
      ensures match Step(old(State(tree, backup, storage)), act)
              case Ok(st) => error == {} && st == State(tree, backup, storage)
              case Exit(e) => error == {e} && tree == old(tree)
    {
      error := {};
      match act
      case Create(key, content) =>
        if key in tree {
          return {KeyExists};
        }
        tree := tree[key := content];
      case Backup(key) =>
        if key !in tree {
          return {KeyMissing};
        }
        backup := backup[key := tree[key]];
        storage := storage[key := InBackup];
      case CopyTo(key, to) =>
        if key !in tree {
          return {KeyMissing};
        }
        var from := if storage[key] == InTree then tree else backup;
        if key !in from {
          return {NoContent};
        }
        tree := tree[to := from[key]];
      case MoveTo(key, to) =>
        if key !in tree {
          return {KeyMissing};
        }
        var from := if storage[key] == InTree then tree else backup;
        if key !in from {
          return {NoContent};
        }
        tree := tree[to := from[key]];
        if storage[key] == InTree {
          tree := tree - {key};
        } else {
          backup := backup - {key};
        }
      case Rsync(key, src, dst) =>
        if key !in tree || tree[key] != src {
          return {WrongSource};
        }
        tree := tree[key := dst];
      case Delete(key) =>
        if key !in tree {
          return {KeyMissing};
        }
        tree := tree - {key};
    }
  }

  /** The first action that is refused ends the run with its error, and the tree is what the
    * actions before it made.
    */
  ghost predicate StopsOn(st: State, acts: seq<Action>, e: Error, tree: Tree)
    requires Stored(st, acts)
  {
    exists i :: 0 <= i < |acts| && StopsAt(st, acts, i, e, tree)
  }

  ghost predicate StopsAt(st: State, acts: seq<Action>, i: nat, e: Error, tree: Tree)
    requires Stored(st, acts) && i < |acts|
  {
    match Run(st, acts[..i])
    case Ok(s) => Refuses(s, acts[i], e) && tree == s.tree
    case Exit(_) => false
  }

  lemma Stopped(st: State, acts: seq<Action>, i: nat)
    requires Stored(st, acts) && i < |acts| && Run(st, acts[..i]).Ok?
    requires Step(Run(st, acts[..i]).state, acts[i]).Exit?
    ensures StopsOn(st, acts, Step(Run(st, acts[..i]).state, acts[i]).error, Run(st, acts[..i]).state.tree)
  {
    var s := Run(st, acts[..i]).state;
    StepRefuses(s, acts[i], Step(s, acts[i]).error);
    assert StopsAt(st, acts, i, Step(s, acts[i]).error, s.tree);
  }

  lemma {:induction false} ExitStays(st: State, acts: seq<Action>, i: nat)
    requires Stored(st, acts) && i <= |acts| && Run(st, acts[..i]).Exit?
    ensures Run(st, acts) == Run(st, acts[..i])
  {
    if i == |acts| {
      assert acts[..i] == acts;
    } else {
      var front := acts[..|acts| - 1];
      assert front[..i] == acts[..i];
      ExitStays(st, front, i);
    }
  }

  // ---------- plans ----------

  datatype Link = Link(from: Key, to: Key)

  datatype Plan = Plan(create: seq<Key>, backup: seq<Key>, copy: seq<Link>, move: seq<Link>,
                       rsync: seq<Key>, delete: seq<Key>)

  ghost predicate Distinct<T>(s: seq<T>) {
    forall i, j :: 0 <= i < j < |s| ==> s[i] != s[j]
  }

  ghost function Elems<T>(s: seq<T>): set<T> {
    set x | x in s
  }

  ghost function Froms(links: seq<Link>): set<Key> {
    set l | l in links :: l.from
  }

  ghost function Tos(links: seq<Link>): set<Key> {
    set l | l in links :: l.to
  }

  ghost predicate Found(A: Tree, c: Content) {
    exists a :: a in A && A[a] == c
  }

  /** Key and content are the same on both sides. */
  ghost predicate Kept(A: Tree, B: Tree, k: Key) {
    k in A && k in B && A[k] == B[k]
  }

  /** To be filled by a copy or a move. */
  ghost predicate IsDest(A: Tree, B: Tree, k: Key) {
    k in B && !Kept(A, B, k) && Found(A, B[k])
  }

  ghost predicate IsFresh(A: Tree, B: Tree, k: Key) {
    k in B && k !in A && !Found(A, B[k])
  }

  ghost predicate IsRsync(A: Tree, B: Tree, k: Key) {
    k in B && k in A && !Found(A, B[k])
  }

  ghost predicate Carries(A: Tree, B: Tree, l: Link) {
    l.from in A && l.to in B && A[l.from] == B[l.to]
  }

  /** Every destination is filled once, from a key that holds its content; only
    * contents absent from A are sent; a source is moved at most once, only when
    * its key is not wanted with this content; and a content is copied only when
    * every key that holds it is kept, rsynced or moved.
    */
  ghost predicate Good(A: Tree, B: Tree, plan: Plan) {
    && Sends(A, B, plan) && Fills(A, B, plan.copy, plan.move) && Movable(A, B, plan.move)
    && Saves(A, B, plan) && Clears(A, B, plan) && Thrifty(A, B, plan)
  }

  ghost predicate Sends(A: Tree, B: Tree, plan: Plan) {
    && Distinct(plan.create) && (forall k :: k in plan.create <==> IsFresh(A, B, k))
    && Distinct(plan.rsync) && (forall k :: k in plan.rsync <==> IsRsync(A, B, k))
  }

  ghost predicate Fills(A: Tree, B: Tree, copy: seq<Link>, move: seq<Link>) {
    && (forall l :: l in copy || l in move ==> Carries(A, B, l))
    && (forall k :: k in Tos(copy) + Tos(move) <==> IsDest(A, B, k))
  }

  ghost predicate Saves(A: Tree, B: Tree, plan: Plan) {
    && Distinct(plan.backup)
    && (forall k :: k in plan.backup <==> k in A && IsDest(A, B, k) && k in Froms(plan.copy) + Froms(plan.move))
  }

  ghost predicate Clears(A: Tree, B: Tree, plan: Plan) {
    Distinct(plan.delete) && (forall k :: k in plan.delete <==> k in A && k !in B && k !in Froms(plan.move))
  }

  ghost predicate Movable(A: Tree, B: Tree, move: seq<Link>) {
    && (forall i, j :: 0 <= i < j < |move| ==> move[i].from != move[j].from)
    && (forall l :: l in move ==> !Kept(A, B, l.from) && !IsRsync(A, B, l.from))
  }

  ghost predicate Thrifty(A: Tree, B: Tree, plan: Plan) {
    && (forall i, j :: 0 <= i < j < |plan.copy + plan.move| ==>
          (plan.copy + plan.move)[i].to != (plan.copy + plan.move)[j].to)
    && (forall l, a :: l in plan.copy && l.to in B && a in A && A[a] == B[l.to] ==>
          Kept(A, B, a) || IsRsync(A, B, a) || a in Froms(plan.move))
  }

  // ---------- the script of a plan ----------

  ghost predicate Given(B: Tree, ks: seq<Key>) {
    forall k :: k in ks ==> k in B
  }

  function Creates(B: Tree, ks: seq<Key>): (acts: seq<Action>)
    requires Given(B, ks)
    ensures forall act :: act in acts ==> act.Create? && act.key in ks && act.content == B[act.key]
  {
    if ks == [] then [] else Creates(B, ks[..|ks| - 1]) + [Create(ks[|ks| - 1], B[ks[|ks| - 1]])]
  }

  function Backups(ks: seq<Key>): (acts: seq<Action>)
    ensures forall act :: act in acts ==> act.Backup?
  {
    if ks == [] then [] else Backups(ks[..|ks| - 1]) + [Backup(ks[|ks| - 1])]
  }

  function Copies(links: seq<Link>): (acts: seq<Action>)
    ensures forall act :: act in acts ==> act.CopyTo?
  {
    if links == [] then [] else Copies(links[..|links| - 1]) + [CopyTo(links[|links| - 1].from, links[|links| - 1].to)]
  }

  function Moves(links: seq<Link>): (acts: seq<Action>)
    ensures forall act :: act in acts ==> act.MoveTo?
  {
    if links == [] then [] else Moves(links[..|links| - 1]) + [MoveTo(links[|links| - 1].from, links[|links| - 1].to)]
  }

  function Rsyncs(A: Tree, B: Tree, ks: seq<Key>): (acts: seq<Action>)
    requires Given(A, ks) && Given(B, ks)
    ensures forall act :: act in acts ==> act.Rsync? && act.key in ks && act.src == A[act.key] && act.dst == B[act.key]
  {
    if ks == [] then []
    else
      var k := ks[|ks| - 1];
      Rsyncs(A, B, ks[..|ks| - 1]) + [Rsync(k, A[k], B[k])]
  }

  function Deletes(ks: seq<Key>): (acts: seq<Action>)
    ensures forall act :: act in acts ==> act.Delete?
  {
    if ks == [] then [] else Deletes(ks[..|ks| - 1]) + [Delete(ks[|ks| - 1])]
  }

  ghost predicate Scripted(A: Tree, B: Tree, plan: Plan) {
    Given(B, plan.create) && Given(A, plan.rsync) && Given(B, plan.rsync)
  }

  ghost function Script(A: Tree, B: Tree, plan: Plan): seq<Action>
    requires Scripted(A, B, plan)
  {
    (Creates(B, plan.create) + Backups(plan.backup) + Copies(plan.copy))
    + (Moves(plan.move) + Rsyncs(A, B, plan.rsync) + Deletes(plan.delete))
  }

  // ---------- what a run has done so far ----------

  /** Keys that hold their new content, keys removed from the tree, keys saved in
    * the backup, and those of them moved out of it again.
    */
  datatype Progress = Progress(written: set<Key>, gone: set<Key>, saved: set<Key>, used: set<Key>)

  function Outset(): Progress {
    Progress({}, {}, {}, {})
  }

  ghost predicate Sound(A: Tree, B: Tree, p: Progress) {
    p.written <= B.Keys && p.saved <= A.Keys
  }

  ghost function Reached(A: Tree, B: Tree, p: Progress, keys: set<Key>): State
    requires Sound(A, B, p)
  {
    State(map k | k in (A.Keys + p.written) - p.gone :: if k in p.written then B[k] else A[k],
          map k | k in p.saved - p.used :: A[k],
          map k | k in keys :: if k in p.saved then InBackup else InTree)
  }

  lemma CreateStep(A: Tree, B: Tree, p: Progress, keys: set<Key>, k: Key)
    requires Sound(A, B, p) && k in B && k !in A && k !in p.written && k !in p.gone && k in keys
    ensures Step(Reached(A, B, p, keys), Create(k, B[k])) == Ok(Reached(A, B, p.(written := p.written + {k}), keys))
  {
    var next := Reached(A, B, p.(written := p.written + {k}), keys);
    assert Reached(A, B, p, keys).tree[k := B[k]] == next.tree;
  }

  lemma BackupStep(A: Tree, B: Tree, p: Progress, keys: set<Key>, k: Key)
    requires Sound(A, B, p) && k in A && k !in p.written && k !in p.gone && k !in p.used && k in keys
    ensures Step(Reached(A, B, p, keys), Backup(k)) == Ok(Reached(A, B, p.(saved := p.saved + {k}), keys))
  {
    var st, next := Reached(A, B, p, keys), Reached(A, B, p.(saved := p.saved + {k}), keys);
    assert st.backup[k := A[k]] == next.backup;
    assert st.storage[k := InBackup] == next.storage;
  }

  /** The content of A[k] can still be read. */
  ghost predicate Readable(A: Tree, p: Progress, k: Key) {
    k in A && k !in p.gone && if k in p.saved then k !in p.used else k !in p.written
  }

  lemma CopyStep(A: Tree, B: Tree, p: Progress, keys: set<Key>, l: Link)
    requires Sound(A, B, p) && Carries(A, B, l) && Readable(A, p, l.from) && l.to !in p.gone && l.from in keys
    ensures Step(Reached(A, B, p, keys), CopyTo(l.from, l.to)) ==
            Ok(Reached(A, B, p.(written := p.written + {l.to}), keys))
  {
    var st, next := Reached(A, B, p, keys), Reached(A, B, p.(written := p.written + {l.to}), keys);
    assert st.tree[l.to := B[l.to]] == next.tree;
  }

  ghost function Moved(p: Progress, l: Link): Progress {
    if l.from in p.saved then p.(written := p.written + {l.to}, used := p.used + {l.from})
    else p.(written := p.written + {l.to}, gone := p.gone + {l.from})
  }

  lemma MoveStep(A: Tree, B: Tree, p: Progress, keys: set<Key>, l: Link)
    requires Sound(A, B, p) && Carries(A, B, l) && Readable(A, p, l.from) && l.to !in p.gone && l.from in keys
    ensures Step(Reached(A, B, p, keys), MoveTo(l.from, l.to)) == Ok(Reached(A, B, Moved(p, l), keys))
  {
    var st, next := Reached(A, B, p, keys), Reached(A, B, Moved(p, l), keys);
    if l.from in p.saved {
      assert st.tree[l.to := B[l.to]] == next.tree;
      assert st.backup - {l.from} == next.backup;
    } else {
      assert st.tree[l.to := B[l.to]] - {l.from} == next.tree;
    }
  }

  lemma RsyncStep(A: Tree, B: Tree, p: Progress, keys: set<Key>, k: Key)
    requires Sound(A, B, p) && k in A && k in B && k !in p.written && k !in p.gone && k in keys
    ensures Step(Reached(A, B, p, keys), Rsync(k, A[k], B[k])) ==
            Ok(Reached(A, B, p.(written := p.written + {k}), keys))
  {
    var next := Reached(A, B, p.(written := p.written + {k}), keys);
    assert Reached(A, B, p, keys).tree[k := B[k]] == next.tree;
  }

  lemma DeleteStep(A: Tree, B: Tree, p: Progress, keys: set<Key>, k: Key)
    requires Sound(A, B, p) && k in A && k !in p.gone && k in keys
    ensures Step(Reached(A, B, p, keys), Delete(k)) == Ok(Reached(A, B, p.(gone := p.gone + {k}), keys))
  {
    var next := Reached(A, B, p.(gone := p.gone + {k}), keys);
    assert Reached(A, B, p, keys).tree - {k} == next.tree;
  }

  // ---------- one phase after the other ----------

  /** The actions run without an error exit and end in state end. */
  ghost predicate Gets(st: State, acts: seq<Action>, end: State) {
    Stored(st, acts) && Run(st, acts) == Ok(end)
  }

  lemma GetsSnoc(st: State, acts: seq<Action>, act: Action, mid: State, end: State)
    requires Gets(st, acts, mid) && act.key in mid.storage && Step(mid, act) == Ok(end)
    ensures Gets(st, acts + [act], end)
  {
    RunSnoc(st, acts, act);
  }

  lemma GetsOn(st: State, a: seq<Action>, mid: State, b: seq<Action>, end: State)
    requires Gets(st, a, mid) && Gets(mid, b, end)
    ensures Gets(st, a + b, end)
  {
    RunConcat(st, a, b);
  }

  lemma {:induction false} RunCreates(A: Tree, B: Tree, p: Progress, keys: set<Key>, ks: seq<Key>)
    requires Sound(A, B, p) && p.gone == {} && Distinct(ks) && Elems(ks) <= keys
    requires Given(B, ks) && forall k :: k in ks ==> k !in A && k !in p.written
    ensures Gets(Reached(A, B, p, keys), Creates(B, ks), Reached(A, B, p.(written := p.written + Elems(ks)), keys))
  {
    if ks == [] {
      assert p.written + Elems(ks) == p.written;
    } else {
      var front, k := ks[..|ks| - 1], ks[|ks| - 1];
      RunCreates(A, B, p, keys, front);
      assert k in ks && k !in front;
      CreateStep(A, B, p.(written := p.written + Elems(front)), keys, k);
      assert p.written + Elems(ks) == p.written + Elems(front) + {k};
      GetsSnoc(Reached(A, B, p, keys), Creates(B, front), Create(k, B[k]),
               Reached(A, B, p.(written := p.written + Elems(front)), keys),
               Reached(A, B, p.(written := p.written + Elems(ks)), keys));
    }
  }

  lemma {:induction false} RunBackups(A: Tree, B: Tree, p: Progress, keys: set<Key>, ks: seq<Key>)
    requires Sound(A, B, p) && p.gone == {} && p.used == {} && Elems(ks) <= keys
    requires Given(A, ks) && forall k :: k in ks ==> k !in p.written
    ensures Gets(Reached(A, B, p, keys), Backups(ks), Reached(A, B, p.(saved := p.saved + Elems(ks)), keys))
  {
    if ks == [] {
      assert p.saved + Elems(ks) == p.saved;
    } else {
      var front, k := ks[..|ks| - 1], ks[|ks| - 1];
      RunBackups(A, B, p, keys, front);
      assert k in ks;
      BackupStep(A, B, p.(saved := p.saved + Elems(front)), keys, k);
      assert p.saved + Elems(ks) == p.saved + Elems(front) + {k};
      GetsSnoc(Reached(A, B, p, keys), Backups(front), Backup(k),
               Reached(A, B, p.(saved := p.saved + Elems(front)), keys),
               Reached(A, B, p.(saved := p.saved + Elems(ks)), keys));
    }
  }

  lemma {:induction false} RunCopies(A: Tree, B: Tree, p: Progress, keys: set<Key>, links: seq<Link>)
    requires Sound(A, B, p) && p.gone == {} && p.used == {} && Froms(links) <= keys && Tos(links) <= B.Keys
    requires forall l :: l in links ==> Carries(A, B, l) && (l.from in p.saved || l.from !in p.written + Tos(links))
    ensures Gets(Reached(A, B, p, keys), Copies(links), Reached(A, B, p.(written := p.written + Tos(links)), keys))
  {
    if links == [] {
      assert p.written + Tos(links) == p.written;
    } else {
      var front, l := links[..|links| - 1], links[|links| - 1];
      assert Tos(links) == Tos(front) + {l.to};
      RunCopies(A, B, p, keys, front);
      assert l in links;
      CopyStep(A, B, p.(written := p.written + Tos(front)), keys, l);
      assert p.written + Tos(links) == p.written + Tos(front) + {l.to};
      GetsSnoc(Reached(A, B, p, keys), Copies(front), CopyTo(l.from, l.to),
               Reached(A, B, p.(written := p.written + Tos(front)), keys),
               Reached(A, B, p.(written := p.written + Tos(links)), keys));
    }
  }

  ghost function AllMoved(p: Progress, links: seq<Link>): Progress {
    p.(written := p.written + Tos(links), gone := p.gone + (Froms(links) - p.saved),
       used := p.used + Froms(links) * p.saved)
  }

  lemma {:induction false} RunMoves(A: Tree, B: Tree, p: Progress, keys: set<Key>, links: seq<Link>)
    requires Sound(A, B, p) && p.gone == {} && p.used == {} && Froms(links) <= keys && Tos(links) <= B.Keys
    requires forall i, j :: 0 <= i < j < |links| ==> links[i].from != links[j].from
    requires forall l :: l in links ==> Carries(A, B, l) && (l.from in p.saved || l.from !in B)
    ensures Gets(Reached(A, B, p, keys), Moves(links), Reached(A, B, AllMoved(p, links), keys))
  {
    if links == [] {
      assert AllMoved(p, links) == p;
    } else {
      var front, l := links[..|links| - 1], links[|links| - 1];
      assert Tos(links) == Tos(front) + {l.to} && Froms(links) == Froms(front) + {l.from};
      RunMoves(A, B, p, keys, front);
      assert l in links && l.from !in Froms(front);
      MoveStep(A, B, AllMoved(p, front), keys, l);
      assert AllMoved(p, links) == Moved(AllMoved(p, front), l);
      GetsSnoc(Reached(A, B, p, keys), Moves(front), MoveTo(l.from, l.to),
               Reached(A, B, AllMoved(p, front), keys), Reached(A, B, AllMoved(p, links), keys));
    }
  }

  lemma {:induction false} RunRsyncs(A: Tree, B: Tree, p: Progress, keys: set<Key>, ks: seq<Key>)
    requires Sound(A, B, p) && Distinct(ks) && Elems(ks) <= keys
    requires Given(A, ks) && Given(B, ks) && forall k :: k in ks ==> k !in p.written && k !in p.gone
    ensures Gets(Reached(A, B, p, keys), Rsyncs(A, B, ks), Reached(A, B, p.(written := p.written + Elems(ks)), keys))
  {
    if ks == [] {
      assert p.written + Elems(ks) == p.written;
    } else {
      var front, k := ks[..|ks| - 1], ks[|ks| - 1];
      RunRsyncs(A, B, p, keys, front);
      assert k in ks && k !in front;
      RsyncStep(A, B, p.(written := p.written + Elems(front)), keys, k);
      assert p.written + Elems(ks) == p.written + Elems(front) + {k};
      GetsSnoc(Reached(A, B, p, keys), Rsyncs(A, B, front), Rsync(k, A[k], B[k]),
               Reached(A, B, p.(written := p.written + Elems(front)), keys),
               Reached(A, B, p.(written := p.written + Elems(ks)), keys));
    }
  }

  lemma {:induction false} RunDeletes(A: Tree, B: Tree, p: Progress, keys: set<Key>, ks: seq<Key>)
    requires Sound(A, B, p) && Distinct(ks) && Elems(ks) <= keys
    requires Given(A, ks) && forall k :: k in ks ==> k !in p.gone
    ensures Gets(Reached(A, B, p, keys), Deletes(ks), Reached(A, B, p.(gone := p.gone + Elems(ks)), keys))
  {
    if ks == [] {
      assert p.gone + Elems(ks) == p.gone;
    } else {
      var front, k := ks[..|ks| - 1], ks[|ks| - 1];
      RunDeletes(A, B, p, keys, front);
      assert k in ks && k !in front;
      DeleteStep(A, B, p.(gone := p.gone + Elems(front)), keys, k);
      assert p.gone + Elems(ks) == p.gone + Elems(front) + {k};
      GetsSnoc(Reached(A, B, p, keys), Deletes(front), Delete(k),
               Reached(A, B, p.(gone := p.gone + Elems(front)), keys),
               Reached(A, B, p.(gone := p.gone + Elems(ks)), keys));
    }
  }

  // ---------- every good plan turns A into B ----------

  lemma {:induction false} KeysOfParts(A: Tree, B: Tree, plan: Plan)
    requires Scripted(A, B, plan)
    ensures var keys := KeysOf(Script(A, B, plan));
      && Elems(plan.create) <= keys && Elems(plan.backup) <= keys && Froms(plan.copy) <= keys
      && Froms(plan.move) <= keys && Elems(plan.rsync) <= keys && Elems(plan.delete) <= keys
  {
    KeysOfCreates(B, plan.create);
    KeysOfBackups(plan.backup);
    KeysOfCopies(plan.copy);
    KeysOfMoves(plan.move);
    KeysOfRsyncs(A, B, plan.rsync);
    KeysOfDeletes(plan.delete);
    forall act | act in Creates(B, plan.create) || act in Backups(plan.backup) || act in Copies(plan.copy)
                 || act in Moves(plan.move) || act in Rsyncs(A, B, plan.rsync) || act in Deletes(plan.delete)
      ensures act in Script(A, B, plan)
    {
    }
  }

  ghost predicate KeyedBy(acts: seq<Action>, ks: set<Key>) {
    KeysOf(acts) == ks
  }

  lemma KeysOfSnoc(acts: seq<Action>, ks: set<Key>, act: Action)
    requires KeyedBy(acts, ks)
    ensures KeyedBy(acts + [act], ks + {act.key})
  {
    assert KeysOf(acts + [act]) == KeysOf(acts) + {act.key};
  }

  lemma {:induction false} KeysOfCreates(B: Tree, ks: seq<Key>)
    requires Given(B, ks)
    ensures KeysOf(Creates(B, ks)) == Elems(ks)
  {
    if ks != [] {
      var front, k := ks[..|ks| - 1], ks[|ks| - 1];
      KeysOfCreates(B, front);
      KeysOfSnoc(Creates(B, front), Elems(front), Create(k, B[k]));
      assert Elems(ks) == Elems(front) + {k};
    }
  }

  lemma {:induction false} KeysOfBackups(ks: seq<Key>)
    ensures KeysOf(Backups(ks)) == Elems(ks)
  {
    if ks != [] {
      var front, k := ks[..|ks| - 1], ks[|ks| - 1];
      KeysOfBackups(front);
      KeysOfSnoc(Backups(front), Elems(front), Backup(k));
      assert Elems(ks) == Elems(front) + {k};
    }
  }

  lemma {:induction false} KeysOfCopies(links: seq<Link>)
    ensures KeysOf(Copies(links)) == Froms(links)
  {
    if links != [] {
      var front, l := links[..|links| - 1], links[|links| - 1];
      KeysOfCopies(front);
      KeysOfSnoc(Copies(front), Froms(front), CopyTo(l.from, l.to));
      assert Froms(links) == Froms(front) + {l.from};
    }
  }

  lemma {:induction false} KeysOfMoves(links: seq<Link>)
    ensures KeysOf(Moves(links)) == Froms(links)
  {
    if links != [] {
      var front, l := links[..|links| - 1], links[|links| - 1];
      KeysOfMoves(front);
      KeysOfSnoc(Moves(front), Froms(front), MoveTo(l.from, l.to));
      assert Froms(links) == Froms(front) + {l.from};
    }
  }

  lemma {:induction false} KeysOfRsyncs(A: Tree, B: Tree, ks: seq<Key>)
    requires Given(A, ks) && Given(B, ks)
    ensures KeysOf(Rsyncs(A, B, ks)) == Elems(ks)
  {
    if ks != [] {
      var front, k := ks[..|ks| - 1], ks[|ks| - 1];
      KeysOfRsyncs(A, B, front);
      KeysOfSnoc(Rsyncs(A, B, front), Elems(front), Rsync(k, A[k], B[k]));
      assert Elems(ks) == Elems(front) + {k};
    }
  }

  lemma {:induction false} KeysOfDeletes(ks: seq<Key>)
    ensures KeysOf(Deletes(ks)) == Elems(ks)
  {
    if ks != [] {
      var front, k := ks[..|ks| - 1], ks[|ks| - 1];
      KeysOfDeletes(front);
      KeysOfSnoc(Deletes(front), Elems(front), Delete(k));
      assert Elems(ks) == Elems(front) + {k};
    }
  }

  /** A destination that is also a source is backed up before anything is written. */
  lemma SourcesSafe(A: Tree, B: Tree, plan: Plan)
    requires Good(A, B, plan)
    ensures forall l :: l in plan.copy ==>
      l.from in Elems(plan.backup) || l.from !in Elems(plan.create) + Tos(plan.copy)
    ensures forall l :: l in plan.move ==> l.from in Elems(plan.backup) || l.from !in B
  {
    forall l | l in plan.copy ensures l.from in Elems(plan.backup) || l.from !in Elems(plan.create) + Tos(plan.copy) {
      assert Carries(A, B, l) && l.from in Froms(plan.copy);
    }
    forall l | l in plan.move ensures l.from in Elems(plan.backup) || l.from !in B {
      assert Carries(A, B, l) && l.from in Froms(plan.move);
      if l.from in B {
        assert IsDest(A, B, l.from);
      }
    }
  }

  ghost function Final(plan: Plan): Progress {
    var p := Progress(Elems(plan.create) + Tos(plan.copy), {}, Elems(plan.backup), {});
    var q := AllMoved(p, plan.move);
    q.(written := q.written + Elems(plan.rsync), gone := q.gone + Elems(plan.delete))
  }

  /** What is written or kept is B, and all the rest of A is gone. */
  lemma FinalTree(A: Tree, B: Tree, plan: Plan, keys: set<Key>)
    requires Good(A, B, plan) && Sound(A, B, Final(plan))
    ensures Reached(A, B, Final(plan), keys).tree == B
  {
    var p := Final(plan);
    SourcesSafe(A, B, plan);
    forall k | k in p.gone ensures k !in B {
      if k in Froms(plan.move) {
        var l :| l in plan.move && l.from == k;
      }
    }
    forall k | k in B ensures k in p.written || Kept(A, B, k) {
      assert Kept(A, B, k) || IsFresh(A, B, k) || IsRsync(A, B, k) || IsDest(A, B, k);
    }
    forall k | k in A && k !in B ensures k in p.gone {
      if k in Froms(plan.move) {
        assert k !in plan.backup;
      }
    }
  }

  /** Creating, backing up and copying destroy no source. */
  lemma FirstHalf(A: Tree, B: Tree, plan: Plan, keys: set<Key>, p: Progress)
    requires Good(A, B, plan) && Given(B, plan.create)
    requires Elems(plan.create) <= keys && Elems(plan.backup) <= keys && Froms(plan.copy) <= keys
    requires p == Progress(Elems(plan.create) + Tos(plan.copy), {}, Elems(plan.backup), {})
    ensures Sound(A, B, p)
    ensures Gets(Reached(A, B, Outset(), keys),
                 Creates(B, plan.create) + Backups(plan.backup) + Copies(plan.copy), Reached(A, B, p, keys))
  {
    SourcesSafe(A, B, plan);
    var p0 := Outset();
    var p1 := p0.(written := p0.written + Elems(plan.create));
    var p2 := p1.(saved := p1.saved + Elems(plan.backup));
    assert p2.(written := p2.written + Tos(plan.copy)) == p;
    RunCreates(A, B, p0, keys, plan.create);
    RunBackups(A, B, p1, keys, plan.backup);
    RunCopies(A, B, p2, keys, plan.copy);
    var st := Reached(A, B, p0, keys);
    GetsOn(st, Creates(B, plan.create), Reached(A, B, p1, keys), Backups(plan.backup), Reached(A, B, p2, keys));
    GetsOn(st, Creates(B, plan.create) + Backups(plan.backup), Reached(A, B, p2, keys), Copies(plan.copy),
           Reached(A, B, p, keys));
  }

  /** What the moves may not touch: keys still to be rsynced or deleted. */
  lemma LeftAlone(A: Tree, B: Tree, plan: Plan, p: Progress)
    requires Good(A, B, plan) && p == Progress(Elems(plan.create) + Tos(plan.copy), {}, Elems(plan.backup), {})
    ensures var q := AllMoved(p, plan.move);
      && (forall k :: k in plan.rsync ==> k in A && k in B && k !in q.written && k !in q.gone)
      && (forall k :: k in plan.delete ==> k in A && k !in q.gone)
  {
    var q := AllMoved(p, plan.move);
    forall k | k in plan.rsync ensures k in A && k in B && k !in q.written && k !in q.gone {
      assert IsRsync(A, B, k);
      assert !IsDest(A, B, k) && !IsFresh(A, B, k);
    }
  }

  lemma SecondHalf(A: Tree, B: Tree, plan: Plan, keys: set<Key>, p: Progress)
    requires Good(A, B, plan) && Scripted(A, B, plan) && Sound(A, B, p)
    requires Froms(plan.move) <= keys && Elems(plan.rsync) <= keys && Elems(plan.delete) <= keys
    requires p == Progress(Elems(plan.create) + Tos(plan.copy), {}, Elems(plan.backup), {})
    ensures Sound(A, B, Final(plan))
    ensures Gets(Reached(A, B, p, keys), Moves(plan.move) + Rsyncs(A, B, plan.rsync) + Deletes(plan.delete),
                 Reached(A, B, Final(plan), keys))
  {
    SourcesSafe(A, B, plan);
    LeftAlone(A, B, plan, p);
    var q := AllMoved(p, plan.move);
    var q1 := q.(written := q.written + Elems(plan.rsync));
    var q2 := q1.(gone := q1.gone + Elems(plan.delete));
    assert q2 == Final(plan);
    RunMoves(A, B, p, keys, plan.move);
    RunRsyncs(A, B, q, keys, plan.rsync);
    RunDeletes(A, B, q1, keys, plan.delete);
    var st := Reached(A, B, p, keys);
    GetsOn(st, Moves(plan.move), Reached(A, B, q, keys), Rsyncs(A, B, plan.rsync), Reached(A, B, q1, keys));
    GetsOn(st, Moves(plan.move) + Rsyncs(A, B, plan.rsync), Reached(A, B, q1, keys), Deletes(plan.delete),
           Reached(A, B, q2, keys));
  }

  lemma StartReached(A: Tree, B: Tree, s: seq<Action>)
    ensures Start(A, s) == Reached(A, B, Outset(), KeysOf(s))
  {
    assert A == Reached(A, B, Outset(), KeysOf(s)).tree;
  }

  lemma ScriptReaches(A: Tree, B: Tree, plan: Plan)
    requires Good(A, B, plan) && Scripted(A, B, plan)
    ensures Sound(A, B, Final(plan))
    ensures var s := Script(A, B, plan); Gets(Start(A, s), s, Reached(A, B, Final(plan), KeysOf(s)))
  {
    var s := Script(A, B, plan);
    var keys := KeysOf(s);
    var p0 := Outset();
    var p := Progress(Elems(plan.create) + Tos(plan.copy), {}, Elems(plan.backup), {});
    KeysOfParts(A, B, plan);
    FirstHalf(A, B, plan, keys, p);
    SecondHalf(A, B, plan, keys, p);
    StartReached(A, B, s);
    GetsOn(Start(A, s), Creates(B, plan.create) + Backups(plan.backup) + Copies(plan.copy), Reached(A, B, p, keys),
           Moves(plan.move) + Rsyncs(A, B, plan.rsync) + Deletes(plan.delete), Reached(A, B, Final(plan), keys));
  }

  /** Whatever the order of its parts, a good plan takes no error exit and ends in B. */
  lemma GoodPlanWorks(A: Tree, B: Tree, plan: Plan)
    requires Good(A, B, plan) && Scripted(A, B, plan)
    ensures var s := Script(A, B, plan); Run(Start(A, s), s).Ok? && Run(Start(A, s), s).state.tree == B
  {
    ScriptReaches(A, B, plan);
    FinalTree(A, B, plan, KeysOf(Script(A, B, plan)));
  }

  /** No content that A holds is sent: creates and rsyncs carry only new content. */
  lemma OnlyNewContentSent(A: Tree, B: Tree, plan: Plan, act: Action)
    requires Good(A, B, plan) && Scripted(A, B, plan) && act in Script(A, B, plan)
    ensures act.Create? ==> act.key in B && act.content == B[act.key] && act.key !in A && !Found(A, act.content)
    ensures act.Rsync? ==>
      act.key in B && act.dst == B[act.key] && act.key in A && act.src == A[act.key] && !Found(A, act.dst)
  {
    if act.Create? {
      assert act in Creates(B, plan.create);
    } else if act.Rsync? {
      assert act in Rsyncs(A, B, plan.rsync);
    }
  }
}
