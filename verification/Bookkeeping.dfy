/** The server's bookkeeping as a value: one column per field of the path nodes, fid references and files. */
module Bookkeeping {
  import opened Objects
  import opened Forest

  /** A fid of one connection. */
  datatype Key = Key(conn: nat, fid: nat)

  /** What never changes about a reference. */
  datatype Ref = Ref(node: PathNode, file: File, dir: bool)

  type Refs = map<FidRef, Ref>
  type Names = map<PathNode, map<FidRef, string>>
  type Counts = map<FidRef, int>
  type Parents = map<FidRef, FidRef?>
  type Fids = map<Key, FidRef>

  datatype Store = Store(
    root: PathNode,
    kids: Kids,                     // childNodes
    deleted: set<PathNode>,
    names: Names,                   // childRefNames
    what: Refs,
    count: Counts,                  // refs
    parent: Parents,
    isOpen: set<FidRef>,
    path: map<File, seq<string>>,
    closes: map<File, nat>,
    fids: Fids
  )

  function Cnt(count: Counts, r: FidRef): int { if r in count then count[r] else 0 }

  function Par(parent: Parents, r: FidRef): FidRef? { if r in parent then parent[r] else null }

  function At(names: Names, n: PathNode): map<FidRef, string> { if n in names then names[n] else map[] }

  function PathOf(path: map<File, seq<string>>, f: File): seq<string> { if f in path then path[f] else [] }

  function Closes(closes: map<File, nat>, f: File): nat { if f in closes then closes[f] else 0 }

  /** The reference k parents above `r`; null once the chain has ended. */
  ghost function Up(parent: Parents, r: FidRef?, k: nat): FidRef?
  {
    if k == 0 || r == null then r else Up(parent, Par(parent, r), k - 1)
  }

  ghost function Binds(fids: Fids, r: FidRef): set<Key>
  {
    set k | k in fids && fids[k] == r
  }

  ghost function Children(count: Counts, parent: Parents, r: FidRef): set<FidRef>
  {
    set x | x in parent && parent[x] == r && Cnt(count, x) > 0
  }

  ghost function Dead(count: Counts, what: Refs, f: File): set<FidRef>
  {
    set r | r in what && what[r].file == f && Cnt(count, r) == 0
  }

  // ---- the invariant, one clause per concern -----------------------------

  ghost predicate Known(kids: Kids, names: Names, what: Refs, count: Counts, parent: Parents, fids: Fids)
  {
    && (forall n | n in names :: n in kids)
    && (forall r | r in what :: what[r].node in kids)
    && (forall r | r in count :: r in what && count[r] >= 0)
    && (forall r {:trigger parent[r]} | r in parent :: r in what && (parent[r] == null || parent[r] in what))
    && (forall k | k in fids :: fids[k] in what)
  }

  /** Every registered child reference is alive, hangs from a reference on that node, and shares the named child
      node. */
  ghost predicate Registered(kids: Kids, names: Names, what: Refs, count: Counts, parent: Parents)
  {
    forall n, r | n in names && r in names[n] :: Filed(kids, what, count, parent, n, r, names[n][r])
  }

  ghost predicate Filed(kids: Kids, what: Refs, count: Counts, parent: Parents, n: PathNode, r: FidRef, name: string)
  {
    var p := Par(parent, r);
    && r in what && Cnt(count, r) > 0
    && p != null && p in what && what[p].node == n
    && Hangs(kids, n, name, what[r].node)
  }

  /** A live reference with a parent is registered there unless its node was deleted. */
  ghost predicate Present(deleted: set<PathNode>, names: Names, what: Refs, count: Counts, parent: Parents)
  {
    forall r | r in what && Cnt(count, r) > 0 && Par(parent, r) != null && what[r].node !in deleted ::
      Par(parent, r) in what && r in At(names, what[Par(parent, r)].node)
  }

  /** Parents are directories; a parentless reference off the root (an xattr fid or its clone) is not one. */
  ghost predicate Lineage(root: PathNode, what: Refs, parent: Parents)
  {
    forall r | r in what ::
      if Par(parent, r) == null then what[r].node == root || !what[r].dir
      else what[r].node != root && Par(parent, r) in what && what[Par(parent, r)].dir
  }

  /** Every parent chain ends. */
  ghost predicate Grounded(parent: Parents)
  {
    forall r | r in parent :: Ends(parent, r)
  }

  ghost predicate Ends(parent: Parents, r: FidRef)
  {
    exists k: nat :: Up(parent, r, k) == null
  }

  /** A count is the table entries plus the live children plus the references a handler is holding. */
  ghost predicate Counted(what: Refs, count: Counts, parent: Parents, fids: Fids, held: multiset<FidRef>)
  {
    && (forall r | r in held :: r in what)
    && (forall r | r in what :: Cnt(count, r) == |Binds(fids, r)| + |Children(count, parent, r)| + held[r])
  }

  /** Each backing file has been closed once for every reference to it that has died. */
  ghost predicate ClosedOnce(what: Refs, count: Counts, closes: map<File, nat>)
  {
    forall r | r in what :: Closes(closes, what[r].file) == |Dead(count, what, what[r].file)|
  }

  /** References share a file only with the xattr fids made from them. */
  ghost predicate Sharing(what: Refs, parent: Parents)
  {
    forall r, x | r in what && x in what && r != x && what[r].file == what[x].file ::
      what[r].node == what[x].node && (Par(parent, r) == null || Par(parent, x) == null)
  }

  ghost predicate Tracked(root: PathNode, what: Refs, parent: Parents, r: FidRef)
  {
    r in what && (Par(parent, r) != null || what[r].node == root)
  }

  /** The path a live, undeleted reference's file holds leads from the root to the reference's own node. */
  ghost predicate Paths(root: PathNode, kids: Kids, deleted: set<PathNode>, what: Refs, count: Counts, parent: Parents,
                        path: map<File, seq<string>>)
  {
    forall r | r in what && Cnt(count, r) > 0 && Tracked(root, what, parent, r) && what[r].node !in deleted ::
      From(kids, root, PathOf(path, what[r].file)) == what[r].node
  }

  /** What holds between two steps of a handler that holds the references in `held`. */
  ghost predicate Inv(s: Store, held: multiset<FidRef>)
  {
    && Known(s.kids, s.names, s.what, s.count, s.parent, s.fids)
    && Tree(s.root, s.kids, s.deleted)
    && Registered(s.kids, s.names, s.what, s.count, s.parent)
    && Present(s.deleted, s.names, s.what, s.count, s.parent)
    && Lineage(s.root, s.what, s.parent)
    && Grounded(s.parent)
    && Counted(s.what, s.count, s.parent, s.fids, held)
    && ClosedOnce(s.what, s.count, s.closes)
    && Sharing(s.what, s.parent)
    && Paths(s.root, s.kids, s.deleted, s.what, s.count, s.parent, s.path)
  }

  // ---- taking and dropping references ------------------------------------

  ghost function IncRef(s: Store, r: FidRef): Store
  {
    s.(count := s.count[r := Cnt(s.count, r) + 1])
  }

  /** The last reference goes: the file is closed and the parent forgets the child. */
  ghost function Die(s: Store, r: FidRef): Store
    requires r in s.what
  {
    s.(count := s.count[r := 0],
       closes := s.closes[s.what[r].file := Closes(s.closes, s.what[r].file) + 1],
       names := Forget(s.names, s.what, s.parent, r))
  }

  ghost function Forget(names: Names, what: Refs, parent: Parents, r: FidRef): Names
  {
    var p := Par(parent, r);
    if p == null || p !in what then names else names[what[p].node := At(names, what[p].node) - {r}]
  }

  ghost predicate SameLife(what: Refs, count: Counts, count': Counts)
  {
    forall x | x in what :: (Cnt(count, x) > 0) == (Cnt(count', x) > 0)
  }

  lemma SameFiling(kids: Kids, deleted: set<PathNode>, names: Names, what: Refs, count: Counts, count': Counts,
                   parent: Parents)
    requires SameLife(what, count, count')
    requires Registered(kids, names, what, count, parent) && Present(deleted, names, what, count, parent)
    ensures Registered(kids, names, what, count', parent) && Present(deleted, names, what, count', parent)
  {
    forall n, r | n in names && r in names[n] ensures Filed(kids, what, count', parent, n, r, names[n][r]) {
      assert Filed(kids, what, count, parent, n, r, names[n][r]);
    }
  }

  lemma SameCounting(what: Refs, count: Counts, count': Counts, parent: Parents, fids: Fids,
                     held: multiset<FidRef>, held': multiset<FidRef>)
    requires SameLife(what, count, count')
    requires forall x | x in parent :: x in what
    requires Counted(what, count, parent, fids, held)
    requires forall x | x in what :: Cnt(count', x) + held[x] == Cnt(count, x) + held'[x]
    requires forall x | x in held' :: x in what
    ensures Counted(what, count', parent, fids, held')
  {
    forall x | x in what ensures Children(count', parent, x) == Children(count, parent, x) {
    }
  }

  lemma StillClosed(what: Refs, count: Counts, count': Counts, closes: map<File, nat>)
    requires ClosedOnce(what, count, closes)
    requires forall x | x in what :: Cnt(count, x) == 0 <==> Cnt(count', x) == 0
    ensures ClosedOnce(what, count', closes)
  {
    forall x | x in what ensures Dead(count', what, what[x].file) == Dead(count, what, what[x].file) {
    }
  }

  lemma SamePaths(root: PathNode, kids: Kids, deleted: set<PathNode>, what: Refs, count: Counts, count': Counts,
                  parent: Parents, path: map<File, seq<string>>)
    requires Paths(root, kids, deleted, what, count, parent, path)
    requires forall x | x in what :: Cnt(count', x) > 0 ==> Cnt(count, x) > 0
    ensures Paths(root, kids, deleted, what, count', parent, path)
  {
    hide From, Tracked;
  }

  /** Counts that agree on who is alive agree on everything but the counts themselves. */
  lemma LifeKept(s: Store, count': Counts, held: multiset<FidRef>, held': multiset<FidRef>)
    requires Inv(s, held) && SameLife(s.what, s.count, count')
    requires Known(s.kids, s.names, s.what, count', s.parent, s.fids)
    requires forall x | x in s.what :: Cnt(count', x) + held[x] == Cnt(s.count, x) + held'[x]
    requires forall x | x in held' :: x in s.what
    ensures Inv(s.(count := count'), held')
  {
    hide Tree, Registered, Present, Lineage, Grounded, Counted, ClosedOnce, Sharing, Paths;
    SameFiling(s.kids, s.deleted, s.names, s.what, s.count, count', s.parent);
    SameCounting(s.what, s.count, count', s.parent, s.fids, held, held');
    StillClosed(s.what, s.count, count', s.closes);
    SamePaths(s.root, s.kids, s.deleted, s.what, s.count, count', s.parent, s.path);
  }

  lemma IncRefKeeps(s: Store, held: multiset<FidRef>, r: FidRef)
    requires Inv(s, held) && Cnt(s.count, r) > 0
    ensures Inv(IncRef(s, r), held + multiset{r})
  {
    hide Tree, Registered, Present, Lineage, Grounded, Counted, ClosedOnce, Sharing, Paths;
    HeldKnown(s, held);
    LifeKept(s, IncRef(s, r).count, held, held + multiset{r});
  }

  lemma HeldKnown(s: Store, held: multiset<FidRef>)
    requires Known(s.kids, s.names, s.what, s.count, s.parent, s.fids)
    requires Counted(s.what, s.count, s.parent, s.fids, held)
    ensures forall x | x in held :: x in s.what && Cnt(s.count, x) > 0
    ensures forall k | k in s.fids :: Cnt(s.count, s.fids[k]) > 0
  {
    forall k | k in s.fids ensures Cnt(s.count, s.fids[k]) > 0 {
      assert k in Binds(s.fids, s.fids[k]);
    }
  }

  ghost function Owed(parent: Parents, r: FidRef): multiset<FidRef>
  {
    if Par(parent, r) == null then multiset{} else multiset{Par(parent, r)}
  }

  lemma FewerChildren(count: Counts, parent: Parents, r: FidRef, x: FidRef)
    requires Cnt(count, r) > 0
    ensures |Children(count, parent, x)| == |Children(count[r := 0], parent, x)| + if Par(parent, r) == x then 1 else 0
  {
    if x == Par(parent, r) {
      assert Children(count, parent, x) == Children(count[r := 0], parent, x) + {r};
    } else {
      assert Children(count, parent, x) == Children(count[r := 0], parent, x);
    }
  }

  lemma DieCounts(what: Refs, count: Counts, parent: Parents, fids: Fids, held: multiset<FidRef>, r: FidRef)
    requires Counted(what, count, parent, fids, held) && r in held && Cnt(count, r) == 1
    requires Par(parent, r) == null || Par(parent, r) in what
    ensures Counted(what, count[r := 0], parent, fids, held - multiset{r} + Owed(parent, r))
  {
    hide Children, Binds;
    var held' := held - multiset{r} + Owed(parent, r);
    FewerChildren(count, parent, r, r);
    forall x | x in what
      ensures Cnt(count[r := 0], x) == |Binds(fids, x)| + |Children(count[r := 0], parent, x)| + held'[x]
    {
      FewerChildren(count, parent, r, x);
    }
  }

  lemma DieCloses(what: Refs, count: Counts, closes: map<File, nat>, r: FidRef)
    requires ClosedOnce(what, count, closes) && r in what && Cnt(count, r) > 0
    ensures ClosedOnce(what, count[r := 0], closes[what[r].file := Closes(closes, what[r].file) + 1])
  {
    forall x | x in what
      ensures |Dead(count[r := 0], what, what[x].file)|
           == |Dead(count, what, what[x].file)| + if what[x].file == what[r].file then 1 else 0
    {
      var f := what[x].file;
      if f == what[r].file {
        assert Dead(count[r := 0], what, f) == Dead(count, what, f) + {r};
      } else {
        assert Dead(count[r := 0], what, f) == Dead(count, what, f);
      }
    }
  }

  lemma DieRegistered(kids: Kids, names: Names, what: Refs, count: Counts, parent: Parents, r: FidRef)
    requires Registered(kids, names, what, count, parent)
    ensures Registered(kids, Forget(names, what, parent, r), what, count[r := 0], parent)
  {
    var names' := Forget(names, what, parent, r);
    forall n, x | n in names' && x in names'[n]
      ensures Filed(kids, what, count[r := 0], parent, n, x, names'[n][x])
    {
      assert n in names && x in names[n];
      assert Filed(kids, what, count, parent, n, x, names[n][x]);
    }
  }

  lemma DiePresent(deleted: set<PathNode>, names: Names, what: Refs, count: Counts, parent: Parents, r: FidRef)
    requires Present(deleted, names, what, count, parent)
    ensures Present(deleted, Forget(names, what, parent, r), what, count[r := 0], parent)
  {
  }

  lemma DieKeeps(s: Store, held: multiset<FidRef>, r: FidRef)
    requires Inv(s, held) && r in held && Cnt(s.count, r) == 1
    ensures Inv(Die(s, r), held - multiset{r} + Owed(s.parent, r))
  {
    hide Tree, Registered, Present, Lineage, Grounded, Counted, ClosedOnce, Sharing, Paths;
    HeldKnown(s, held);
    SamePaths(s.root, s.kids, s.deleted, s.what, s.count, s.count[r := 0], s.parent, s.path);
    DieCounts(s.what, s.count, s.parent, s.fids, held, r);
    DieCloses(s.what, s.count, s.closes, r);
    DieRegistered(s.kids, s.names, s.what, s.count, s.parent, r);
    DiePresent(s.deleted, s.names, s.what, s.count, s.parent, r);
  }

  /** DecRef: drop one reference, and let the deaths climb the parent chain (k bounds its length). */
  ghost function DecRef(s: Store, r: FidRef, k: nat): (s': Store)
    requires Up(s.parent, r, k) == null
    ensures s' == s.(count := s'.count, closes := s'.closes, names := s'.names)
    decreases k
  {
    if Cnt(s.count, r) != 1 || r !in s.what then s.(count := s.count[r := Cnt(s.count, r) - 1])
    else if Par(s.parent, r) == null then Die(s, r)
    else DecRef(Die(s, r), Par(s.parent, r), k - 1)
  }

  /** One unfolding of DecRef. */
  lemma DecRefStep(s: Store, r: FidRef, k: nat)
    requires r in s.what && Up(s.parent, r, k) == null
    ensures Cnt(s.count, r) != 1 ==> DecRef(s, r, k) == s.(count := s.count[r := Cnt(s.count, r) - 1])
    ensures Die(s, r)
              == s.(count := s.count[r := 0], closes :=
                s.closes[s.what[r].file := Closes(s.closes, s.what[r].file) + 1],
                            names := Forget(s.names, s.what, s.parent, r))
    ensures Cnt(s.count, r) == 1 ==>
              if Par(s.parent, r) == null then DecRef(s, r, k) == Die(s, r)
              else (k > 0 && Up(s.parent, Par(s.parent, r), k - 1) == null
                    && DecRef(s, r, k) == DecRef(Die(s, r), Par(s.parent, r), k - 1))
  {
  }

  ghost function Height(parent: Parents, r: FidRef): (k: nat)
    requires Ends(parent, r)
    ensures Up(parent, r, k) == null
  {
    var k: nat :| Up(parent, r, k) == null;
    k
  }

  ghost function Drop(s: Store, r: FidRef): (s': Store)
    requires Ends(s.parent, r)
  {
    DecRef(s, r, Height(s.parent, r))
  }

  lemma ReleaseKeeps(s: Store, held: multiset<FidRef>, r: FidRef)
    requires Inv(s, held) && r in held && Cnt(s.count, r) != 1
    ensures Inv(s.(count := s.count[r := Cnt(s.count, r) - 1]), held - multiset{r})
  {
    hide Tree, Registered, Present, Lineage, Grounded, Counted, ClosedOnce, Sharing, Paths;
    HeldKnown(s, held);
    LifeKept(s, s.count[r := Cnt(s.count, r) - 1], held, held - multiset{r});
  }

  lemma {:induction false} DecRefKeeps(s: Store, held: multiset<FidRef>, r: FidRef, k: nat)
    requires Inv(s, held) && r in held && Up(s.parent, r, k) == null
    ensures Inv(DecRef(s, r, k), held - multiset{r})
    decreases k
  {
    hide Inv, Known;
    assert r in s.what by { HeldIn(s, held, r); }
    if Cnt(s.count, r) != 1 {
      ReleaseKeeps(s, held, r);
    } else {
      DieKeeps(s, held, r);
      var p := Par(s.parent, r);
      if p == null {
        assert held - multiset{r} + Owed(s.parent, r) == held - multiset{r};
      } else {
        DecRefKeeps(Die(s, r), held - multiset{r} + multiset{p}, p, k - 1);
        assert held - multiset{r} + multiset{p} - multiset{p} == held - multiset{r};
      }
    }
  }

  lemma HeldIn(s: Store, held: multiset<FidRef>, r: FidRef)
    requires Inv(s, held) && r in held
    ensures r in s.what && Cnt(s.count, r) > 0 && Ends(s.parent, r)
  {
    hide Tree, Registered, Present, Lineage, Counted, ClosedOnce, Sharing, Paths;
    HeldKnown(s, held);
    if r !in s.parent { assert Up(s.parent, r, 1) == null; }
  }

  // ---- the fid table ------------------------------------------------------

  /** Put `r` in a slot; the table takes over the caller's reference to it. */
  ghost function Install(s: Store, key: Key, r: FidRef): Store
  {
    s.(fids := s.fids[key := r])
  }

  ghost function Unbind(s: Store, key: Key): Store
  {
    s.(fids := s.fids - {key})
  }

  /** The reference a slot held, now the caller's to drop. */
  ghost function Evicted(fids: Fids, key: Key): multiset<FidRef>
  {
    if key in fids then multiset{fids[key]} else multiset{}
  }

  lemma InstallBinds(fids: Fids, key: Key, r: FidRef, x: FidRef)
    ensures |Binds(fids[key := r], x)| + Evicted(fids, key)[x] == |Binds(fids, x)| + multiset{r}[x]
  {
    var rest := Binds(fids, x) - {key};
    assert Binds(fids[key := r], x) == if x == r then rest + {key} else rest;
    assert Binds(fids, x) == if key in fids && fids[key] == x then rest + {key} else rest;
  }

  lemma InstallCounts(what: Refs, count: Counts, parent: Parents, fids: Fids, held: multiset<FidRef>, key: Key,
                      r: FidRef)
    requires Counted(what, count, parent, fids, held) && r in held
    requires key in fids ==> fids[key] in what
    ensures Counted(what, count, parent, fids[key := r], held - multiset{r} + Evicted(fids, key))
  {
    hide Children, Binds;
    forall x | x in what
      ensures Cnt(count, x) == |Binds(fids[key := r], x)| + |Children(count, parent, x)|
                + (held - multiset{r} + Evicted(fids, key))[x]
    {
      InstallBinds(fids, key, r, x);
    }
  }

  lemma InstallKeeps(s: Store, held: multiset<FidRef>, key: Key, r: FidRef)
    requires Inv(s, held) && r in held
    ensures Inv(Install(s, key, r), held - multiset{r} + Evicted(s.fids, key))
  {
    hide Tree, Registered, Present, Lineage, Grounded, Counted, ClosedOnce, Sharing, Paths;
    HeldKnown(s, held);
    InstallCounts(s.what, s.count, s.parent, s.fids, held, key, r);
  }

  lemma UnbindCounts(what: Refs, count: Counts, parent: Parents, fids: Fids, held: multiset<FidRef>, key: Key)
    requires Counted(what, count, parent, fids, held) && key in fids && fids[key] in what
    ensures Counted(what, count, parent, fids - {key}, held + multiset{fids[key]})
  {
    hide Children;
    forall x | x in what
      ensures |Binds(fids - {key}, x)| + (if fids[key] == x then 1 else 0) == |Binds(fids, x)|
    {
      assert Binds(fids, x) == if fids[key] == x then Binds(fids - {key}, x) + {key} else Binds(fids - {key}, x);
    }
  }

  lemma UnbindKeeps(s: Store, held: multiset<FidRef>, key: Key)
    requires Inv(s, held) && key in s.fids
    ensures Inv(Unbind(s, key), held + multiset{s.fids[key]})
  {
    hide Tree, Registered, Present, Lineage, Grounded, Counted, ClosedOnce, Sharing, Paths;
    UnbindCounts(s.what, s.count, s.parent, s.fids, held, key);
  }

  // ---- new references ------------------------------------------------------

  /** A new reference with one holder: the running handler, whose hold on the parent passes to the child. */
  ghost function Spawn(s: Store, x: FidRef, w: Ref, p: FidRef?, names: Names, path: map<File, seq<string>>): Store
  {
    s.(what := s.what[x := w], count := s.count[x := 1], parent := s.parent[x := p], names := names, path := path)
  }

  ghost function SpawnHeld(held: multiset<FidRef>, x: FidRef, p: FidRef?): multiset<FidRef>
  {
    if p == null then held + multiset{x} else held + multiset{x} - multiset{p}
  }

  /** Registering `x` under `name` in the node of its parent `p`. */
  ghost function Enrol(names: Names, n: PathNode, x: FidRef, name: string): Names
  {
    names[n := At(names, n)[x := name]]
  }

  lemma SpawnChildren(count: Counts, parent: Parents, x: FidRef, p: FidRef?, r: FidRef)
    requires x !in parent
    ensures |Children(count[x := 1], parent[x := p], r)| == |Children(count, parent, r)| + if r == p then 1 else 0
  {
    assert Children(count[x := 1], parent[x := p], r) == Children(count, parent, r) + if r == p then {x} else {};
  }

  lemma SpawnCounts(what: Refs, count: Counts, parent: Parents, fids: Fids, held: multiset<FidRef>, x: FidRef, w: Ref,
                    p: FidRef?)
    requires Counted(what, count, parent, fids, held) && x !in what && x !in parent
    requires p != null ==> p in held
    requires Binds(fids, x) == {} && Children(count, parent, x) == {}
    ensures Counted(what[x := w], count[x := 1], parent[x := p], fids, SpawnHeld(held, x, p))
  {
    hide Children, Binds;
    forall r | r in what[x := w]
      ensures Cnt(count[x := 1], r) == |Binds(fids, r)| + |Children(count[x := 1], parent[x := p], r)|
                + SpawnHeld(held, x, p)[r]
    {
      SpawnChildren(count, parent, x, p, r);
    }
  }

  lemma SpawnCloses(what: Refs, count: Counts, closes: map<File, nat>, x: FidRef, w: Ref)
    requires ClosedOnce(what, count, closes) && x !in what
    requires (exists y :: y in what && what[y].file == w.file) || Closes(closes, w.file) == 0
    ensures ClosedOnce(what[x := w], count[x := 1], closes)
  {
    forall f: File ensures Dead(count[x := 1], what[x := w], f) == Dead(count, what, f) {
    }
    if forall y | y in what :: what[y].file != w.file {
      assert Dead(count, what, w.file) == {};
    }
  }

  lemma {:induction false} UpGrows(parent: Parents, x: FidRef, p: FidRef?, r: FidRef?, k: nat)
    requires x !in parent && r != x && forall y {:trigger parent[y]} | y in parent :: parent[y] != x
    ensures Up(parent[x := p], r, k) == Up(parent, r, k)
    decreases k
  {
    if k > 0 && r != null {
      UpGrows(parent, x, p, Par(parent, r), k - 1);
    }
  }

  lemma SpawnGrounded(parent: Parents, x: FidRef, p: FidRef?)
    requires Grounded(parent) && x !in parent && forall y {:trigger parent[y]} | y in parent :: parent[y] != x
    requires p == null || (p != x && Ends(parent, p))
    ensures Grounded(parent[x := p])
  {
    forall r | r in parent ensures Ends(parent[x := p], r) {
      var k :| Up(parent, r, k) == null;
      UpGrows(parent, x, p, r, k);
    }
    if p == null {
      assert Up(parent[x := p], x, 1) == null;
    } else {
      var k: nat :| Up(parent, p, k) == null;
      UpGrows(parent, x, p, p, k);
      assert Up(parent[x := p], x, k + 1) == null;
    }
  }

  /** The registration that goes with a new reference. */
  ghost predicate Enrols(kids: Kids, deleted: set<PathNode>, names: Names, what: Refs, x: FidRef, w: Ref, p: FidRef?,
                         names': Names)
  {
    if p == null || w.node in deleted then names' == names
    else p in what && exists name ::
        Hangs(kids, what[p].node, name, w.node) && names' == Enrol(names, what[p].node, x, name)
  }

  lemma SpawnFiled(kids: Kids, deleted: set<PathNode>, names: Names, what: Refs, count: Counts, parent: Parents,
                   x: FidRef, w: Ref, p: FidRef?, names': Names)
    requires Registered(kids, names, what, count, parent) && x !in what && p != x
    requires Enrols(kids, deleted, names, what, x, w, p, names')
    ensures Registered(kids, names', what[x := w], count[x := 1], parent[x := p])
  {
    hide Hangs;
    forall n, r | n in names' && r in names'[n]
      ensures Filed(kids, what[x := w], count[x := 1], parent[x := p], n, r, names'[n][r])
    {
      if n in names && r in names[n] && names[n][r] == names'[n][r] {
        assert Filed(kids, what, count, parent, n, r, names[n][r]);
      }
    }
  }

  lemma SpawnPresent(kids: Kids, deleted: set<PathNode>, names: Names, what: Refs, count: Counts, parent: Parents,
                     x: FidRef, w: Ref, p: FidRef?, names': Names)
    requires Present(deleted, names, what, count, parent) && x !in what
    requires Enrols(kids, deleted, names, what, x, w, p, names')
    ensures Present(deleted, names', what[x := w], count[x := 1], parent[x := p])
  {
    hide Hangs;
  }

  /** A new reference either owns a new file holding its path, or shares the file of the reference it was made from. */
  ghost predicate FileFor(s: Store, w: Ref, p: FidRef?, path: map<File, seq<string>>)
  {
    if forall y | y in s.what :: s.what[y].file != w.file then
      && Closes(s.closes, w.file) == 0
      && path == s.path[w.file := PathOf(path, w.file)]
      && ((p != null || w.node == s.root) && w.node !in s.deleted ==>
            From(s.kids, s.root, PathOf(path, w.file)) == w.node)
    else
      && p == null && path == s.path
      && (forall y | y in s.what && s.what[y].file == w.file :: s.what[y].node == w.node)
      && (w.node == s.root ==> From(s.kids, s.root, PathOf(s.path, w.file)) == w.node)
  }

  lemma SpawnSharing(s: Store, x: FidRef, w: Ref, p: FidRef?, path: map<File, seq<string>>)
    requires Sharing(s.what, s.parent) && x !in s.what && FileFor(s, w, p, path)
    ensures Sharing(s.what[x := w], s.parent[x := p])
  {
    hide From;
  }

  lemma SpawnPaths(s: Store, x: FidRef, w: Ref, p: FidRef?, path: map<File, seq<string>>)
    requires Paths(s.root, s.kids, s.deleted, s.what, s.count, s.parent, s.path) && x !in s.what
    requires FileFor(s, w, p, path)
    ensures Paths(s.root, s.kids, s.deleted, s.what[x := w], s.count[x := 1], s.parent[x := p], path)
  {
    hide From;
  }

  lemma SpawnKeeps(s: Store, held: multiset<FidRef>, x: FidRef, w: Ref, p: FidRef?, names: Names, path: map<File,
                   seq<string>>)
    requires Inv(s, held) && x !in s.what && w.node in s.kids
    requires if p == null then w.node == s.root || !w.dir
             else p in held && w.node != s.root && p in s.what && s.what[p].dir
    requires Enrols(s.kids, s.deleted, s.names, s.what, x, w, p, names)
    requires FileFor(s, w, p, path)
    ensures Inv(Spawn(s, x, w, p, names, path), SpawnHeld(held, x, p))
  {
    hide Tree, Registered, Present, Lineage, Grounded, Counted, ClosedOnce, Sharing, Paths, FileFor, Hangs, Ends;
    if p != null { HeldIn(s, held, p); }
    SpawnFiled(s.kids, s.deleted, s.names, s.what, s.count, s.parent, x, w, p, names);
    SpawnPresent(s.kids, s.deleted, s.names, s.what, s.count, s.parent, x, w, p, names);
    SpawnGrounded(s.parent, x, p);
    assert Binds(s.fids, x) == {} && Children(s.count, s.parent, x) == {};
    SpawnCounts(s.what, s.count, s.parent, s.fids, held, x, w, p);
    SpawnFile(s, x, w, p, path);
    SpawnLineage(s.root, s.what, s.parent, x, w, p);
  }

  lemma SpawnLineage(root: PathNode, what: Refs, parent: Parents, x: FidRef, w: Ref, p: FidRef?)
    requires Lineage(root, what, parent) && x !in what
    requires if p == null then w.node == root || !w.dir else w.node != root && p in what && what[p].dir
    ensures Lineage(root, what[x := w], parent[x := p])
  {
  }

  lemma SpawnFile(s: Store, x: FidRef, w: Ref, p: FidRef?, path: map<File, seq<string>>)
    requires ClosedOnce(s.what, s.count, s.closes) && Sharing(s.what, s.parent)
    requires Paths(s.root, s.kids, s.deleted, s.what, s.count, s.parent, s.path)
    requires x !in s.what && FileFor(s, w, p, path)
    ensures ClosedOnce(s.what[x := w], s.count[x := 1], s.closes) && Sharing(s.what[x := w], s.parent[x := p])
    ensures Paths(s.root, s.kids, s.deleted, s.what[x := w], s.count[x := 1], s.parent[x := p], path)
  {
    hide ClosedOnce, Sharing, Paths, From;
    SpawnCloses(s.what, s.count, s.closes, x, w);
    SpawnSharing(s, x, w, p, path);
    SpawnPaths(s, x, w, p, path);
  }
}
