/** What the invariant promises in the server's own terms. */
module Consequences {
  import opened Objects
  import opened Forest
  import opened Bookkeeping
  import opened Reshape
  import opened Handlers
  import opened Safety
  import opened Runs

  // ---- paths -------------------------------------------------------------------

  /** In every state of every run, a live undeleted reference holds the one path from the root to its node. */
  lemma PathRefinement(root: PathNode, trace: seq<Store>, events: seq<Event>, i: nat, r: FidRef, p: seq<string>)
    requires Run(trace, events) && trace[0] == Initial(root) && i <= |events|
    requires var s := trace[i]; r in s.what && Cnt(s.count, r) > 0 && s.what[r].node !in s.deleted
    requires var s := trace[i]; Par(s.parent, r) != null || s.what[r].node == s.root
    ensures var s := trace[i]; From(s.kids, s.root, p) == s.what[r].node <==> p == PathOf(s.path, s.what[r].file)
  {
    RunKeeps(root, trace, events, i);
    var s := trace[i];
    hide Apply, Allowed, Known, Registered, Present, Grounded, Counted, ClosedOnce, Sharing, From;
    PathHolds(s, r);
    if From(s.kids, s.root, p) == s.what[r].node {
      PathUnique(s.kids, s.root, p, PathOf(s.path, s.what[r].file));
    }
  }

  // ---- reference counts -----------------------------------------------------------

  lemma {:induction false} UpStays(parent: Parents, r: FidRef?, k: nat, j: nat)
    requires Up(parent, r, k) == null && k <= j
    ensures Up(parent, r, j) == null
    decreases j
  {
    if j > k {
      UpSplit(parent, r, j - 1);
      UpStays(parent, r, k, j - 1);
    }
  }

  /** A bound on the length of every parent chain. */
  lemma {:induction false} HeightBound(parent: Parents, refs: set<FidRef>) returns (k: nat)
    requires forall r | r in refs :: Ends(parent, r)
    ensures forall r | r in refs :: Up(parent, r, k) == null
    decreases refs
  {
    if refs == {} { return 0; }
    var r :| r in refs;
    var j := HeightBound(parent, refs - {r});
    var h := Height(parent, r);
    k := if h < j then j else h;
    forall x | x in refs ensures Up(parent, x, k) == null {
      if x == r { UpStays(parent, x, h, k); } else { UpStays(parent, x, j, k); }
    }
  }

  lemma HasChild(s: Store, x: FidRef) returns (y: FidRef)
    requires Inv(s, multiset{}) && s.fids == map[] && x in s.what && Cnt(s.count, x) > 0
    ensures y in s.what && Cnt(s.count, y) > 0 && Par(s.parent, y) == x
  {
    hide Tree, Registered, Present, Lineage, Grounded, ClosedOnce, Sharing, Paths;
    assert Binds(s.fids, x) == {};
    y :| y in Children(s.count, s.parent, x);
  }

  /** A live reference that no table holds has live descendants at every depth. */
  lemma {:induction false} LiveHasDescendant(s: Store, r: FidRef, k: nat) returns (x: FidRef)
    requires Inv(s, multiset{}) && s.fids == map[] && r in s.what && Cnt(s.count, r) > 0
    ensures x in s.what && Cnt(s.count, x) > 0 && Up(s.parent, x, k) == r
    decreases k
  {
    hide Inv;
    if k == 0 { return r; }
    var y := LiveHasDescendant(s, r, k - 1);
    x := HasChild(s, y);
  }

  /** When no fid is bound any more, no reference is alive and each unshared file has been closed exactly once. */
  lemma AllClosed(s: Store)
    requires Inv(s, multiset{}) && s.fids == map[]
    ensures forall r | r in s.what :: Cnt(s.count, r) == 0
    ensures forall r | r in s.what && (forall x | x in s.what && x != r :: s.what[x].file != s.what[r].file) ::
              Closes(s.closes, s.what[r].file) == 1
  {
    hide Inv;
    AllEnd(s, multiset{});
    var k := HeightBound(s.parent, s.what.Keys);
    forall r | r in s.what ensures Cnt(s.count, r) == 0 {
      CountsKnown(s, r);
      if Cnt(s.count, r) > 0 {
        var x := LiveHasDescendant(s, r, k);
      }
    }
    forall r | r in s.what && (forall x | x in s.what && x != r :: s.what[x].file != s.what[r].file)
      ensures Closes(s.closes, s.what[r].file) == 1
    {
      ClosedWhenDead(s, multiset{}, r);
    }
  }

  lemma CountsKnown(s: Store, r: FidRef)
    requires Inv(s, multiset{}) && r in s.what
    ensures Cnt(s.count, r) >= 0
  {
  }

  /** A file of its own is closed once its reference is dead, and not before. */
  lemma ClosedWhenDead(s: Store, held: multiset<FidRef>, r: FidRef)
    requires Inv(s, held) && r in s.what && forall x | x in s.what && x != r :: s.what[x].file != s.what[r].file
    ensures Closes(s.closes, s.what[r].file) == if Cnt(s.count, r) == 0 then 1 else 0
  {
    hide Known, Tree, Registered, Present, Lineage, Grounded, Counted, Sharing, Paths;
    assert Dead(s.count, s.what, s.what[r].file) == if Cnt(s.count, r) == 0 then {r} else {};
  }

  // ---- deletion ---------------------------------------------------------------------

  lemma PutShape(s: Store, r: FidRef)
    ensures var s' := Put(s, r); s' == s.(count := s'.count, closes := s'.closes, names := s'.names)
  {
    hide DecRef;
  }

  lemma ClearShape(s: Store, key: Key)
    ensures Clear(s, key).deleted == s.deleted && Clear(s, key).kids == s.kids && Clear(s, key).root == s.root
  {
    hide Put;
    if key in s.fids { PutShape(Unbind(s, key), s.fids[key]); }
  }

  lemma InsertShape(s: Store, key: Key, r: FidRef)
    ensures Insert(s, key, r).deleted == s.deleted && Insert(s, key, r).kids == s.kids
    ensures Insert(s, key, r).root == s.root
  {
    hide Put;
    if key in s.fids { PutShape(Install(IncRef(s, r), key, r), s.fids[key]); }
  }

  lemma EnterShape(s: Store, w: FidRef, name: string, step: WalkStep)
    requires Sound(s, w)
    ensures Enter(s, w, name, step).deleted == s.deleted && Enter(s, w, name, step).root == s.root
  {
  }

  lemma {:induction false} WalkLoopShape(s: Store, w: FidRef, names: seq<string>, steps: seq<WalkStep>, qids: seq<nat>)
    requires |steps| == |names|
    ensures WalkLoop(s, w, names, steps, qids).0.deleted == s.deleted
    ensures WalkLoop(s, w, names, steps, qids).0.root == s.root
    decreases |names|
  {
    hide Put, Enter;
    PutShape(s, w);
    if names != [] && Sound(s, w) {
      EnterShape(s, w, names[0], steps[0]);
      WalkLoopShape(Enter(s, w, names[0], steps[0]), steps[0].ref, names[1..], steps[1..],
                    qids + [if steps[0].answer.Granted? then steps[0].answer.qid else 0]);
    }
  }

  lemma DoWalkShape(s: Store, r: FidRef, names: seq<string>, steps: seq<WalkStep>, clone: WalkStep)
    requires |steps| == |names|
    ensures DoWalk(s, r, names, steps, clone).0.deleted == s.deleted
    ensures DoWalk(s, r, names, steps, clone).0.root == s.root
  {
    hide WalkLoop;
    WalkLoopShape(IncRef(s, r), r, names, steps, []);
  }

  lemma {:induction false} PutAllShape(s: Store, parent: Parents, order: seq<FidRef>)
    ensures PutAll(s, parent, order).deleted == s.deleted && PutAll(s, parent, order).root == s.root
    decreases |order|
  {
    hide Put;
    if order != [] {
      PutAllShape(s, parent, order[..|order| - 1]);
      var p := Par(parent, order[|order| - 1]);
      if p != null { PutShape(PutAll(s, parent, order[..|order| - 1]), p); }
    }
  }

  /** An accepted rename deletes exactly the subtree it overwrites. */
  lemma RenameChildDeletes(s: Store, f: PathNode, oldName: string, t: FidRef, newName: string, order: seq<FidRef>)
    requires f in s.kids && Sound(s, t)
    ensures var s' := RenameChild(s, f, oldName, t, newName, order).0;
            s'.deleted == Mark(s, s.what[t].node, newName).deleted && s'.root == s.root
  {
    hide PutAll, Mark, Rebase, Affected, Refile, Repoint, From, PathTo, Below;
    var s1 := Mark(s, s.what[t].node, newName);
    MarkShape(s, s.what[t].node, newName);
    if CanGraft(s1, f, oldName, t) {
      PutAllShape(Graft(s1, f, oldName, PathTo(s1, f), t, newName, order), s1.parent, order);
    }
  }

  /** What hangs at `name` below the node of `r`, in the tree as a request finds it. */
  ghost function HangingAt(s: Store, r: FidRef, name: string): set<PathNode>
  {
    if Sound(s, r) && name in s.kids[s.what[r].node] then Below(s.kids, s.kids[s.what[r].node][name]) else {}
  }

  lemma CutKeepsBelow(root: PathNode, kids: Kids, deleted: set<PathNode>, n: PathNode, name: string)
    requires Tree(root, kids, deleted) && n in kids && n !in deleted && name in kids[n]
    ensures Below(Without(kids, n, name), kids[n][name]) == Below(kids, kids[n][name])
  {
    hide From, Tree;
    var k, c := Without(kids, n, name), kids[n][name];
    forall m | m in kids ensures m in Below(k, c) <==> m in Below(kids, c) {
      if m in Below(k, c) { CutBelowReaches(kids, n, name, c, m); }
      if m in Below(kids, c) { MovesWithin(root, kids, deleted, n, name, m); }
    }
  }

  lemma MarkDeletes(s: Store, held: multiset<FidRef>, n: PathNode, name: string)
    requires Inv(s, held) && n in s.kids && n !in s.deleted
    ensures Mark(s, n, name).deleted == s.deleted + if name in s.kids[n] then Below(s.kids, s.kids[n][name]) else {}
  {
    hide Known, Registered, Present, Lineage, Grounded, Counted, ClosedOnce, Sharing, Paths, From, Below, Tree;
    if name in s.kids[n] { CutKeepsBelow(s.root, s.kids, s.deleted, n, name); }
  }

  /** A granted unlink deletes exactly the subtree at the name (or the node made to lock it); a failed one deletes
      nothing. */
  lemma UnlinkDeletes(s: Store, key: Key, name: string, answer: Answer, node: PathNode)
    requires Inv(s, multiset{}) && node !in s.kids
    ensures var (s', reply) := Unlink(s, key, name, answer, node);
            s'.root == s.root && s'.deleted == s.deleted + (if !reply.Done? then {}
                                       else if name in s.kids[s.what[s.fids[key]].node]
                                         then HangingAt(s, s.fids[key], name)
                                       else {node})
  {
    hide Inv, Put, Mark, Below;
    if SafeName(name) && key in s.fids {
      var r := s.fids[key];
      Lookup(s, key);
      var s0 := IncRef(s, r);
      PutShape(s0, r);
      var n := s.what[r].node;
      if n !in s.deleted {
        GrowKeeps(s0, multiset{r}, n, name, node);
        var s1 := Grow(s0, n, name, node);
        PutShape(s1, r);
        PutShape(Mark(s1, n, name), r);
        MarkDeletes(s1, multiset{r}, n, name);
        MarkShape(s1, n, name);
        if name !in s.kids[n] { SproutBelow(s1.kids, node); }
      }
    }
  }

  /** A granted remove deletes exactly the subtree of the fid's own node. */
  lemma RemoveDeletes(s: Store, key: Key, answer: Answer)
    requires Inv(s, multiset{})
    ensures var (s', reply) := Remove(s, key, answer);
            s'.root == s.root && s'.deleted == s.deleted + if reply.Done? then Below(s.kids, s.what[s.fids[key]].node)
              else {}
  {
    hide Inv, Put, Mark, Below, Clear;
    if key in s.fids {
      var r := s.fids[key];
      Lookup(s, key);
      var s0 := IncRef(s, r);
      ClearShape(s0, key);
      PutShape(Clear(s0, key), r);
      var p := Par(s.parent, r);
      if p != null && s.what[r].node !in s.deleted {
        ParentAbove(s, multiset{}, r);
        var n := s.what[p].node;
        var s1 := Mark(s0, n, At(s.names, n)[r]);
        MarkDeletes(s0, multiset{r}, n, At(s.names, n)[r]);
        MarkShape(s0, n, At(s.names, n)[r]);
        ClearShape(s1, key);
        PutShape(Clear(s1, key), r);
      }
    }
  }

  lemma Return2Shape(s: Store, r: FidRef, t: FidRef)
    ensures Put(Put(s, t), r).deleted == s.deleted && Put(Put(s, t), r).root == s.root
  {
    hide Put;
    PutShape(s, t);
    PutShape(Put(s, t), r);
  }

  lemma RenameStepDeletes(s: Store, r: FidRef, t: FidRef, n: PathNode, oldName: string, newName: string,
                          order: seq<FidRef>)
    requires Inv(s, multiset{r, t}) && n in s.kids && Sound(s, t) && s.what[t].node !in s.deleted
    ensures var s1 := RenameChild(s, n, oldName, t, newName, order).0;
            s1.deleted == s.deleted + HangingAt(s, t, newName) && Put(Put(s1, t), r).deleted == s1.deleted
              && Put(Put(s1, t), r).root == s.root
  {
    hide Inv, Put, Mark, Below, RenameChild;
    RenameChildDeletes(s, n, oldName, t, newName, order);
    MarkDeletes(s, multiset{r, t}, s.what[t].node, newName);
    Return2Shape(RenameChild(s, n, oldName, t, newName, order).0, r, t);
  }

  /** A granted rename deletes exactly the subtree it overwrites; renaming a name to itself deletes nothing. */
  lemma RenameAtDeletes(s: Store, key: Key, oldName: string, tkey: Key, newName: string, answer: Answer,
                        order: seq<FidRef>)
    requires Inv(s, multiset{})
    requires key in s.fids && Sound(s, s.fids[key]) ==> Lists(order, Movers(s.names, s.what[s.fids[key]].node, oldName))
    ensures var (s', reply) := RenameAt(s, key, oldName, tkey, newName, answer, order);
            s'.root == s.root
              && s'.deleted == s.deleted
                   + (if !reply.Done? || (s.what[s.fids[key]].node == s.what[s.fids[tkey]].node && oldName == newName)
                                       then {} else HangingAt(s, s.fids[tkey], newName))
  {
    hide Inv, Put, RenameChild, Lists, Illegal, HangingAt;
    RenameAtKeeps(s, key, oldName, tkey, newName, answer, order);
    if key in s.fids && tkey in s.fids {
      var r, t := s.fids[key], s.fids[tkey];
      Lookup2(s, key, tkey);
      var s0 := IncRef(IncRef(s, r), t);
      Return2Shape(s0, r, t);
      if s.what[t].node !in s.deleted {
        RenameStepDeletes(s0, r, t, s.what[r].node, oldName, newName, order);
        HangsSame(s, s0, t, newName);
      }
    }
  }

  lemma RenameDeletes(s: Store, key: Key, tkey: Key, newName: string, answer: Answer, order: seq<FidRef>)
    requires Inv(s, multiset{}) && RenameOrder(s, key, order)
    ensures var (s', reply) := Rename(s, key, tkey, newName, answer, order);
            s'.root == s.root
              && s'.deleted == s.deleted
                   + (if !reply.Done? || Hangs(s.kids, s.what[s.fids[tkey]].node, newName, s.what[s.fids[key]].node)
                                       then {} else HangingAt(s, s.fids[tkey], newName))
  {
    hide Inv, Put, RenameChild, Illegal, HangingAt, RenameOrder;
    RenameKeeps(s, key, tkey, newName, answer, order);
    if key in s.fids && tkey in s.fids {
      var r, t := s.fids[key], s.fids[tkey];
      Lookup2(s, key, tkey);
      FidLive(s, multiset{}, key);
      var s0 := IncRef(IncRef(s, r), t);
      Return2Shape(s0, r, t);
      var p := Par(s.parent, r);
      if p != null && s.what[r].node !in s.deleted && s.what[t].node !in s.deleted {
        ParentAbove(s, multiset{}, r);
        var n := s.what[p].node;
        RenameStepDeletes(s0, r, t, n, At(s.names, n)[r], newName, order);
        HangsSame(s, s0, t, newName);
        if Hangs(s.kids, s.what[t].node, newName,
            s.what[r].node) { SameEdge(s, n, At(s.names, n)[r], s.what[t].node, newName); }
      }
    }
  }

  lemma HangsSame(s: Store, s': Store, t: FidRef, name: string)
    requires s'.what == s.what && s'.kids == s.kids
    ensures HangingAt(s', t, name) == HangingAt(s, t, name)
  {
  }

  lemma SameEdge(s: Store, n: PathNode, oldName: string, tn: PathNode, newName: string)
    requires Inv(s, multiset{}) && n in s.kids && tn in s.kids && newName in s.kids[tn]
    requires Hangs(s.kids, n, oldName, s.kids[tn][newName])
    ensures n == tn && oldName == newName
  {
    hide Known, Registered, Present, Lineage, Grounded, Counted, ClosedOnce, Sharing, Paths;
    OneEdge(s.kids, n, oldName, tn, newName, s.kids[tn][newName]);
  }

  lemma {:induction false} StopShape(s: Store, keys: seq<Key>)
    ensures Stop(s, keys).deleted == s.deleted && Stop(s, keys).root == s.root
    decreases |keys|
  {
    hide Clear;
    if keys != [] {
      StopShape(s, keys[..|keys| - 1]);
      ClearShape(Stop(s, keys[..|keys| - 1]), keys[|keys| - 1]);
    }
  }

  lemma SettleShape(s: Store, r: FidRef, key: Key, x: FidRef)
    ensures var s' := Put(Put(Insert(s, key, x), x), r); s'.deleted == s.deleted && s'.root == s.root
  {
    hide Put, Insert;
    InsertShape(s, key, x);
    Return2Shape(Insert(s, key, x), r, x);
  }

  lemma WalkDeletes(s: Store, key: Key, newKey: Key, names: seq<string>, steps: seq<WalkStep>, clone: WalkStep)
    requires |steps| == |names|
    ensures var s' := Walk(s, key, newKey, names, steps, clone).0; s'.deleted == s.deleted && s'.root == s.root
  {
    hide Put, Insert, DoWalk;
    if key in s.fids {
      var r := s.fids[key];
      var s0 := IncRef(s, r);
      PutShape(s0, r);
      DoWalkShape(s0, r, names, steps, clone);
      var (s1, w) := DoWalk(s0, r, names, steps, clone);
      PutShape(s1, r);
      if w.Reached? { SettleShape(s1, r, newKey, w.ref); }
    }
  }

  lemma AttachDeletes(s: Store, key: Key, root: WalkStep, names: seq<string>, steps: seq<WalkStep>)
    requires |steps| == |names|
    ensures var s' := Handlers.Attach(s, key, root, names, steps).0; s'.deleted == s.deleted && s'.root == s.root
  {
    hide Put, Insert, DoWalk;
    if root.answer.Granted? {
      var r := root.ref;
      var s0 := Spawn(s, r, Ref(s.root, root.file, root.answer.isDir), null, s.names, s.path[root.file := []]);
      InsertShape(s0, key, r);
      PutShape(Insert(s0, key, r), r);
      DoWalkShape(s0, r, names, steps, root);
      var (s1, w) := DoWalk(s0, r, names, steps, root);
      PutShape(s1, r);
      if w.Reached? { SettleShape(s1, r, key, w.ref); }
    }
  }

  lemma CreateDeletes(s: Store, key: Key, name: string, step: WalkStep)
    ensures var s' := Create(s, key, name, step).0; s'.deleted == s.deleted && s'.root == s.root
  {
    hide Put, Enter;
    if key in s.fids {
      var r := s.fids[key];
      PutShape(IncRef(s, r), r);
      var s00 := IncRef(IncRef(s, r), r);
      if Sound(s00, r) && step.answer.Granted? {
        var step' := step.(answer := Granted(step.answer.qid, false));
        EnterShape(s00, r, name, step');
        var s1 := Enter(s00, r, name, step');
        Return2Shape(Install(s1.(isOpen := s1.isOpen + {step.ref}), key, step.ref), r, r);
      }
    }
  }

  lemma OtherDeletes(s: Store, e: Event)
    requires Allowed(s, e) && (e.Opens? || e.Clunks? || e.XattrWalks? || e.Stops?)
    ensures Apply(s, e).0.deleted == s.deleted && Apply(s, e).0.root == s.root
  {
    hide Put, Clear, Stop;
    if e.Stops? { StopShape(s, e.keys); }
    else if e.key in s.fids {
      var r := s.fids[e.key];
      PutShape(IncRef(s, r), r);
      PutShape(IncRef(s, r).(isOpen := s.isOpen + {r}), r);
      ClearShape(Put(IncRef(s, r), r), e.key);
      if e.XattrWalks? && Sound(s, r) {
        var s1 := Install(Spawn(IncRef(s, r), e.ref, Ref(s.what[r].node, s.what[r].file, false), null, s.names, s.path),
              e.newKey, e.ref);
        PutShape(s1, r);
        if e.newKey in s.fids { Return2Shape(s1, r, s.fids[e.newKey]); }
      }
    }
  }

  /** No request revives a node or deletes the root. */
  lemma DeletionPermanent(s: Store, e: Event)
    requires Inv(s, multiset{}) && Allowed(s, e)
    ensures s.deleted <= Apply(s, e).0.deleted && Apply(s, e).0.root == s.root && s.root !in Apply(s, e).0.deleted
  {
    StepKeeps(s, e);
    hide Inv, Walk, Open, Create, Unlink, Remove, Rename, RenameAt, Clunk, XattrWalk, Stop, Lists, FreshSteps;
    hide FreshStep, RenameOrder, HangingAt, Below;
    hide Handlers.Attach;
    RootIn(Apply(s, e).0, multiset{});
    match e
    case Attaches(key, root, names, steps) => AttachDeletes(s, key, root, names, steps);
    case Walks(key, newKey, names, steps, clone) => WalkDeletes(s, key, newKey, names, steps, clone);
    case Creates(key, name, step) => CreateDeletes(s, key, name, step);
    case Unlinks(key, name, answer, node) => UnlinkDeletes(s, key, name, answer, node);
    case Removes(key, answer) => RemoveDeletes(s, key, answer);
    case Renames(key, target, newName, answer, order) => RenameDeletes(s, key, target, newName, answer, order);
    case RenamesAt(key, oldName, target, newName, answer, order) => RenameAtDeletes(s, key, oldName, target, newName,
        answer, order);
    case _ => OtherDeletes(s, e);
  }
}
