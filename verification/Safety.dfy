/** Every handler keeps the invariant, gives back every reference it took, and never panics. */
module Safety {
  import opened Objects
  import opened Forest
  import opened Bookkeeping
  import opened Reshape
  import opened Handlers

  /** Objects the server has never seen: what allocation supplies. */
  ghost predicate FreshFile(s: Store, f: File)
  {
    (forall y | y in s.what :: s.what[y].file != f) && Closes(s.closes, f) == 0
  }

  ghost predicate FreshStep(s: Store, step: WalkStep)
  {
    step.ref !in s.what && step.ref !in s.isOpen && step.node !in s.kids && FreshFile(s, step.file)
  }

  ghost predicate FreshSteps(s: Store, steps: seq<WalkStep>)
  {
    && (forall i | 0 <= i < |steps| :: FreshStep(s, steps[i]))
    && (forall i, j | 0 <= i < j < |steps| ::
          steps[i].ref != steps[j].ref && steps[i].node != steps[j].node && steps[i].file != steps[j].file)
  }

  lemma PutKeeps(s: Store, held: multiset<FidRef>, r: FidRef)
    requires Inv(s, held) && r in held
    ensures Inv(Put(s, r), held - multiset{r})
    ensures var s' := Put(s, r); s' == s.(count := s'.count, closes := s'.closes, names := s'.names)
  {
    hide Inv, DecRef;
    HeldIn(s, held, r);
    DecRefKeeps(s, held, r, Height(s.parent, r));
  }

  lemma FidLive(s: Store, held: multiset<FidRef>, key: Key)
    requires Inv(s, held) && key in s.fids
    ensures Cnt(s.count, s.fids[key]) > 0 && Sound(s, s.fids[key])
  {
    hide Tree, Registered, Present, Lineage, Grounded, Counted, ClosedOnce, Sharing, Paths;
    HeldKnown(s, held);
  }

  lemma SoundHeld(s: Store, held: multiset<FidRef>, r: FidRef)
    requires Inv(s, held) && r in held
    ensures Cnt(s.count, r) > 0 && Sound(s, r)
  {
    hide Tree, Registered, Present, Lineage, Grounded, Counted, ClosedOnce, Sharing, Paths;
    HeldKnown(s, held);
  }

  lemma InsertKeeps(s: Store, held: multiset<FidRef>, key: Key, r: FidRef)
    requires Inv(s, held) && r in held
    ensures Inv(Insert(s, key, r), held)
  {
    hide Inv, Put;
    SoundHeld(s, held, r);
    IncRefKeeps(s, held, r);
    var s1 := IncRef(s, r);
    InstallKeeps(s1, held + multiset{r}, key, r);
    assert held + multiset{r} - multiset{r} == held;
    if key in s.fids {
      PutKeeps(Install(s1, key, r), held + multiset{s.fids[key]}, s.fids[key]);
      assert held + multiset{s.fids[key]} - multiset{s.fids[key]} == held;
    } else {
      assert held + Evicted(s.fids, key) == held;
    }
  }

  lemma ClearKeeps(s: Store, held: multiset<FidRef>, key: Key)
    requires Inv(s, held)
    ensures Inv(Clear(s, key), held)
  {
    hide Inv, Put;
    if key in s.fids {
      UnbindKeeps(s, held, key);
      PutKeeps(Unbind(s, key), held + multiset{s.fids[key]}, s.fids[key]);
      assert held + multiset{s.fids[key]} - multiset{s.fids[key]} == held;
    }
  }

  // ---- walking ---------------------------------------------------------------

  lemma GrowHangs(s: Store, n: PathNode, name: string, c: PathNode)
    requires n in s.kids
    ensures var s' := Grow(s, n, name, c);
            n in s'.kids && name in s'.kids[n] && Hangs(s'.kids, n, name, s'.kids[n][name])
    ensures var s' := Grow(s, n, name, c); s' == s.(kids := s'.kids, names := s'.names)
    ensures forall m | m in Grow(s, n, name, c).kids :: m in s.kids || m == c
  {
  }

  lemma EnterKeeps(s: Store, held: multiset<FidRef>, w: FidRef, name: string, step: WalkStep)
    requires Inv(s, held) && w in held && Sound(s, w) && s.what[w].dir && s.what[w].node !in s.deleted
    requires step.ref !in s.what && FreshFile(s, step.file) && (name in s.kids[s.what[w].node] || step.node !in s.kids)
    ensures Inv(Enter(s, w, name, step), held + multiset{step.ref} - multiset{w})
  {
    hide Inv, Spawn, Hangs, From, Grow;
    var n := s.what[w].node;
    GrowKeeps(s, held, n, name, step.node);
    var s1 := Grow(s, n, name, step.node);
    GrowHangs(s, n, name, step.node);
    var c := s1.kids[n][name];
    EdgeFacts(s1, held, n, name, c);
    var path := s1.path[step.file := PathOf(s1.path, s1.what[w].file) + [name]];
    SoundHeld(s1, held, w);
    WalkedPath(s1, held, w, name, c);
    var ref := Ref(c, step.file, step.answer.Granted? && step.answer.isDir);
    OwnFile(s1, ref, w, PathOf(s1.path, s1.what[w].file) + [name]);
    SpawnKeeps(s1, held, step.ref, ref, w, Enrol(s1.names, n, step.ref, name), path);
  }

  lemma OwnFile(s: Store, w: Ref, p: FidRef?, q: seq<string>)
    requires FreshFile(s, w.file)
    requires (p != null || w.node == s.root) && w.node !in s.deleted ==> From(s.kids, s.root, q) == w.node
    ensures FileFor(s, w, p, s.path[w.file := q])
  {
    hide From;
  }

  lemma EdgeFacts(s: Store, held: multiset<FidRef>, n: PathNode, name: string, c: PathNode)
    requires Inv(s, held) && n in s.kids && n !in s.deleted && Hangs(s.kids, n, name, c)
    ensures c in s.kids && c != s.root && c !in s.deleted
  {
    hide Known, Registered, Present, Lineage, Grounded, Counted, ClosedOnce, Sharing, Paths;
    EdgeLive(s.root, s.kids, s.deleted, n, name, c);
  }

  /** Where a reference's path leads, one more name leads to the named child. */
  lemma WalkedPath(s: Store, held: multiset<FidRef>, w: FidRef, name: string, c: PathNode)
    requires Inv(s, held) && w in s.what && Cnt(s.count, w) > 0 && s.what[w].dir && s.what[w].node !in s.deleted
    requires s.what[w].node in s.kids && Hangs(s.kids, s.what[w].node, name, c)
    ensures From(s.kids, s.root, PathOf(s.path, s.what[w].file) + [name]) == c
  {
    hide Known, Tree, Registered, Present, Grounded, Counted, ClosedOnce, Sharing, Paths, Lineage;
    PathHolds(s, w);
    var p := PathOf(s.path, s.what[w].file);
    assert (p + [name])[..|p|] == p;
  }

  lemma EnterFresh(s: Store, w: FidRef, name: string, step: WalkStep, steps: seq<WalkStep>)
    requires Sound(s, w) && FreshSteps(s, [step] + steps)
    ensures FreshSteps(Enter(s, w, name, step), steps)
  {
    GrowHangs(s, s.what[w].node, name, step.node);
    forall i | 0 <= i < |steps| ensures FreshStep(Enter(s, w, name, step), steps[i]) {
      assert steps[i] == ([step] + steps)[i + 1];
      assert step == ([step] + steps)[0];
    }
    forall i, j | 0 <= i < j < |steps|
      ensures steps[i].ref != steps[j].ref && steps[i].node != steps[j].node && steps[i].file != steps[j].file
    {
      assert steps[i] == ([step] + steps)[i + 1] && steps[j] == ([step] + steps)[j + 1];
    }
  }

  lemma NotFiledFresh(s: Store, held: multiset<FidRef>, x: FidRef, n: PathNode)
    requires Inv(s, held) && x !in s.what
    ensures x !in At(s.names, n)
  {
    hide Known, Tree, Present, Lineage, Grounded, Counted, ClosedOnce, Sharing, Paths;
    if x in At(s.names, n) { FiledAt(s.kids, s.names, s.what, s.count, s.parent, n, x); }
  }

  /** A walk that fails gives back its hold; one that succeeds holds what it reached, with one QID per name. */
  lemma {:induction false} WalkLoopKeeps(s: Store, held: multiset<FidRef>, w: FidRef, names: seq<string>,
                                         steps: seq<WalkStep>, qids: seq<nat>)
    requires |steps| == |names| && Inv(s, held) && w in held && FreshSteps(s, steps)
    ensures var (s', o) := WalkLoop(s, w, names, steps, qids);
            match o
            case Reached(x, qs) => Inv(s', held - multiset{w} + multiset{x}) && |qs| == |qids| + |names|
            case Stopped(_) => Inv(s', held - multiset{w})
            case Crashed => false
    decreases |names|
  {
    hide Inv, Put, Enter, FreshSteps;
    if names == [] {
      assert held - multiset{w} + multiset{w} == held;
    } else {
      SoundHeld(s, held, w);
      PutKeeps(s, held, w);
      if s.what[w].dir && s.what[w].node !in s.deleted && steps[0].answer.Granted? {
        assert steps == [steps[0]] + steps[1..];
        HeadFresh(s, steps);
        NotFiledFresh(s, held, steps[0].ref, s.what[w].node);
        EnterKeeps(s, held, w, names[0], steps[0]);
        EnterFresh(s, w, names[0], steps[0], steps[1..]);
        var held1 := held + multiset{steps[0].ref} - multiset{w};
        assert held1 == held - multiset{w} + multiset{steps[0].ref};
        assert held1 - multiset{steps[0].ref} == held - multiset{w};
        WalkLoopKeeps(Enter(s, w, names[0], steps[0]), held1, steps[0].ref, names[1..], steps[1..],
            qids + [steps[0].answer.qid]);
      }
    }
  }

  lemma HeadFresh(s: Store, steps: seq<WalkStep>)
    requires FreshSteps(s, steps) && steps != []
    ensures FreshStep(s, steps[0])
  {
  }

  lemma CloneKeeps(s: Store, held: multiset<FidRef>, r: FidRef, step: WalkStep)
    requires Inv(s, held) && r in held && step.ref !in s.what && FreshFile(s, step.file)
    ensures var (s', o) := CloneOf(s, r, step);
            match o
            case Reached(x, qs) => Inv(s', held + multiset{x}) && qs == []
            case Stopped(_) => s' == s
            case Crashed => false
  {
    hide Inv, Spawn, From, Hangs;
    SoundHeld(s, held, r);
    var w := Ref(s.what[r].node, step.file, s.what[r].dir);
    var q := PathOf(s.path, s.what[r].file);
    var path := s.path[step.file := q];
    CloneFile(s, held, r);
    var p := Par(s.parent, r);
    if p == null {
      OwnFile(s, w, p, q);
      SpawnKeeps(s, held, step.ref, w, p, s.names, path);
    } else {
      CloneParent(s, held, r);
      IncRefKeeps(s, held, p);
      var s1 := IncRef(s, p);
      OwnFile(s1, w, p, q);
      NotFiledFresh(s, held, step.ref, s.what[p].node);
      assert held + multiset{p} + multiset{step.ref} - multiset{p} == held + multiset{step.ref};
      if w.node in s.deleted {
        SpawnKeeps(s1, held + multiset{p}, step.ref, w, p, s.names, path);
      } else {
        ParentAbove(s, held, r);
        var n := s.what[p].node;
        assert Hangs(s1.kids, n, At(s.names, n)[r], w.node);
        SpawnKeeps(s1, held + multiset{p}, step.ref, w, p, Enrol(s.names, n, step.ref, At(s.names, n)[r]), path);
      }
    }
  }

  lemma CloneFile(s: Store, held: multiset<FidRef>, r: FidRef)
    requires Inv(s, held) && r in s.what && Cnt(s.count, r) > 0
    ensures (Par(s.parent, r) != null || s.what[r].node == s.root) && s.what[r].node !in s.deleted ==>
              From(s.kids, s.root, PathOf(s.path, s.what[r].file)) == s.what[r].node
    ensures Par(s.parent, r) == null ==> s.what[r].node == s.root || !s.what[r].dir
  {
    hide Known, Tree, Registered, Present, Grounded, Counted, ClosedOnce, Sharing, From;
    assert (Par(s.parent, r) != null || s.what[r].node == s.root) ==> Tracked(s.root, s.what, s.parent, r);
  }

  lemma CloneParent(s: Store, held: multiset<FidRef>, r: FidRef)
    requires Inv(s, held) && r in s.what && Cnt(s.count, r) > 0 && Par(s.parent, r) != null
    ensures var p := Par(s.parent, r); Sound(s, p) && Cnt(s.count, p) > 0 && s.what[p].dir && s.what[r].node != s.root
  {
    hide Tree, Registered, Present, Grounded, ClosedOnce, Sharing, Paths;
    assert r in Children(s.count, s.parent, Par(s.parent, r));
  }

  lemma DoWalkKeeps(s: Store, held: multiset<FidRef>, r: FidRef, names: seq<string>, steps: seq<WalkStep>,
                    clone: WalkStep)
    requires |steps| == |names| && Inv(s, held) && r in held && FreshSteps(s, steps)
    requires (names == [] ==> FreshStep(s, clone))
    ensures var (s', o) := DoWalk(s, r, names, steps, clone);
            match o
            case Reached(x, qs) => Inv(s', held + multiset{x}) && |qs| == |names|
            case Stopped(_) => Inv(s', held)
            case Crashed => false
  {
    hide Inv, WalkLoop, CloneOf, FreshFile, FreshSteps;
    if !(exists i :: 0 <= i < |names| && !SafeName(names[i])) {
      if names == [] {
        CloneKeeps(s, held, r, clone);
      } else {
        SoundHeld(s, held, r);
        IncRefKeeps(s, held, r);
        assert held + multiset{r} - multiset{r} == held;
        SameFresh(s, IncRef(s, r), steps, clone);
        WalkLoopKeeps(IncRef(s, r), held + multiset{r}, r, names, steps, []);
      }
    }
  }

  lemma WalkKeeps(s: Store, key: Key, newKey: Key, names: seq<string>, steps: seq<WalkStep>, clone: WalkStep)
    requires |steps| == |names| && Inv(s, multiset{}) && FreshSteps(s, steps) && (names == [] ==> FreshStep(s, clone))
    ensures var (s', reply) := Walk(s, key, newKey, names, steps, clone);
            Inv(s', multiset{}) && reply != Panic && (reply.Done? ==> |reply.qids| == |names|)
  {
    hide Inv, Put, DoWalk, Insert, FreshSteps, FreshStep;
    if key in s.fids {
      var r := s.fids[key];
      FidLive(s, multiset{}, key);
      IncRefKeeps(s, multiset{}, r);
      assert multiset{} + multiset{r} == multiset{r} && multiset{r} - multiset{r} == multiset{};
      var s0 := IncRef(s, r);
      PutKeeps(s0, multiset{r}, r);
      SameFresh(s, s0, steps, clone);
      DoWalkKeeps(s0, multiset{r}, r, names, steps, clone);
      var (s1, w) := DoWalk(s0, r, names, steps, clone);
      match w
      case Stopped(_) => PutKeeps(s1, multiset{r}, r);
      case Crashed =>
      case Reached(x, _) => Settle(s1, r, newKey, x);
    }
  }

  /** Install the reached reference, then drop the walk's hold and the lookup's. */
  lemma Settle(s: Store, r: FidRef, newKey: Key, x: FidRef)
    requires Inv(s, multiset{r} + multiset{x})
    ensures Inv(Put(Put(Insert(s, newKey, x), x), r), multiset{})
  {
    hide Inv, Put, Insert;
    InsertKeeps(s, multiset{r} + multiset{x}, newKey, x);
    PutKeeps(Insert(s, newKey, x), multiset{r} + multiset{x}, x);
    assert multiset{r} + multiset{x} - multiset{x} == multiset{r};
    PutKeeps(Put(Insert(s, newKey, x), x), multiset{r}, r);
    assert multiset{r} - multiset{r} == multiset{};
  }

  lemma SameFresh(s: Store, s': Store, steps: seq<WalkStep>, clone: WalkStep)
    requires s'.what == s.what && s'.kids == s.kids && s'.closes == s.closes && s'.isOpen == s.isOpen
    ensures FreshSteps(s, steps) ==> FreshSteps(s', steps)
    ensures FreshStep(s, clone) ==> FreshStep(s', clone)
  {
  }

  // ---- attach, open, create --------------------------------------------------

  lemma NewRootKeeps(s: Store, held: multiset<FidRef>, x: FidRef, f: File, isDir: bool)
    requires Inv(s, held) && x !in s.what && FreshFile(s, f)
    ensures Inv(Spawn(s, x, Ref(s.root, f, isDir), null, s.names, s.path[f := []]), held + multiset{x})
  {
    hide Inv, Spawn;
    RootIn(s, held);
    assert From(s.kids, s.root, []) == s.root;
    OwnFile(s, Ref(s.root, f, isDir), null, []);
    SpawnKeeps(s, held, x, Ref(s.root, f, isDir), null, s.names, s.path[f := []]);
  }

  lemma RootIn(s: Store, held: multiset<FidRef>)
    requires Inv(s, held)
    ensures s.root in s.kids && s.root !in s.deleted
  {
    hide Known, Registered, Present, Lineage, Grounded, Counted, ClosedOnce, Sharing, Paths;
    ReachesSelf(s.kids, s.root);
  }

  lemma AttachKeeps(s: Store, key: Key, root: WalkStep, names: seq<string>, steps: seq<WalkStep>)
    requires |steps| == |names| && Inv(s, multiset{}) && FreshSteps(s, [root] + steps)
    ensures var (s', reply) := Handlers.Attach(s, key, root, names, steps); Inv(s', multiset{}) && reply != Panic
  {
    hide Inv, Put, DoWalk, Insert, Spawn;
    assert ([root] + steps)[0] == root;
    if root.answer.Granted? {
      var r := root.ref;
      NewRootKeeps(s, multiset{}, r, root.file, root.answer.isDir);
      assert multiset{} + multiset{r} == multiset{r} && multiset{r} - multiset{r} == multiset{};
      var s0 := Spawn(s, r, Ref(s.root, root.file, root.answer.isDir), null, s.names, s.path[root.file := []]);
      if names == [] {
        InsertKeeps(s0, multiset{r}, key, r);
        PutKeeps(Insert(s0, key, r), multiset{r}, r);
      } else {
        RootFresh(s, root, steps);
        DoWalkKeeps(s0, multiset{r}, r, names, steps, root);
        var (s1, w) := DoWalk(s0, r, names, steps, root);
        match w
        case Stopped(_) => PutKeeps(s1, multiset{r}, r);
        case Crashed =>
        case Reached(x, _) => Settle(s1, r, key, x);
      }
    }
  }

  lemma RootFresh(s: Store, root: WalkStep, steps: seq<WalkStep>)
    requires FreshSteps(s, [root] + steps) && root.answer.Granted?
    ensures FreshSteps(Spawn(s, root.ref, Ref(s.root, root.file, root.answer.isDir), null, s.names,
              s.path[root.file := []]), steps)
  {
    assert ([root] + steps)[0] == root;
    forall i | 0 <= i < |steps| ensures ([root] + steps)[i + 1] == steps[i] {
    }
  }

  lemma OpenKeeps(s: Store, key: Key, readOnly: bool, canOpen: bool, answer: Answer)
    requires Inv(s, multiset{})
    ensures var (s', reply) := Open(s, key, readOnly, canOpen, answer); Inv(s', multiset{}) && reply != Panic
  {
    hide Put, Inv;
    if key in s.fids {
      var r := s.fids[key];
      Lookup(s, key);
      OpenedKeeps(IncRef(s, r), multiset{r}, r);
      PutKeeps(IncRef(s, r), multiset{r}, r);
      PutKeeps(IncRef(s, r).(isOpen := s.isOpen + {r}), multiset{r}, r);
    }
  }

  /** LookupFID: the handler's own hold on a bound fid. */
  lemma Lookup(s: Store, key: Key)
    requires Inv(s, multiset{}) && key in s.fids
    ensures var r := s.fids[key];
            Sound(s, r) && Cnt(s.count, r) > 0 && Inv(IncRef(s, r), multiset{r})
            && multiset{r} - multiset{r} == multiset{}
  {
    hide Inv;
    FidLive(s, multiset{}, key);
    IncRefKeeps(s, multiset{}, s.fids[key]);
    assert multiset{} + multiset{s.fids[key]} == multiset{s.fids[key]};
  }

  lemma OpenedKeeps(s: Store, held: multiset<FidRef>, r: FidRef)
    requires Inv(s, held)
    ensures Inv(s.(isOpen := s.isOpen + {r}), held)
  {
    hide Known, Tree, Registered, Present, Lineage, Grounded, Counted, ClosedOnce, Sharing, Paths;
  }

  lemma CreateKeeps(s: Store, key: Key, name: string, step: WalkStep)
    requires Inv(s, multiset{}) && FreshStep(s, step)
    ensures var (s', reply) := Create(s, key, name, step); Inv(s', multiset{}) && reply != Panic
  {
    hide Inv, Put, Enter, FreshFile;
    if SafeName(name) && key in s.fids {
      var r := s.fids[key];
      Lookup(s, key);
      var s0 := IncRef(s, r);
      PutKeeps(s0, multiset{r}, r);
      NotFiledFresh(s, multiset{}, step.ref, s.what[r].node);
      if s.what[r].node !in s.deleted && s.what[r].dir && step.answer.Granted? {
        IncRefKeeps(s0, multiset{r}, r);
        var step' := step.(answer := Granted(step.answer.qid, false));
        var s00 := IncRef(s0, r);
        SameFresh(s, s00, [], step');
        EnterKeeps(s00, multiset{r} + multiset{r}, r, name, step');
        var s1 := Enter(s00, r, name, step');
        var held := multiset{r} + multiset{r} + multiset{step.ref} - multiset{r};
        OpenedKeeps(s1, held, step.ref);
        Replace(s1.(isOpen := s1.isOpen + {step.ref}), key, step.ref, r, held) by { EnterFids(s00, r, name, step'); }
      }
    }
  }

  lemma EnterFids(s: Store, w: FidRef, name: string, step: WalkStep)
    requires Sound(s, w)
    ensures Enter(s, w, name, step).fids == s.fids
  {
  }

  /** The created reference replaces the directory's in the fid table; both holds on the directory go. */
  lemma Replace(s: Store, key: Key, x: FidRef, r: FidRef, held: multiset<FidRef>)
    requires held == multiset{r} + multiset{x} && Inv(s, held) && key in s.fids && s.fids[key] == r
    ensures Inv(Put(Put(Install(s, key, x), r), r), multiset{})
  {
    hide Inv, Put;
    InstallKeeps(s, held, key, x);
    assert held - multiset{x} + Evicted(s.fids, key) == multiset{r} + multiset{r};
    PutKeeps(Install(s, key, x), multiset{r} + multiset{r}, r);
    assert multiset{r} + multiset{r} - multiset{r} == multiset{r};
    PutKeeps(Put(Install(s, key, x), r), multiset{r}, r);
    assert multiset{r} - multiset{r} == multiset{};
  }

  // ---- unlink, remove, clunk, xattr -------------------------------------------

  lemma UnlinkKeeps(s: Store, key: Key, name: string, answer: Answer, node: PathNode)
    requires Inv(s, multiset{}) && node !in s.kids
    ensures var (s', reply) := Unlink(s, key, name, answer, node); Inv(s', multiset{}) && reply != Panic
  {
    hide Inv, Put, Mark, Grow;
    if SafeName(name) && key in s.fids {
      var r := s.fids[key];
      Lookup(s, key);
      var s0 := IncRef(s, r);
      PutKeeps(s0, multiset{r}, r);
      if s.what[r].node !in s.deleted {
        var n := s.what[r].node;
        GrowKeeps(s0, multiset{r}, n, name, node);
        GrowHangs(s0, n, name, node);
        var s1 := Grow(s0, n, name, node);
        PutKeeps(s1, multiset{r}, r);
        MarkKeeps(s1, multiset{r}, n, name);
        PutKeeps(Mark(s1, n, name), multiset{r}, r);
      }
    }
  }

  lemma RemoveKeeps(s: Store, key: Key, answer: Answer)
    requires Inv(s, multiset{})
    ensures var (s', reply) := Remove(s, key, answer); Inv(s', multiset{}) && reply != Panic
  {
    hide Inv, Put, Mark, Clear;
    if key in s.fids {
      var r := s.fids[key];
      Lookup(s, key);
      var s0 := IncRef(s, r);
      ClearKeeps(s0, multiset{r}, key);
      PutKeeps(Clear(s0, key), multiset{r}, r);
      var p := Par(s.parent, r);
      if p != null && s.what[r].node !in s.deleted {
        ParentAbove(s, multiset{}, r);
        var n := s.what[p].node;
        var s1 := Mark(s0, n, At(s.names, n)[r]);
        MarkKeeps(s0, multiset{r}, n, At(s.names, n)[r]);
        ClearKeeps(s1, multiset{r}, key);
        PutKeeps(Clear(s1, key), multiset{r}, r);
      }
    }
  }

  lemma ClunkKeeps(s: Store, key: Key, xattr: Answer)
    requires Inv(s, multiset{})
    ensures var (s', reply) := Clunk(s, key, xattr); Inv(s', multiset{}) && reply != Panic
  {
    hide Inv, Put, Clear;
    if key in s.fids {
      Lookup(s, key);
      PutKeeps(IncRef(s, s.fids[key]), multiset{s.fids[key]}, s.fids[key]);
      ClearKeeps(Put(IncRef(s, s.fids[key]), s.fids[key]), multiset{}, key);
    }
  }

  lemma XattrFile(s: Store, held: multiset<FidRef>, r: FidRef)
    requires Inv(s, held) && r in s.what && Cnt(s.count, r) > 0 && s.what[r].node !in s.deleted
    ensures FileFor(s, Ref(s.what[r].node, s.what[r].file, false), null, s.path)
  {
    hide Known, Tree, Registered, Present, Grounded, Counted, ClosedOnce, From;
    assert s.what[r].node == s.root ==> Tracked(s.root, s.what, s.parent, r);
  }

  lemma XattrWalkKeeps(s: Store, key: Key, newKey: Key, answer: Answer, x: FidRef)
    requires Inv(s, multiset{}) && x !in s.what
    ensures var (s', reply) := XattrWalk(s, key, newKey, answer, x); Inv(s', multiset{}) && reply != Panic
  {
    hide Inv, Put, Spawn, FileFor;
    if key in s.fids {
      var r := s.fids[key];
      Lookup(s, key);
      var s0 := IncRef(s, r);
      PutKeeps(s0, multiset{r}, r);
      if s.what[r].node !in s.deleted {
        var w := Ref(s.what[r].node, s.what[r].file, false);
        SoundHeld(s0, multiset{r}, r);
        XattrFile(s0, multiset{r}, r);
        SpawnKeeps(s0, multiset{r}, x, w, null, s.names, s.path);
        var s1 := Spawn(s0, x, w, null, s.names, s.path);
        assert s1.fids == s.fids by { SpawnFids(s0, x, w, null, s.names, s.path); }
        InstallKeeps(s1, multiset{r} + multiset{x}, newKey, x);
        assert multiset{r} + multiset{x} - multiset{x} == multiset{r};
        var s2 := Install(s1, newKey, x);
        if newKey in s.fids {
          var o := s.fids[newKey];
          PutKeeps(s2, multiset{r} + multiset{o}, o);
          assert multiset{r} + multiset{o} - multiset{o} == multiset{r};
          PutKeeps(Put(s2, o), multiset{r}, r);
        } else {
          assert multiset{r} + Evicted(s.fids, newKey) == multiset{r};
          PutKeeps(s2, multiset{r}, r);
        }
      }
    }
  }

  lemma SpawnFids(s: Store, x: FidRef, w: Ref, p: FidRef?, names: Names, path: map<File, seq<string>>)
    ensures Spawn(s, x, w, p, names, path).fids == s.fids
  {
  }

  lemma {:induction false} StopKeeps(s: Store, keys: seq<Key>)
    requires Inv(s, multiset{})
    ensures Inv(Stop(s, keys), multiset{})
    decreases |keys|
  {
    hide Inv, Clear;
    if keys != [] {
      StopKeeps(s, keys[..|keys| - 1]);
      ClearKeeps(Stop(s, keys[..|keys| - 1]), multiset{}, keys[|keys| - 1]);
    }
  }

  // ---- rename ------------------------------------------------------------------

  lemma {:induction false} PutAllKeeps(s: Store, held: multiset<FidRef>, parent: Parents, order: seq<FidRef>)
    requires Inv(s, held + OldParents(parent, order))
    ensures Inv(PutAll(s, parent, order), held)
    decreases |order|
  {
    hide Inv, Put;
    if order == [] {
      assert held + multiset{} == held;
    } else {
      var front, last := order[..|order| - 1], order[|order| - 1];
      assert held + OldParents(parent, order) == held + Owed(parent, last) + OldParents(parent, front);
      PutAllKeeps(s, held + Owed(parent, last), parent, front);
      var p := Par(parent, last);
      if p != null {
        PutKeeps(PutAll(s, parent, front), held + multiset{p}, p);
        assert held + multiset{p} - multiset{p} == held;
      } else {
        assert held + Owed(parent, last) == held;
      }
    }
  }

  /** Fewer edges reach less. */
  lemma {:induction false} CutReaches(kids: Kids, n: PathNode, name: string, c: PathNode, p: seq<string>)
    requires n in kids && From(Without(kids, n, name), c, p) != null
    ensures From(kids, c, p) == From(Without(kids, n, name), c, p)
    decreases |p|
  {
    if p != [] { CutReaches(kids, n, name, c, p[..|p| - 1]); }
  }

  lemma CutBelowReaches(kids: Kids, n: PathNode, name: string, c: PathNode, m: PathNode)
    requires n in kids && m in Below(Without(kids, n, name), c)
    ensures Reaches(kids, c, m)
  {
    var p :| From(Without(kids, n, name), c, p) == m;
    CutReaches(kids, n, name, c, p);
  }

  /** Where the handlers call renameChildTo. */
  ghost predicate MayRename(s: Store, f: PathNode, oldName: string, t: FidRef, newName: string)
  {
    && f in s.kids && f !in s.deleted && Sound(s, t) && s.what[t].dir && s.what[t].node !in s.deleted
    && !(f == s.what[t].node && oldName == newName)
    && !Illegal(s, f, oldName, s.what[t].node, newName)
  }

  ghost predicate RenameGuard(s: Store, f: PathNode, oldName: string, t: FidRef, newName: string, order: seq<FidRef>)
  {
    MayRename(s, f, oldName, t, newName) && Lists(order, Movers(s.names, f, oldName))
  }

  /** Clearing the target name leaves the source, the target and the movers as they were. */
  lemma ClearedTarget(s: Store, held: multiset<FidRef>, f: PathNode, oldName: string, t: FidRef, newName: string,
                      order: seq<FidRef>)
    requires Inv(s, held) && t in held && RenameGuard(s, f, oldName, t, newName, order)
    requires oldName in Mark(s, s.what[t].node, newName).kids[f]
    ensures var s1 := Mark(s, s.what[t].node, newName);
            Inv(s1, held) && Movable(s1, f, oldName, PathTo(s1, f), t, newName, order)
  {
    hide Inv, From, Lists, Movers;
    var tn := s.what[t].node;
    var s1 := Mark(s, tn, newName);
    MarkKeeps(s, held, tn, newName);
    SoundHeld(s1, held, t);
    if f in s1.deleted {
      CutBelowReaches(s.kids, tn, newName, s.kids[tn][newName], f);
    }
    LiveReached(s1, held, f);
    var k, c := Without(s1.kids, f, oldName), s1.kids[f][oldName];
    if tn in Below(k, c) {
      CutBelowReaches(s1.kids, f, oldName, c, tn);
      var p :| From(s1.kids, c, p) == tn;
      CutReaches(s.kids, tn, newName, c, p);
    }
    assert Movers(s1.names, f, oldName) == Movers(s.names, f, oldName) by { SameMovers(s, tn, newName, f, oldName); }
  }

  lemma SameMovers(s: Store, tn: PathNode, newName: string, f: PathNode, oldName: string)
    requires tn in s.kids && !(f == tn && oldName == newName)
    ensures Movers(Mark(s, tn, newName).names, f, oldName) == Movers(s.names, f, oldName)
  {
  }

  lemma LiveReached(s: Store, held: multiset<FidRef>, n: PathNode)
    requires Inv(s, held) && n in s.kids && n !in s.deleted
    ensures Reaches(s.kids, s.root, n)
  {
    hide Known, Registered, Present, Lineage, Grounded, Counted, ClosedOnce, Sharing, Paths;
  }

  lemma MoverNotAtTarget(s: Store, held: multiset<FidRef>, f: PathNode, oldName: string, tn: PathNode, r: FidRef)
    requires Inv(s, held) && r in Movers(s.names, f, oldName)
    ensures r !in At(s.names[f := Unnamed(At(s.names, f), oldName)], tn)
  {
    hide Known, Tree, Present, Lineage, Grounded, Counted, ClosedOnce, Sharing, Paths, Registered, Hangs;
    FiledAt(s.kids, s.names, s.what, s.count, s.parent, f, r);
    if tn != f && r in At(s.names, tn) {
      FiledAt(s.kids, s.names, s.what, s.count, s.parent, tn, r);
    }
  }

  lemma RenameChildKeeps(s: Store, held: multiset<FidRef>, f: PathNode, oldName: string, t: FidRef, newName: string,
                         order: seq<FidRef>)
    requires Inv(s, held) && t in held && RenameGuard(s, f, oldName, t, newName, order)
    ensures var (s', ok) := RenameChild(s, f, oldName, t, newName, order); ok && Inv(s', held)
  {
    hide Inv, Graft, PutAll, From, Below, Mark, PathTo;
    var tn := s.what[t].node;
    var s1 := Mark(s, tn, newName);
    MarkKeeps(s, held, tn, newName);
    MarkShape(s, tn, newName);
    if oldName in s1.kids[f] {
      ClearedTarget(s, held, f, oldName, t, newName, order);
      forall r | r in order
        ensures r !in At(s1.names[f := Unnamed(At(s1.names, f), oldName)], tn)
      {
        MoverNotAtTarget(s1, held, f, oldName, tn, r);
      }
      GraftKeeps(s1, held, f, oldName, PathTo(s1, f), t, newName, order);
      PutAllKeeps(Graft(s1, f, oldName, PathTo(s1, f), t, newName, order), held, s1.parent, order);
    }
  }

  lemma MarkShape(s: Store, n: PathNode, name: string)
    requires n in s.kids
    ensures var s' := Mark(s, n, name);
            s' == s.(kids := s'.kids, deleted := s'.deleted, names := s'.names) && s'.kids.Keys == s.kids.Keys
              && s.deleted <= s'.deleted
  {
  }

  lemma Lookup2(s: Store, key: Key, tkey: Key)
    requires Inv(s, multiset{}) && key in s.fids && tkey in s.fids
    ensures var r, t := s.fids[key], s.fids[tkey];
            Sound(s, r) && Sound(s, t) && Inv(IncRef(IncRef(s, r), t), multiset{r, t})
  {
    hide Inv;
    var r, t := s.fids[key], s.fids[tkey];
    Lookup(s, key);
    FidLive(s, multiset{}, tkey);
    IncRefKeeps(IncRef(s, r), multiset{r}, t);
    assert multiset{r} + multiset{t} == multiset{r, t};
  }

  lemma Return2(s: Store, r: FidRef, t: FidRef)
    requires Inv(s, multiset{r, t})
    ensures Inv(Put(Put(s, t), r), multiset{})
  {
    hide Inv, Put;
    PutKeeps(s, multiset{r, t}, t);
    assert multiset{r, t} - multiset{t} == multiset{r};
    PutKeeps(Put(s, t), multiset{r}, r);
    assert multiset{r} - multiset{r} == multiset{};
  }

  lemma RenameAtKeeps(s: Store, key: Key, oldName: string, tkey: Key, newName: string, answer: Answer,
                      order: seq<FidRef>)
    requires Inv(s, multiset{})
    requires key in s.fids && Sound(s, s.fids[key]) ==> Lists(order, Movers(s.names, s.what[s.fids[key]].node, oldName))
    ensures var (s', reply) := RenameAt(s, key, oldName, tkey, newName, answer, order);
            Inv(s', multiset{}) && reply != Panic
  {
    hide Inv, Put, RenameChild, Lists;
    if key in s.fids && tkey in s.fids {
      var r, t := s.fids[key], s.fids[tkey];
      Lookup2(s, key, tkey);
      var s0 := IncRef(IncRef(s, r), t);
      Return2(s0, r, t);
      if RenameGuard(s0, s.what[r].node, oldName, t, newName, order) {
        RenameChildKeeps(s0, multiset{r, t}, s.what[r].node, oldName, t, newName, order);
        Return2(RenameChild(s0, s.what[r].node, oldName, t, newName, order).0, r, t);
      }
    }
  }

  lemma RenameKeeps(s: Store, key: Key, tkey: Key, newName: string, answer: Answer, order: seq<FidRef>)
    requires Inv(s, multiset{})
    requires RenameOrder(s, key, order)
    ensures var (s', reply) := Rename(s, key, tkey, newName, answer, order); Inv(s', multiset{}) && reply != Panic
  {
    hide Inv, Put, RenameChild, Lists;
    if key in s.fids && tkey in s.fids {
      var r, t := s.fids[key], s.fids[tkey];
      Lookup2(s, key, tkey);
      var s0 := IncRef(IncRef(s, r), t);
      Return2(s0, r, t);
      var p := Par(s.parent, r);
      if p != null && s.what[r].node !in s.deleted {
        FidLive(s, multiset{}, key);
        ParentAbove(s, multiset{}, r);
        var n := s.what[p].node;
        var oldName := At(s.names, n)[r];
        if RenameGuard(s0, n, oldName, t, newName, order) {
          RenameChildKeeps(s0, multiset{r, t}, n, oldName, t, newName, order);
          Return2(RenameChild(s0, n, oldName, t, newName, order).0, r, t);
        }
      }
    }
  }

  /** `order` is the order in which the rename of this fid visits the references it carries along. */
  ghost predicate RenameOrder(s: Store, key: Key, order: seq<FidRef>)
  {
    key in s.fids ==>
      var r := s.fids[key];
      var p := Par(s.parent, r);
      p != null && Sound(s, p) && r in At(s.names, s.what[p].node) ==>
        Lists(order, Movers(s.names, s.what[p].node, At(s.names, s.what[p].node)[r]))
  }
}
