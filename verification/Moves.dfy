/** What a granted rename does, in terms of paths. */
module Moves {
  import opened Objects
  import opened Forest
  import opened Bookkeeping
  import opened Reshape
  import opened Handlers
  import opened Safety
  import opened Consequences
  import Renaming

  // ---- the tree ----------------------------------------------------------------------------

  /** A path that never meets the node does not notice that one of its edges goes. */
  lemma {:induction false} CutAside(kids: Kids, n: PathNode, name: string, c: PathNode, q: seq<string>)
    requires n in kids && !Reaches(kids, c, n) && From(kids, c, q) != null
    ensures From(Without(kids, n, name), c, q) == From(kids, c, q)
    decreases |q|
  {
    if q != [] {
      CutAside(kids, n, name, c, q[..|q| - 1]);
      assert From(kids, c, q[..|q| - 1]) != n;
    }
  }

  /** A child does not lead back to its parent. */
  lemma NoWayBack(s: Store, held: multiset<FidRef>, f: PathNode, name: string)
    requires Inv(s, held) && f in s.kids && f !in s.deleted && name in s.kids[f]
    ensures !Reaches(s.kids, s.kids[f][name], f) && s.kids[f][name] in s.kids
  {
    hide Known, Registered, Present, Lineage, Grounded, Counted, ClosedOnce, Sharing, Paths, From;
    LiveReached(s, held, f);
    var p :| From(s.kids, s.root, p) == f;
    ChildSmaller(s.kids, s.root, p, name);
  }

  /** The three edges a rename changes, one after the other. */
  ghost function Renamed(kids: Kids, f: PathNode, oldName: string, tn: PathNode, newName: string): Kids
    requires f in kids && tn in kids && oldName in kids[f]
  {
    With(Without(Without(kids, tn, newName), f, oldName), tn, newName, kids[f][oldName])
  }

  /** What hung from the renamed entry hangs from it still. */
  lemma BelowKept(kids: Kids, f: PathNode, oldName: string, tn: PathNode, newName: string, q: seq<string>)
    requires f in kids && tn in kids && oldName in kids[f] && kids[f][oldName] in kids
    requires var c := kids[f][oldName]; !Reaches(kids, c, tn) && !Reaches(kids, c, f) && From(kids, c, q) != null
    ensures From(Renamed(kids, f, oldName, tn, newName), kids[f][oldName], q) == From(kids, kids[f][oldName], q)
  {
    hide From;
    var c, k := kids[f][oldName], Without(kids, tn, newName);
    CutAside(kids, tn, newName, c, q);
    if Reaches(k, c, f) {
      var p :| From(k, c, p) == f;
      CutReaches(kids, tn, newName, c, p);
    }
    CutAside(k, f, oldName, c, q);
    GraftAway(Without(k, f, oldName), c, tn, newName, c, q);
  }

  /** The tree after renameChildTo. */
  lemma RenameKids(s: Store, held: multiset<FidRef>, f: PathNode, oldName: string, t: FidRef, newName: string,
                   order: seq<FidRef>)
    requires Inv(s, held) && t in held && RenameGuard(s, f, oldName, t, newName, order) && oldName in s.kids[f]
    ensures var s' := RenameChild(s, f, oldName, t, newName, order).0;
            && s'.kids == Renamed(s.kids, f, oldName, s.what[t].node, newName)
            && s'.what == s.what && s'.fids == s.fids && s'.root == s.root && s'.isOpen == s.isOpen
  {
    hide Inv, Lists, Movers, Graft, PutAll, PathTo, From, Reaches;
    var tn := s.what[t].node;
    var s1 := Mark(s, tn, newName);
    RenameChildKeeps(s, held, f, oldName, t, newName, order);
    GraftColumns(s1, f, oldName, PathTo(s1, f), t, newName, order);
    PutAllColumns(Graft(s1, f, oldName, PathTo(s1, f), t, newName, order), s1.parent, order);
  }

  lemma GraftColumns(s: Store, f: PathNode, oldName: string, pf: seq<string>, t: FidRef, newName: string,
                     order: seq<FidRef>)
    requires CanGraft(s, f, oldName, t)
    ensures var s' := Graft(s, f, oldName, pf, t, newName, order);
            && s'.kids == With(Without(s.kids, f, oldName), s.what[t].node, newName, s.kids[f][oldName])
            && s'.what == s.what && s'.fids == s.fids && s'.root == s.root && s'.isOpen == s.isOpen
  {
  }

  lemma {:induction false} PutAllColumns(s: Store, parent: Parents, order: seq<FidRef>)
    ensures var s' := PutAll(s, parent, order);
            s'.kids == s.kids && s'.what == s.what && s'.fids == s.fids && s'.root == s.root && s'.isOpen == s.isOpen
    decreases |order|
  {
    hide Put;
    if order != [] {
      PutAllColumns(s, parent, order[..|order| - 1]);
      var p := Par(parent, order[|order| - 1]);
      if p != null { PutShape(PutAll(s, parent, order[..|order| - 1]), p); }
    }
  }

  // ---- the paths ------------------------------------------------------------------------------

  ghost predicate Follows(s: Store, x: FidRef)
  {
    x in s.what && Cnt(s.count, x) > 0 && s.what[x].node !in s.deleted && Tracked(s.root, s.what, s.parent, x)
  }

  lemma OnePath(s: Store, held: multiset<FidRef>, x: FidRef, p: seq<string>)
    requires Inv(s, held) && Follows(s, x)
    ensures From(s.kids, s.root, p) == s.what[x].node <==> p == PathOf(s.path, s.what[x].file)
  {
    hide Known, Registered, Present, Grounded, Counted, ClosedOnce, Sharing, From, Lineage;
    assert From(s.kids, s.root, PathOf(s.path, s.what[x].file)) == s.what[x].node;
    if From(s.kids, s.root, p) == s.what[x].node {
      PathUnique(s.kids, s.root, p, PathOf(s.path, s.what[x].file));
    }
  }

  /** A directory reference is tracked. */
  lemma DirFollows(s: Store, held: multiset<FidRef>, t: FidRef)
    requires Inv(s, held) && t in s.what && s.what[t].dir && Cnt(s.count, t) > 0 && s.what[t].node !in s.deleted
    ensures Follows(s, t)
  {
    hide Known, Tree, Registered, Present, Grounded, Counted, ClosedOnce, Sharing, Paths;
  }

  /** A reference found below an edge of a directory holds the directory's path, the edge's name, and the rest. */
  lemma BelowEdge(s: Store, held: multiset<FidRef>, t: FidRef, name: string, q: seq<string>, x: FidRef)
    requires Inv(s, held) && Follows(s, t) && Follows(s, x) && s.what[t].node in s.kids
    requires name in s.kids[s.what[t].node]
    requires From(s.kids, s.kids[s.what[t].node][name], q) == s.what[x].node
    ensures PathOf(s.path, s.what[x].file) == PathOf(s.path, s.what[t].file) + [name] + q
  {
    hide Inv, PathOf, From, Tracked;
    var pt := PathOf(s.path, s.what[t].file);
    OnePath(s, held, t, pt);
    OneEdge(s.kids, s.root, pt, name);
    FromConcat(s.kids, s.root, pt + [name], q);
    OnePath(s, held, x, pt + [name] + q);
  }

  lemma OneEdge(kids: Kids, top: PathNode, p: seq<string>, name: string)
    requires From(kids, top, p) != null && From(kids, top, p) in kids && name in kids[From(kids, top, p)]
    ensures From(kids, top, p + [name]) == kids[From(kids, top, p)][name]
  {
    assert (p + [name])[..|p|] == p;
  }

  // ---- the handlers ---------------------------------------------------------------------------

  /** The entry `oldName` of `f` is now the entry `newName` of `tn`, with everything below it; whoever refers to
      something below it holds the target's path, the new name, and the old remainder. */
  ghost predicate HasMoved(s: Store, s': Store, f: PathNode, oldName: string, t: FidRef, newName: string)
    requires t in s.what && f in s.kids && oldName in s.kids[f]
  {
    var c, tn := s.kids[f][oldName], s.what[t].node;
    && tn in s.kids && tn in s'.kids && newName in s'.kids[tn] && s'.kids[tn][newName] == c && f in s'.kids
    && oldName !in s'.kids[f]
    && (forall q :: From(s.kids, c, q) != null ==> From(s'.kids, c, q) == From(s.kids, c, q))
    && s'.what == s.what && s'.fids == s.fids && s'.isOpen == s.isOpen
    && s'.kids == Renamed(s.kids, f, oldName, tn, newName)
    && (forall x, q | x in s.what && Follows(s', x) && From(s.kids, c, q) == s.what[x].node ::
          PathOf(s'.path, s.what[x].file) == PathOf(s'.path, s.what[t].file) + [newName] + q)
  }

  lemma StepMoves(s: Store, r: FidRef, f: PathNode, oldName: string, t: FidRef, newName: string, order: seq<FidRef>)
    requires Inv(s, multiset{r, t}) && RenameGuard(s, f, oldName, t, newName, order) && oldName in s.kids[f]
    requires t in s.fids.Values
    ensures var s1 := RenameChild(s, f, oldName, t, newName, order).0;
            HasMoved(s, Put(Put(s1, t), r), f, oldName, t, newName)
  {
    hide Inv, Lists, Movers, RenameChild, Put, From, Follows, Illegal, Reaches;
    var held := multiset{r, t};
    var tn, c := s.what[t].node, s.kids[f][oldName];
    var s1 := RenameChild(s, f, oldName, t, newName, order).0;
    var s' := Put(Put(s1, t), r);
    RenameKids(s, held, f, oldName, t, newName, order);
    RenameChildKeeps(s, held, f, oldName, t, newName, order);
    PutShape(s1, t);
    PutShape(Put(s1, t), r);
    Return2(s1, r, t);
    NoWayBack(s, held, f, oldName);
    Apart(s, f, oldName, tn, newName);
    forall q | From(s.kids, c, q) != null ensures From(s'.kids, c, q) == From(s.kids, c, q) {
      BelowKept(s.kids, f, oldName, tn, newName, q);
    }
    TargetFollows(s, s', r, f, oldName, t, newName, order);
    forall x, q | x in s.what && Follows(s', x) && From(s.kids, c, q) == s.what[x].node
      ensures PathOf(s'.path, s.what[x].file) == PathOf(s'.path, s.what[t].file) + [newName] + q
    {
      BelowEdge(s', multiset{}, t, newName, q, x);
    }
  }

  lemma Apart(s: Store, f: PathNode, oldName: string, tn: PathNode, newName: string)
    requires f in s.kids && tn in s.kids && oldName in s.kids[f] && !Illegal(s, f, oldName, tn, newName)
    ensures !Reaches(s.kids, s.kids[f][oldName], tn)
  {
  }

  /** The target is alive, bound to its fid, and undeleted afterwards. */
  lemma TargetFollows(s: Store, s': Store, r: FidRef, f: PathNode, oldName: string, t: FidRef, newName: string,
                      order: seq<FidRef>)
    requires Inv(s, multiset{r, t}) && RenameGuard(s, f, oldName, t, newName, order) && t in s.fids.Values
    requires Inv(s', multiset{})
    requires s' == Put(Put(RenameChild(s, f, oldName, t, newName, order).0, t), r) && s'.fids == s.fids
    requires s'.what == s.what
    ensures Follows(s', t)
  {
    hide Inv, Lists, Movers, RenameChild, Put, From, Illegal, Follows;
    Renaming.SourceLive(s, multiset{r, t}, f, oldName, t, newName);
    RenameChildDeletes(s, f, oldName, t, newName, order);
    var s1 := RenameChild(s, f, oldName, t, newName, order).0;
    Return2Shape(s1, r, t);
    var key :| key in s'.fids && s'.fids[key] == t;
    FidLive(s', multiset{}, key);
    DirFollows(s', multiset{}, t);
  }

  /** A granted Trenameat of an existing entry moves it. */
  lemma RenameAtMoves(s: Store, key: Key, oldName: string, tkey: Key, newName: string, answer: Answer,
                      order: seq<FidRef>)
    requires Inv(s, multiset{}) && key in s.fids && tkey in s.fids && Sound(s, s.fids[key]) && Sound(s, s.fids[tkey])
    requires Lists(order, Movers(s.names, s.what[s.fids[key]].node, oldName))
    requires oldName in s.kids[s.what[s.fids[key]].node]
    requires RenameAt(s, key, oldName, tkey, newName, answer, order).1.Done?
    requires !(s.what[s.fids[key]].node == s.what[s.fids[tkey]].node && oldName == newName)
    ensures HasMoved(s, RenameAt(s, key, oldName, tkey, newName, answer, order).0, s.what[s.fids[key]].node, oldName,
              s.fids[tkey], newName)
  {
    hide Inv, Put, RenameChild, Lists, Illegal, HasMoved, Movers;
    var r, t := s.fids[key], s.fids[tkey];
    var n := s.what[r].node;
    Lookup2(s, key, tkey);
    var s0 := IncRef(IncRef(s, r), t);
    SameLegal(s, s0, n, oldName, s.what[t].node, newName);
    RenameChildKeeps(s0, multiset{r, t}, n, oldName, t, newName, order);
    StepMoves(s0, r, n, oldName, t, newName, order);
    MovedFrom(s, s0, RenameAt(s, key, oldName, tkey, newName, answer, order).0, n, oldName, t, newName);
  }

  lemma SameLegal(s: Store, s0: Store, f: PathNode, oldName: string, tn: PathNode, newName: string)
    requires s0.kids == s.kids && f in s.kids && tn in s.kids
    ensures Illegal(s0, f, oldName, tn, newName) == Illegal(s, f, oldName, tn, newName)
  {
  }

  lemma MovedFrom(s: Store, s0: Store, s': Store, f: PathNode, oldName: string, t: FidRef, newName: string)
    requires s0.kids == s.kids && s0.what == s.what && s0.fids == s.fids && s0.isOpen == s.isOpen
    requires t in s.what && f in s.kids && oldName in s.kids[f]
    requires HasMoved(s0, s', f, oldName, t, newName)
    ensures HasMoved(s, s', f, oldName, t, newName)
  {
    hide From, Follows;
  }

  /** So does a granted Trename of a fid that is not where it is to go already: the fid's own node is found at the
      new name. */
  lemma RenameMoves(s: Store, key: Key, tkey: Key, newName: string, answer: Answer, order: seq<FidRef>)
    requires Inv(s, multiset{}) && key in s.fids && tkey in s.fids && Sound(s, s.fids[key]) && Sound(s, s.fids[tkey])
    requires RenameOrder(s, key, order) && Rename(s, key, tkey, newName, answer, order).1.Done?
    requires !Hangs(s.kids, s.what[s.fids[tkey]].node, newName, s.what[s.fids[key]].node)
    ensures var r := s.fids[key];
            var p := Par(s.parent, r);
            && p != null && Sound(s, p) && r in At(s.names, s.what[p].node)
            && var n := s.what[p].node;
               var oldName := At(s.names, n)[r];
               && oldName in s.kids[n] && s.kids[n][oldName] == s.what[r].node
               && HasMoved(s, Rename(s, key, tkey, newName, answer, order).0, n, oldName, s.fids[tkey], newName)
  {
    hide Inv, Put, RenameChild, Lists, Illegal, HasMoved, Movers;
    var r, t := s.fids[key], s.fids[tkey];
    Lookup2(s, key, tkey);
    FidLive(s, multiset{}, key);
    ParentAbove(s, multiset{}, r);
    var p := Par(s.parent, r);
    var n := s.what[p].node;
    var oldName := At(s.names, n)[r];
    NamedEdge(s, r, n);
    var s0 := IncRef(IncRef(s, r), t);
    SameLegal(s, s0, n, oldName, s.what[t].node, newName);
    RenameChildKeeps(s0, multiset{r, t}, n, oldName, t, newName, order);
    StepMoves(s0, r, n, oldName, t, newName, order);
    MovedFrom(s, s0, Rename(s, key, tkey, newName, answer, order).0, n, oldName, t, newName);
  }

  lemma NamedEdge(s: Store, r: FidRef, n: PathNode)
    requires Inv(s, multiset{}) && r in At(s.names, n)
    ensures n in s.kids && r in s.what && Hangs(s.kids, n, At(s.names, n)[r], s.what[r].node)
  {
    hide Known, Tree, Present, Lineage, Grounded, Counted, ClosedOnce, Sharing, Paths;
  }
}
