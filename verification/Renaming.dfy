/** Between the two halves of renameChildTo: what is registered and which paths are held once the references have moved,
    and why notifying the moved subtree then sets every remaining path right. */
module Renaming {
  import opened Objects
  import opened Forest
  import opened Bookkeeping
  import opened Reshape
  import opened Handlers
  import opened Safety
  import opened Walks
  import opened Telling
  import opened Interleave

  // ---- the moved subtree can be notified --------------------------------------

  /** The store speaks about these references, and every file it knows holds a path. */
  ghost predicate Of(s: Store, refs: set<FidRef>)
  {
    && s.what.Keys == refs
    && (forall r | r in refs :: s.what[r] == Ref(r.node, r.file, r.dir) && r.file in s.path && r in s.count)
  }

  lemma HearsPath(s: Store, held: multiset<FidRef>, refs: set<FidRef>, m: PathNode, y: FidRef)
    requires Inv(s, held) && Of(s, refs) && m in s.names && y in s.names[m] && m !in s.deleted
    ensures Hears(s.kids, s.names, s.parent, refs, s.path, m, y)
  {
    hide Known, Present, Grounded, ClosedOnce, Sharing, Registered, Closed, SingleParent, Top, DeletedIsUnreachable;
    FiledAt(s.kids, s.names, s.what, s.count, s.parent, m, y);
    var q, x := Par(s.parent, y), s.names[m][y];
    assert y in Children(s.count, s.parent, q);
    EdgeLive(s.root, s.kids, s.deleted, m, x, y.node);
    var py, pq := s.path[y.file], s.path[q.file];
    assert Tracked(s.root, s.what, s.parent, y) && Tracked(s.root, s.what, s.parent, q);
    assert From(s.kids, s.root, py) == y.node && From(s.kids, s.root, pq) == m;
    assert (pq + [x])[..|pq|] == pq;
    PathUnique(s.kids, s.root, py, pq + [x]);
  }

  lemma ChainedUp(s: Store, held: multiset<FidRef>, refs: set<FidRef>, m: PathNode, y: FidRef)
    requires Inv(s, held) && Of(s, refs) && m in s.names && y in s.names[m] && m !in s.deleted && m != s.root
    ensures Chained(s.kids, s.names, s.parent, m, y)
  {
    hide Tree, Grounded, ClosedOnce, Sharing, Paths, Registered, Hangs;
    FiledAt(s.kids, s.names, s.what, s.count, s.parent, m, y);
    var q := Par(s.parent, y);
    assert y in Children(s.count, s.parent, q);
    ParentAbove(s, held, q);
  }

  lemma BelowLive(s: Store, held: multiset<FidRef>, n: PathNode, x: string, c: PathNode, m: PathNode)
    requires Inv(s, held) && Hangs(s.kids, n, x, c) && n !in s.deleted && m in Below(s.kids, c)
    ensures m in s.kids && m !in s.deleted && m != s.root
  {
    hide Known, Present, Lineage, Grounded, Counted, ClosedOnce, Sharing, Paths, Registered, From, SingleParent;
    var pn :| From(s.kids, s.root, pn) == n;
    ChildSmaller(s.kids, s.root, pn, x);
    var q :| From(s.kids, c, q) == m;
    FromConcat(s.kids, s.root, pn + [x], q);
    assert Reaches(s.kids, s.root, m);
    if m == s.root {
      FromNil(s.kids, s.root);
      PathUnique(s.kids, s.root, pn + [x] + q, []);
    }
  }

  lemma SubtreeNotifiable(s: Store, held: multiset<FidRef>, refs: set<FidRef>, n: PathNode, x: string, c: PathNode)
    requires Inv(s, held) && Of(s, refs) && Hangs(s.kids, n, x, c) && n !in s.deleted
    ensures Notifiable(s.kids, s.names, s.parent, refs, s.path, c)
  {
    hide Inv, Of, Below, Hears, Chained;
    forall m, y | m in Below(s.kids, c) && m in s.names && y in s.names[m]
      ensures Hears(s.kids, s.names, s.parent, refs, s.path, m, y) && Chained(s.kids, s.names, s.parent, m, y)
    {
      BelowLive(s, held, n, x, c, m);
      HearsPath(s, held, refs, m, y);
      ChainedUp(s, held, refs, m, y);
    }
    SharedNode(s, held, refs);
  }

  lemma SharedNode(s: Store, held: multiset<FidRef>, refs: set<FidRef>)
    requires Inv(s, held) && Of(s, refs)
    ensures forall y, z | y in refs && z in refs && y.file == z.file :: y.node == z.node
  {
    hide Known, Tree, Registered, Present, Lineage, Grounded, Counted, ClosedOnce, Paths;
  }

  // ---- the paths held when the references have moved ------------------------------

  ghost predicate MovesFile(what: Refs, order: seq<FidRef>, fl: File)
  {
    exists r :: r in order && r in what && what[r].file == fl
  }

  lemma {:induction false} MoveAllPaths(s: Store, f: PathNode, order: seq<FidRef>, t: FidRef, newName: string, fl: File)
    requires t in s.what && (forall r | r in order :: r in s.what) && !MovesFile(s.what, order, s.what[t].file)
    ensures PathOf(MoveAll(s, f, order, t, newName).path, fl)
         == if MovesFile(s.what, order, fl) then PathOf(s.path, s.what[t].file) + [newName] else PathOf(s.path, fl)
    ensures fl in MoveAll(s, f, order, t, newName).path <==> fl in s.path || MovesFile(s.what, order, fl)
    decreases |order|
  {
    hide Rename1;
    if order != [] {
      var front, last := order[..|order| - 1], order[|order| - 1];
      assert order == front + [last];
      assert forall g: File | MovesFile(s.what, front, g) :: MovesFile(s.what, order, g);
      assert last in order && MovesFile(s.what, order, s.what[last].file);
      MoveAllPaths(s, f, front, t, newName, fl);
      MoveAllPaths(s, f, front, t, newName, s.what[t].file);
      if fl != s.what[last].file && MovesFile(s.what, order, fl) {
        var r :| r in order && r in s.what && s.what[r].file == fl;
        assert r in front;
      }
    }
  }

  lemma {:induction false} PutAllPath(s: Store, parent: Parents, order: seq<FidRef>)
    ensures PutAll(s, parent, order).path == s.path
    decreases |order|
  {
    hide DecRef;
    if order != [] { PutAllPath(s, parent, order[..|order| - 1]); }
  }

  lemma {:induction false} PutAllFewer(s: Store, parent: Parents, order: seq<FidRef>, x: FidRef, m: PathNode)
    requires x in At(PutAll(s, parent, order).names, m)
    ensures x in At(s.names, m) && At(s.names, m)[x] == At(PutAll(s, parent, order).names, m)[x]
    decreases |order|
  {
    hide DecRef;
    if order != [] {
      var u := PutAll(s, parent, order[..|order| - 1]);
      var p := Par(parent, order[|order| - 1]);
      if p != null && Ends(u.parent, p) { FiledFewer(u, p, Height(u.parent, p), x, m); }
      PutAllFewer(s, parent, order[..|order| - 1], x, m);
    }
  }

  /** A mover sits at the moved node, its file at the old path; the target sits elsewhere. */
  lemma MoverFacts(s: Store, held: multiset<FidRef>, f: PathNode, oldName: string, pf: seq<string>, t: FidRef,
                   newName: string, order: seq<FidRef>, r: FidRef)
    requires Inv(s, held) && Movable(s, f, oldName, pf, t, newName, order) && r in order
    ensures r in s.what && s.what[r].node == s.kids[f][oldName] && Cnt(s.count, r) > 0
    ensures PathOf(s.path, s.what[r].file) == pf + [oldName]
    ensures s.what[r].file != s.what[t].file
  {
    hide Known, Present, Lineage, Grounded, Counted, ClosedOnce, Registered, Closed, SingleParent, Top;
    hide DeletedIsUnreachable, Below;
    FiledAt(s.kids, s.names, s.what, s.count, s.parent, f, r);
    var c := s.kids[f][oldName];
    EdgeLive(s.root, s.kids, s.deleted, f, oldName, c);
    assert Tracked(s.root, s.what, s.parent, r);
    assert (pf + [oldName])[..|pf|] == pf;
    PathUnique(s.kids, s.root, PathOf(s.path, s.what[r].file), pf + [oldName]);
    assert c in Below(Without(s.kids, f, oldName), c) by {
      ClosedKid(s.kids, f, oldName);
      BelowSelf(Without(s.kids, f, oldName), c);
    }
  }

  lemma ClosedKid(kids: Kids, f: PathNode, x: string)
    requires Closed(kids) && f in kids && x in kids[f]
    ensures kids[f][x] in kids
  {
  }

  /** The path the model gives a mover is the one the loop gave it. */
  lemma MoverWant(s: Store, held: multiset<FidRef>, f: PathNode, oldName: string, pf: seq<string>, t: FidRef,
                  newName: string, order: seq<FidRef>, r: FidRef)
    requires Inv(s, held) && Movable(s, f, oldName, pf, t, newName, order) && r in order
    ensures r in s.what
    ensures PathOf(Graft(s, f, oldName, pf, t, newName, order).path, s.what[r].file) == PathOf(s.path, s.what[t].file)
              + [newName]
  {
    hide Inv, Below, Rebase, Lists, With, Without, Refile, Repoint;
    MoverFacts(s, held, f, oldName, pf, t, newName, order, r);
    var k, c := Without(s.kids, f, oldName), s.kids[f][oldName];
    var base := PathOf(s.path, s.what[t].file) + [newName];
    RebaseHit(s.path, s.what, Affected(s.names, s.what, order, Below(k, c)), base, |pf| + 1, r);
    assert base + [] == base;
  }

  /** The references registered below the moved node are not the ones dropped on the way. */
  lemma {:induction false} StaysListed(s: Store, held: multiset<FidRef>, f: PathNode, oldName: string,
                                       order: seq<FidRef>, t: FidRef, newName: string, y: FidRef, m: PathNode)
    requires Inv(s, held) && t in held && t in s.what && f in s.kids && f !in s.deleted
    requires Distinct(order) && (forall o | o in order :: o in Movers(s.names, f, oldName) && o in s.what)
    requires y in s.what && m != f && m != s.what[t].node && !Reaches(s.kids, s.what[y].node, f) && y in At(s.names, m)
    ensures y in At(Underway(s, f, order, t, newName).names, m)
    decreases |order|
  {
    hide Inv, Distinct, Underway, Misses, DecRef, Put, Movers, Reaches;
    if order == [] {
      UnderwayNone(s, f, t, newName);
    } else {
      var front, r := order[..|order| - 1], order[|order| - 1];
      assert order == front + [r] && r in order;
      DistinctFront(front, r);
      StaysListed(s, held, f, oldName, front, t, newName, y, m);
      UnderwayStep(s, held, f, oldName, front, t, newName, r);
      var u, p := Underway(s, f, front, t, newName), Par(s.parent, r);
      MoverParent(s, held, f, oldName, r);
      ChainMisses(s, held, f, oldName, front, t, p, y);
      PutListed(u, p, y, m);
      AtRename1(Put(u, p).names, f, r, s.what[t].node, newName, m);
    }
  }

  lemma PutListed(u: Store, p: FidRef, y: FidRef, m: PathNode)
    requires Misses(u.parent, p, y) && y in At(u.names, m)
    ensures y in At(Put(u, p).names, m)
  {
    hide DecRef, Put;
    var k: nat :| Up(u.parent, p, k) == null && forall j: nat | j <= k :: Up(u.parent, p, j) != y;
    PutIs(u, p, k);
    StaysFiled(u, p, k, y, m);
  }

  lemma BelowKept(kids: Kids, f: PathNode, oldName: string, tn: PathNode, newName: string, m: PathNode)
    requires Closed(kids) && f in kids && oldName in kids[f] && tn in kids && newName !in Without(kids, f, oldName)[tn]
    requires m in Below(Without(kids, f, oldName), kids[f][oldName])
    ensures m in Below(With(Without(kids, f, oldName), tn, newName, kids[f][oldName]), kids[f][oldName])
  {
    var k, c := Without(kids, f, oldName), kids[f][oldName];
    var p :| From(k, c, p) == m;
    GraftAway(k, c, tn, newName, c, p);
  }

  /** An affected reference that is no mover is still registered below the moved node when the loop is over. */
  lemma StillBelow(s: Store, held: multiset<FidRef>, f: PathNode, oldName: string, pf: seq<string>, t: FidRef,
                   newName: string, order: seq<FidRef>, y: FidRef, m: PathNode)
    requires Inv(s, held) && t in held && Movable(s, f, oldName, pf, t, newName, order) && forall o | o in order ::
               o in s.what
    requires y in s.what && y in At(s.names, m) && m in Below(Without(s.kids, f, oldName), s.kids[f][oldName])
    ensures y in At(Underway(s, f, order, t, newName).names, m)
    ensures m in Below(Graft(s, f, oldName, pf, t, newName, order).kids, s.kids[f][oldName])
  {
    hide Known, Registered, Present, Lineage, Grounded, Counted, ClosedOnce, Sharing, Paths, Below, Underway, From;
    hide SingleParent, Top, DeletedIsUnreachable, Rebase, Affected, Repoint, Refile, Reaches;
    var k, c := Without(s.kids, f, oldName), s.kids[f][oldName];
    Detach(s.root, s.kids, s.deleted, f, oldName);
    FiledAt(s.kids, s.names, s.what, s.count, s.parent, m, y);
    if Reaches(s.kids, s.what[y].node, f) {
      CutBelowReaches(s.kids, f, oldName, c, m);
      EdgeReaches(s.kids, m, s.names[m][y], s.what[y].node);
      ReachesUp(s.kids, c, m, s.what[y].node);
      ReachesUp(s.kids, c, s.what[y].node, f);
      MovesWithin(s.root, s.kids, s.deleted, f, oldName, f);
    }
    StaysListed(s, held, f, oldName, order, t, newName, y, m);
    BelowKept(s.kids, f, oldName, s.what[t].node, newName, m);
  }

  /** A file that notifying the moved subtree does not tell holds its final path already. */
  lemma Settled(s: Store, held: multiset<FidRef>, refs: set<FidRef>, f: PathNode, oldName: string, pf: seq<string>,
                t: FidRef, newName: string, order: seq<FidRef>, fl: File)
    requires Inv(s, held) && t in held && Movable(s, f, oldName, pf, t, newName, order) && Of(s, refs)
    requires (forall o | o in order :: o in s.what)
    requires !Tells(Graft(s, f, oldName, pf, t, newName, order).kids, Underway(s, f, order, t, newName).names,
               s.kids[f][oldName], fl)
    ensures PathOf(Underway(s, f, order, t, newName).path, fl)
              == PathOf(Graft(s, f, oldName, pf, t, newName, order).path, fl)
  {
    hide Inv, Movable, Below, Rebase, MoveAll, With, Without, Refile, Repoint, TellsAt, PutAll, MovesFile;
    NoMoverAtTarget(s, held, f, oldName, pf, t, newName, order);
    var g, v := Graft(s, f, oldName, pf, t, newName, order), Underway(s, f, order, t, newName);
    var k, c := Without(s.kids, f, oldName), s.kids[f][oldName];
    PutAllPath(MoveAll(s, f, order, t, newName), s.parent, order);
    MoveAllPaths(s, f, order, t, newName, fl);
    if MovesFile(s.what, order, fl) {
      var r := MoverOf(s.what, order, fl);
      MoverWant(s, held, f, oldName, pf, t, newName, order, r);
    } else {
      var affected := Affected(s.names, s.what, order, Below(k, c));
      forall y | y in affected && y in s.what ensures s.what[y].file != fl {
        if s.what[y].file == fl {
          NotMoved(s.what, order, fl, y);
          var m :| m in Below(k, c) && y in At(s.names, m);
          StillBelow(s, held, f, oldName, pf, t, newName, order, y, m);
          ToldThere(v.names, m, y);
        }
      }
      RebaseMiss(s.path, s.what, affected, PathOf(s.path, s.what[t].file) + [newName], |pf| + 1, fl);
    }
  }

  lemma ToldThere(names: Names, m: PathNode, y: FidRef)
    requires y in At(names, m)
    ensures TellsAt(names, m, y.file)
  {
  }

  lemma MoverOf(what: Refs, order: seq<FidRef>, fl: File) returns (r: FidRef)
    requires MovesFile(what, order, fl)
    ensures r in order && r in what && what[r].file == fl
  {
    r :| r in order && r in what && what[r].file == fl;
  }

  lemma NotMoved(what: Refs, order: seq<FidRef>, fl: File, y: FidRef)
    requires !MovesFile(what, order, fl) && y in what && what[y].file == fl
    ensures y !in order
  {
  }

  lemma NoMoverAtTarget(s: Store, held: multiset<FidRef>, f: PathNode, oldName: string, pf: seq<string>, t: FidRef,
                        newName: string, order: seq<FidRef>)
    requires Inv(s, held) && Movable(s, f, oldName, pf, t, newName, order)
    ensures t in s.what && !MovesFile(s.what, order, s.what[t].file) && CanGraft(s, f, oldName, t)
  {
    hide Inv, Below, Lists;
    if MovesFile(s.what, order, s.what[t].file) {
      var r := MoverOf(s.what, order, s.what[t].file);
      MoverFacts(s, held, f, oldName, pf, t, newName, order, r);
    }
  }

  /** What hangs from the moved node hangs from a mover. */
  lemma ParentMoved(s: Store, held: multiset<FidRef>, f: PathNode, oldName: string, pf: seq<string>, t: FidRef,
                    newName: string, order: seq<FidRef>, y: FidRef)
    requires Inv(s, held) && Movable(s, f, oldName, pf, t, newName, order)
    requires var s3 := PutAll(Graft(s, f, oldName, pf, t, newName, order), s.parent, order);
             Inv(s3, held) && y in At(s3.names, s.kids[f][oldName]) && s3.what == s.what && s3.deleted == s.deleted
             && s3.kids == Graft(s, f, oldName, pf, t, newName, order).kids && s3.root == s.root
    ensures var s3 := PutAll(Graft(s, f, oldName, pf, t, newName, order), s.parent, order);
            Par(s3.parent, y) != null && Par(s3.parent, y) in order
  {
    hide Inv, PutAll, Below, Rebase, Affected, Repoint, Refile, Lists;
    var c, tn, g := s.kids[f][oldName], s.what[t].node, Graft(s, f, oldName, pf, t, newName, order);
    var s3 := PutAll(g, s.parent, order);
    assert Hangs(s3.kids, tn, newName, c);
    var q := AtMoved(s3, held, tn, newName, c, y);
    PutAllFewer(g, s.parent, order, q, tn);
    Refiled(s, held, f, oldName, t, newName, order, q);
  }

  lemma AtMoved(s: Store, held: multiset<FidRef>, n: PathNode, x: string, c: PathNode, y: FidRef) returns (q: FidRef)
    requires Inv(s, held) && Hangs(s.kids, n, x, c) && n !in s.deleted && y in At(s.names, c)
    ensures Par(s.parent, y) == q && q in At(s.names, n) && At(s.names, n)[q] == x
  {
    hide Present, Grounded, ClosedOnce, Sharing, Paths, Registered, Top, DeletedIsUnreachable, From;
    FiledAt(s.kids, s.names, s.what, s.count, s.parent, c, y);
    q := Par(s.parent, y);
    assert y in Children(s.count, s.parent, q);
    EdgeLive(s.root, s.kids, s.deleted, n, x, c);
    ParentAbove(s, held, q);
    var g := s.what[Par(s.parent, q)].node;
    OneEdge(s.kids, n, x, g, At(s.names, g)[q], c);
  }

  lemma Refiled(s: Store, held: multiset<FidRef>, f: PathNode, oldName: string, t: FidRef, newName: string,
                order: seq<FidRef>, q: FidRef)
    requires Inv(s, held) && CanGraft(s, f, oldName, t) && newName !in Without(s.kids, f, oldName)[s.what[t].node]
    requires var names := Refile(s.names, f, oldName, s.what[t].node, newName, order);
             q in At(names, s.what[t].node) && At(names, s.what[t].node)[q] == newName
    ensures q in order
  {
    hide Known, Tree, Present, Lineage, Grounded, Counted, ClosedOnce, Sharing, Paths, Registered;
    var tn := s.what[t].node;
    if q !in order {
      assert q in At(s.names, tn) && At(s.names, tn)[q] == newName;
      FiledAt(s.kids, s.names, s.what, s.count, s.parent, tn, q);
    }
  }

  // ---- one turn of the loop --------------------------------------------------------

  /** The mover after its old parent was dropped: pointed at the target, counted there, listed there, told. */
  ghost function Arrived(u: Store, r: FidRef, t: FidRef, newName: string): Store
    requires r in u.what && t in u.what
  {
    var tn := u.what[t].node;
    u.(parent := u.parent[r := t],
       count := u.count[t := Cnt(u.count, t) + 1],
       names := u.names[tn := At(u.names, tn)[r := newName]],
       path := u.path[u.what[r].file := PathOf(u.path, u.what[t].file) + [newName]])
  }

  lemma Shifted(d: Store, f: PathNode, r: FidRef, t: FidRef, newName: string)
    requires r in d.what && t in d.what && r in d.count && r != t
    ensures var a := Arrived(Unlisted(d, f, r, Cnt(d.count, r) + 1), r, t, newName);
            a.(count := a.count[r := Cnt(a.count, r) - 1]) == MoveOne(d, f, r, t, newName)
  {
    hide At;
    var c, x := Cnt(d.count, r), Cnt(d.count, t) + 1;
    assert d.count[r := c + 1][t := x][r := c] == d.count[t := x];
  }

  lemma OffList(v: Store, p: FidRef, k: nat, f: PathNode, r: FidRef, tn: PathNode, c: int)
    requires Up(v.parent, p, k) == null && (f == tn || r !in At(v.names, tn))
    ensures r !in At(Unlisted(DecRef(v, p, k), f, r, c).names, tn)
  {
    hide DecRef;
    if r in At(DecRef(v, p, k).names, tn) { FiledFewer(v, p, k, r, tn); }
  }

  /** The end of one turn: the hold taken for the callback is given back and the mover has moved. */
  lemma Landing(d: Store, f: PathNode, r: FidRef, t: FidRef, newName: string)
    requires r in d.what && t in d.what && r in d.count && r != t && Cnt(d.count, r) > 0 && Ends(d.parent[r := t], r)
    ensures var a := Arrived(Unlisted(d, f, r, Cnt(d.count, r) + 1), r, t, newName);
            Ends(a.parent, r) && DecRef(a, r, Height(a.parent, r)) == MoveOne(d, f, r, t, newName)
  {
    hide DecRef, Die, Ends, MoveOne, At, PathOf;
    var a := Arrived(Unlisted(d, f, r, Cnt(d.count, r) + 1), r, t, newName);
    ArrivedRow(d, f, r, t, newName);
    DecRefStep(a, r, Height(a.parent, r));
    Shifted(d, f, r, t, newName);
  }

  lemma ArrivedRow(d: Store, f: PathNode, r: FidRef, t: FidRef, newName: string)
    requires r in d.what && t in d.what && r != t
    ensures var a := Arrived(Unlisted(d, f, r, Cnt(d.count, r) + 1), r, t, newName);
            a.parent == d.parent[r := t] && a.what == d.what && Cnt(a.count, r) == Cnt(d.count, r) + 1
  {
    hide At, PathOf;
  }

  /** One turn of the loop, step by step: off the list and held, parent dropped, arrived, hold given back. */
  lemma Turn(v: Store, p: FidRef, k: nat, f: PathNode, r: FidRef, t: FidRef, newName: string)
    requires r in v.what && t in v.what && p in v.what && r in v.count && r != t && Cnt(v.count, r) > 0
    requires Up(v.parent, p, k) == null && Avoids(v.parent, p, k, r) && Ends(v.parent[r := t], r)
    requires forall x {:trigger v.parent[x]} | x in v.parent :: v.parent[x] == null || v.parent[x] in v.what
    requires f == v.what[t].node || r !in At(v.names, v.what[t].node)
    ensures var d := DecRef(v, p, k);
            var u := DecRef(Unlisted(v, f, r, Cnt(v.count, r) + 1), p, k);
            && u.what == v.what && d.what == v.what && r !in At(u.names, v.what[t].node)
            && (var a := Arrived(u, r, t, newName);
                Ends(a.parent, r) && DecRef(a, r, Height(a.parent, r)) == MoveOne(d, f, r, t, newName))
  {
    hide DecRef, Up, Avoids, Ends, At, Cnt, MoveOne, Arrived;
    UnlistedDecRef(v, p, k, f, r, Cnt(v.count, r) + 1);
    DroppedRow(v, p, k, r);
    OffList(v, p, k, f, r, v.what[t].node, Cnt(v.count, r) + 1);
    Landing(DecRef(v, p, k), f, r, t, newName);
  }

  lemma SameUp(s: Store, f: PathNode, r: FidRef, c: int)
    ensures Unlisted(s, f, r, c).parent == s.parent && Unlisted(s, f, r, c).what == s.what
  {
  }

  // ---- the loop of renameChildTo -----------------------------------------------------

  /** What the loop relies on: a live source and target, and no mover above the target. */
  ghost predicate CanShift(s: Store, held: multiset<FidRef>, f: PathNode, oldName: string, t: FidRef, newName: string)
  {
    && Inv(s, held) && t in held && t in s.what && f in s.kids && f !in s.deleted && s.what[t].node !in s.deleted
    && !(f == s.what[t].node && oldName == newName)
    && forall y | y in Movers(s.names, f, oldName) :: y in s.what && !Reaches(s.kids, s.what[y].node, s.what[t].node)
  }

  /** How far the loop has come: `order` lists movers, each once. */
  ghost predicate Some(s: Store, f: PathNode, oldName: string, order: seq<FidRef>)
  {
    Distinct(order) && forall o | o in order :: o in s.what && o in Movers(s.names, f, oldName)
  }

  lemma NotThere(s: Store, held: multiset<FidRef>, f: PathNode, oldName: string, order: seq<FidRef>, t: FidRef,
                 newName: string, x: FidRef)
    requires CanShift(s, held, f, oldName, t, newName) && Some(s, f, oldName, order)
    requires x in Movers(s.names, f, oldName) && x !in order && f != s.what[t].node
    ensures x !in At(Underway(s, f, order, t, newName).names, s.what[t].node)
  {
    hide Inv, MoveAll, PutAll, Distinct;
    var tn := s.what[t].node;
    if x in At(Underway(s, f, order, t, newName).names, tn) {
      PutAllFewer(MoveAll(s, f, order, t, newName), s.parent, order, x, tn);
      MoveAllNames(s, f, order, t, newName, tn);
      MoverNotAtTarget(s, held, f, oldName, tn, x);
    }
  }

  lemma Remaining(s: Store, held: multiset<FidRef>, f: PathNode, oldName: string, order: seq<FidRef>, t: FidRef,
                  newName: string)
    requires CanShift(s, held, f, oldName, t, newName) && Some(s, f, oldName, order)
    ensures Movers(Underway(s, f, order, t, newName).names, f, oldName)
              == Movers(s.names, f, oldName) - (set x | x in order)
  {
    hide Inv, Movers, Distinct, Underway, Reaches;
    var a, b := Movers(Underway(s, f, order, t, newName).names, f, oldName),
          Movers(s.names, f, oldName) - (set x | x in order);
    forall x | x in a ensures x in b { UnderwayMovers(s, held, f, oldName, order, t, newName, x); }
    forall x | x in b ensures x in a { UnderwayMovers(s, held, f, oldName, order, t, newName, x); }
  }

  lemma SomeMore(s: Store, f: PathNode, oldName: string, order: seq<FidRef>, r: FidRef)
    requires Some(s, f, oldName, order) && r !in order && r in s.what && r in Movers(s.names, f, oldName)
    ensures Some(s, f, oldName, order + [r])
  {
  }

  lemma NextTurn(s: Store, held: multiset<FidRef>, f: PathNode, oldName: string, order: seq<FidRef>, t: FidRef,
                 newName: string, r: FidRef) returns (k: nat)
    requires CanShift(s, held, f, oldName, t, newName) && Some(s, f, oldName, order)
    requires r in Movers(s.names, f, oldName) && r !in order
    ensures Some(s, f, oldName, order + [r]) && r != t
    ensures var u, p := Underway(s, f, order, t, newName), Par(s.parent, r);
            && p != null && Par(u.parent, r) == p && Cnt(u.count, r) > 0 && u.what == s.what
            && Up(u.parent, p, k) == null && Avoids(u.parent, p, k, r) && Ends(u.parent[r := t], r)
            && (f == s.what[t].node || r !in At(u.names, s.what[t].node))
            && Underway(s, f, order + [r], t, newName) == MoveOne(DecRef(u, p, k), f, r, t, newName)
  {
    hide Inv, Movers, Distinct, Underway, Reaches, MoveOne, DecRef, Put, Ends, At;
    SomeMore(s, f, oldName, order, r);
    UnderwayStep(s, held, f, oldName, order, t, newName, r);
    var u, p := Underway(s, f, order, t, newName), Par(s.parent, r);
    RepointPar(s.parent, order, t, r);
    k :| Up(u.parent, p, k) == null && forall j: nat | j <= k :: Up(u.parent, p, j) != r;
    PutIs(u, p, k);
    if f != s.what[t].node { NotThere(s, held, f, oldName, order, t, newName, r); }
    ReachesSelf(s.kids, s.what[t].node);
    var all := order + [r];
    assert Repoint(s.parent, all, t)
             == Repoint(s.parent, order, t)[r := t] by { assert all[..|all| - 1] == order && all[|all| - 1] == r; }
    HeldIn(s, held, t);
    GraftGrounded(s, held, all, t);
    RepointPar(s.parent, all, t, r);
  }

  lemma Started(s: Store, held: multiset<FidRef>, f: PathNode, oldName: string, t: FidRef, newName: string)
    requires CanShift(s, held, f, oldName, t, newName)
    ensures t in s.what && Some(s, f, oldName, []) && Underway(s, f, [], t, newName) == s
  {
    hide Inv, Reaches;
    UnderwayNone(s, f, t, newName);
  }

  lemma SomeKnown(s: Store, f: PathNode, oldName: string, order: seq<FidRef>)
    requires Some(s, f, oldName, order)
    ensures forall o | o in order :: o in s.what
  {
  }

  lemma AllListed(s: Store, f: PathNode, oldName: string, order: seq<FidRef>)
    requires Some(s, f, oldName, order) && Movers(s.names, f, oldName) - (set x | x in order) == {}
    ensures Lists(order, Movers(s.names, f, oldName))
  {
    hide Movers;
    assert forall x | x in Movers(s.names, f, oldName) ::
             x in (set x | x in order) || x in Movers(s.names, f, oldName) - (set x | x in order);
  }

  // ---- around the loop ---------------------------------------------------------------

  lemma SourceLive(s: Store, held: multiset<FidRef>, f: PathNode, oldName: string, t: FidRef, newName: string)
    requires Inv(s, held) && t in held && MayRename(s, f, oldName, t, newName)
    ensures var s1 := Mark(s, s.what[t].node, newName);
            Inv(s1, held) && f in s1.kids && f !in s1.deleted && s.what[t].node !in s1.deleted
  {
    hide Inv, From;
    var tn := s.what[t].node;
    MarkKeeps(s, held, tn, newName);
    if f in Mark(s, tn, newName).deleted {
      CutBelowReaches(s.kids, tn, newName, s.kids[tn][newName], f);
    }
  }

  lemma MoverApart(s: Store, held: multiset<FidRef>, f: PathNode, oldName: string, t: FidRef, newName: string,
                   y: FidRef)
    requires Inv(s, held) && t in held && MayRename(s, f, oldName, t, newName)
    requires var s1 := Mark(s, s.what[t].node, newName); Inv(s1, held) && y in Movers(s1.names, f, oldName)
    ensures var s1 := Mark(s, s.what[t].node, newName);
            y in s1.what && !Reaches(s1.kids, s1.what[y].node, s.what[t].node)
  {
    hide Known, Tree, Registered, Present, Lineage, Grounded, Counted, ClosedOnce, Sharing, Paths, From, Below;
    var tn := s.what[t].node;
    var s1 := Mark(s, tn, newName);
    FiledAt(s1.kids, s1.names, s1.what, s1.count, s1.parent, f, y);
    if Reaches(s1.kids, s1.what[y].node, tn) {
      var p :| From(s1.kids, s1.what[y].node, p) == tn;
      CutReaches(s.kids, tn, newName, s1.what[y].node, p);
    }
  }

  lemma LoopMayStart(s: Store, held: multiset<FidRef>, f: PathNode, oldName: string, t: FidRef, newName: string)
    requires Inv(s, held) && t in held && MayRename(s, f, oldName, t, newName)
    ensures CanShift(Mark(s, s.what[t].node, newName), held, f, oldName, t, newName)
  {
    hide Inv, Reaches, Below, Illegal, Movers;
    var s1 := Mark(s, s.what[t].node, newName);
    SourceLive(s, held, f, oldName, t, newName);
    forall y | y in Movers(s1.names, f, oldName) ensures y in s1.what
      && !Reaches(s1.kids, s1.what[y].node, s1.what[t].node) {
      MoverApart(s, held, f, oldName, t, newName, y);
    }
  }

  /** Nothing is registered under a name without a node. */
  lemma NoNodeNoMovers(s: Store, held: multiset<FidRef>, f: PathNode, oldName: string)
    requires Inv(s, held) && f in s.kids && oldName !in s.kids[f]
    ensures Movers(s.names, f, oldName) == {}
  {
    hide Known, Tree, Registered, Present, Lineage, Grounded, Counted, ClosedOnce, Sharing, Paths;
    forall y | y in Movers(s.names, f, oldName) ensures false {
      FiledAt(s.kids, s.names, s.what, s.count, s.parent, f, y);
    }
  }

  lemma GraftPathKeys(s: Store, refs: set<FidRef>, f: PathNode, oldName: string, pf: seq<string>, t: FidRef,
                      newName: string, order: seq<FidRef>)
    requires Of(s, refs) && CanGraft(s, f, oldName, t)
    ensures Graft(s, f, oldName, pf, t, newName, order).path.Keys == s.path.Keys
  {
    hide Below, Affected;
  }

  lemma UnderwayPathKeys(s: Store, held: multiset<FidRef>, refs: set<FidRef>, f: PathNode, oldName: string,
                         pf: seq<string>, t: FidRef, newName: string, order: seq<FidRef>)
    requires Inv(s, held) && Movable(s, f, oldName, pf, t, newName, order) && Of(s, refs) && forall o | o in order ::
               o in s.what
    ensures Underway(s, f, order, t, newName).path.Keys == s.path.Keys
  {
    hide Inv, Movable, MoveAll, PutAll;
    NoMoverAtTarget(s, held, f, oldName, pf, t, newName, order);
    PutAllPath(MoveAll(s, f, order, t, newName), s.parent, order);
    var a := Underway(s, f, order, t, newName).path;
    forall fl | fl in a ensures fl in s.path { MoveAllPaths(s, f, order, t, newName, fl); }
    forall fl | fl in s.path ensures fl in a { MoveAllPaths(s, f, order, t, newName, fl); }
  }

  /** After the loop and the move of the edge, only paths are left to set: the state to reach is sound and its
      subtree can be notified. */
  ghost predicate Ready(s: Store, held: multiset<FidRef>, refs: set<FidRef>, f: PathNode, oldName: string,
                        pf: seq<string>, t: FidRef, newName: string, order: seq<FidRef>)
  {
    && Inv(s, held) && t in held && Movable(s, f, oldName, pf, t, newName, order) && Of(s, refs)
    && (forall o | o in order :: o in s.what) && f in s.names && s.what[t].node in s.names
    && Inv(PutAll(Graft(s, f, oldName, pf, t, newName, order), s.parent, order), held)
  }

  lemma Target(s: Store, held: multiset<FidRef>, refs: set<FidRef>, f: PathNode, oldName: string, pf: seq<string>,
               t: FidRef, newName: string, order: seq<FidRef>)
    requires Ready(s, held, refs, f, oldName, pf, t, newName, order)
    ensures CanGraft(s, f, oldName, t)
    ensures var g := Graft(s, f, oldName, pf, t, newName, order);
            var s3, v := PutAll(g, s.parent, order), Underway(s, f, order, t, newName);
            && s3 == v.(kids := g.kids, path := g.path) && Of(s3, refs)
            && s3.root == s.root && s3.deleted == s.deleted && s3.what == s.what
            && s3.path.Keys == s.path.Keys && v.path.Keys == s.path.Keys
  {
    hide Inv, PutAll, MoveAll, Below, Rebase, Affected, Repoint, Refile, Lists, Movers, Reaches;
    var g := Graft(s, f, oldName, pf, t, newName, order);
    assert t in s.count && forall r | r in refs :: r in s.count;
    LoopDone(s, f, oldName, pf, order, t, newName);
    GraftPathKeys(s, refs, f, oldName, pf, t, newName, order);
    UnderwayPathKeys(s, held, refs, f, oldName, pf, t, newName, order);
    PutAllFrame1(g, s.parent, order);
  }

  lemma {:induction false} PutAllFrame1(s: Store, parent: Parents, order: seq<FidRef>)
    ensures var u := PutAll(s, parent, order);
            u == s.(count := u.count, closes := u.closes, names := u.names) && forall r | r in s.count :: r in u.count
    decreases |order|
  {
    hide DecRef;
    if order != [] {
      PutAllFrame1(s, parent, order[..|order| - 1]);
      var u := PutAll(s, parent, order[..|order| - 1]);
      var p := Par(parent, order[|order| - 1]);
      if p != null && Ends(u.parent, p) { CountKeys(u, p, Height(u.parent, p)); }
    }
  }

  lemma {:induction false} CountKeys(s: Store, r: FidRef, k: nat)
    requires Up(s.parent, r, k) == null
    ensures forall x | x in s.count :: x in DecRef(s, r, k).count
    decreases k
  {
    if Cnt(s.count, r) == 1 && r in s.what && Par(s.parent, r) != null {
      CountKeys(Die(s, r), Par(s.parent, r), k - 1);
    }
  }

  /** The moved node, found in the new tree, can be notified there. */
  lemma TourReady(s: Store, held: multiset<FidRef>, refs: set<FidRef>, f: PathNode, oldName: string, pf: seq<string>,
                  t: FidRef, newName: string, order: seq<FidRef>)
      returns (p: seq<string>)
    requires Ready(s, held, refs, f, oldName, pf, t, newName, order) && CanGraft(s, f, oldName, t)
    ensures var g := Graft(s, f, oldName, pf, t, newName, order);
            var s3, c := PutAll(g, s.parent, order), s.kids[f][oldName];
            && Closed(s3.kids) && SingleParent(s3.kids) && Top(s3.kids, s3.root) && From(s3.kids, s3.root, p) == c
            && c in s3.kids
            && Notifiable(s3.kids, s3.names, s3.parent, refs, s3.path, c)
  {
    hide Known, Registered, Present, Lineage, Grounded, Counted, ClosedOnce, Sharing, Paths, PutAll, Below, Rebase;
    hide Affected, Repoint, Refile, Lists, Movers, Reaches, Of, From, Closed, SingleParent, Top, Notifiable;
    var g := Graft(s, f, oldName, pf, t, newName, order);
    var s3, c, tn := PutAll(g, s.parent, order), s.kids[f][oldName], s.what[t].node;
    Target(s, held, refs, f, oldName, pf, t, newName, order);
    assert Hangs(s3.kids, tn, newName, c);
    SubtreeNotifiable(s3, held, refs, tn, newName, c);
    LiveReached(s3, held, tn);
    p := PathVia(s3.kids, s3.root, tn, newName, c);
  }

  lemma PathVia(kids: Kids, root: PathNode, n: PathNode, x: string, c: PathNode) returns (p: seq<string>)
    requires Closed(kids) && Reaches(kids, root, n) && Hangs(kids, n, x, c)
    ensures From(kids, root, p) == c && c in kids
  {
    var q :| From(kids, root, q) == n;
    p := q + [x];
    assert p[..|p| - 1] == q;
  }

  /** What hangs directly from the moved node has a parent whose file holds its final path already. */
  lemma ParentsReady(s: Store, held: multiset<FidRef>, refs: set<FidRef>, f: PathNode, oldName: string, pf: seq<string>,
                     t: FidRef, newName: string, order: seq<FidRef>, y: FidRef)
    requires Ready(s, held, refs, f, oldName, pf, t, newName, order) && CanGraft(s, f, oldName, t)
    requires y in At(PutAll(Graft(s, f, oldName, pf, t, newName, order), s.parent, order).names, s.kids[f][oldName])
    ensures var s3, v := PutAll(Graft(s, f, oldName, pf, t, newName, order), s.parent, order),
              Underway(s, f, order, t, newName);
            var q := Par(s3.parent, y);
            q != null && q in s.what && s.what[q].file in s3.path
              && PathOf(v.path, s.what[q].file) == PathOf(s3.path, s.what[q].file)
  {
    hide Inv, PutAll, MoveAll, Below, Rebase, Affected, Repoint, Refile, Lists, Movers, Reaches, MovesFile, With;
    hide Without;
    var g := Graft(s, f, oldName, pf, t, newName, order);
    var s3, v := PutAll(g, s.parent, order), Underway(s, f, order, t, newName);
    Target(s, held, refs, f, oldName, pf, t, newName, order);
    ParentMoved(s, held, f, oldName, pf, t, newName, order, y);
    var q := Par(s3.parent, y);
    MoverWant(s, held, f, oldName, pf, t, newName, order, q);
    NoMoverAtTarget(s, held, f, oldName, pf, t, newName, order);
    PutAllPath(MoveAll(s, f, order, t, newName), s.parent, order);
    MoveAllPaths(s, f, order, t, newName, s.what[q].file);
    assert MovesFile(s.what, order, s.what[q].file) by { MovesThis(s.what, order, q); }
  }

  lemma MovesThis(what: Refs, order: seq<FidRef>, q: FidRef)
    requires q in order && q in what
    ensures MovesFile(what, order, what[q].file)
  {
  }

  // ---- renameChildTo as a whole --------------------------------------------------------

  lemma GuardFacts(s: Store, held: multiset<FidRef>, f: PathNode, oldName: string, t: FidRef, newName: string)
    requires Inv(s, held) && MayRename(s, f, oldName, t, newName)
    ensures Tree(s.root, s.kids, s.deleted) && t in s.what && f in s.kids && s.what[t].node in s.kids
    ensures s.what[t].node !in s.deleted
  {
    hide Known, Tree, Registered, Present, Lineage, Grounded, Counted, ClosedOnce, Sharing, Paths;
  }

  /** With no node under the old name nothing moves. */
  lemma NothingMoves(s: Store, held: multiset<FidRef>, f: PathNode, oldName: string, t: FidRef, newName: string,
                     order: seq<FidRef>)
    requires Inv(s, held) && t in s.what && Some(s, f, oldName, order) && f in s.kids && oldName !in s.kids[f]
    ensures Underway(s, f, order, t, newName) == s && Without(s.kids, f, oldName) == s.kids
  {
    hide Inv, Movers;
    assert order == [] || order[0] in order;
    NoNodeNoMovers(s, held, f, oldName);
    UnderwayNone(s, f, t, newName);
    assert s.kids[f] - {oldName} == s.kids[f];
  }

  lemma {:induction false} UnderwayKids(s: Store, f: PathNode, order: seq<FidRef>, t: FidRef, newName: string)
    requires t in s.what && t in s.count && forall r | r in order :: r in s.what
    ensures Underway(s, f, order, t, newName).kids == s.kids
  {
    hide MoveAll, PutAll;
    MoveAllRest(s, f, order, t, newName);
    PutAllFrame1(MoveAll(s, f, order, t, newName), s.parent, order);
  }

  lemma MarkOf(s: Store, refs: set<FidRef>, n: PathNode, name: string, f: PathNode)
    requires Of(s, refs) && n in s.kids && n in s.names && f in s.names
    ensures var s1 := Mark(s, n, name); Of(s1, refs) && n in s1.names && f in s1.names
  {
    hide Below;
  }

  lemma Moving(s0: Store, held: multiset<FidRef>, refs: set<FidRef>, f: PathNode, oldName: string, t: FidRef,
               newName: string, order: seq<FidRef>)
    requires Inv(s0, held) && t in held && MayRename(s0, f, oldName, t, newName) && Of(s0, refs) && f in s0.names
    requires s0.what[t].node in s0.names
    requires var s := Mark(s0, s0.what[t].node, newName);
             Some(s, f, oldName, order) && Lists(order, Movers(s.names, f, oldName)) && oldName in s.kids[f]
    ensures var s := Mark(s0, s0.what[t].node, newName);
            && Ready(s, held, refs, f, oldName, PathTo(s, f), t, newName, order)
            && RenameChild(s0, f, oldName, t, newName, order).0
                 == PutAll(Graft(s, f, oldName, PathTo(s, f), t, newName, order), s.parent, order)
  {
    hide Inv, PutAll, Graft, Below, Reaches, Lists, Movers, PathTo, Mark, Illegal, Of, At, Without;
    var tn := s0.what[t].node;
    var s := Mark(s0, tn, newName);
    assert Movers(s.names, f, oldName) == Movers(s0.names, f, oldName) by { SameMovers(s0, tn, newName, f, oldName); }
    RenameChildKeeps(s0, held, f, oldName, t, newName, order);
    ClearedTarget(s0, held, f, oldName, t, newName, order);
    MarkOf(s0, refs, tn, newName, f);
    MarkShape(s0, tn, newName);
  }

  lemma Ordered(s0: Store, f: PathNode, oldName: string, t: FidRef, newName: string, order: seq<FidRef>)
    requires MayRename(s0, f, oldName, t, newName)
    requires Lists(order, Movers(Mark(s0, s0.what[t].node, newName).names, f, oldName))
    ensures RenameGuard(s0, f, oldName, t, newName, order)
  {
    hide Illegal, Lists, Movers, Mark;
    SameMovers(s0, s0.what[t].node, newName, f, oldName);
  }

  /** The two ways the rest of renameChildTo goes. */
  lemma Parted(s0: Store, held: multiset<FidRef>, refs: set<FidRef>, f: PathNode, oldName: string, t: FidRef,
               newName: string, order: seq<FidRef>)
    requires Inv(s0, held) && t in held && MayRename(s0, f, oldName, t, newName) && Of(s0, refs) && f in s0.names
    requires s0.what[t].node in s0.names
    requires var s := Mark(s0, s0.what[t].node, newName);
             Some(s, f, oldName, order) && Lists(order, Movers(s.names, f, oldName))
    ensures var s := Mark(s0, s0.what[t].node, newName);
            && (forall o | o in order :: o in s.what) && t in s.what && f in s.kids && s0.what[t].node in s.kids
            && Underway(s, f, order, t, newName).kids == s.kids
            && (if oldName !in s.kids[f] then
                  Underway(s, f, order, t, newName).(kids := Without(s.kids, f, oldName))
                      == RenameChild(s0, f, oldName, t, newName, order).0
                else
                  && Ready(s, held, refs, f, oldName, PathTo(s, f), t, newName, order) && CanGraft(s, f, oldName, t)
                  && newName !in Without(s.kids, f, oldName)[s0.what[t].node]
                  && Graft(s, f, oldName, PathTo(s, f), t, newName, order).kids
                     == With(Without(s.kids, f, oldName), s0.what[t].node, newName, s.kids[f][oldName])
                  && RenameChild(s0, f, oldName, t, newName, order).0
                     == PutAll(Graft(s, f, oldName, PathTo(s, f), t, newName, order), s.parent, order))
  {
    hide Inv, PutAll, Below, Reaches, Lists, Movers, PathTo, Mark, Illegal, At, With, Without, Underway, Refile;
    hide Repoint, Rebase, Affected;
    var tn := s0.what[t].node;
    var s := Mark(s0, tn, newName);
    MarkShape(s0, tn, newName);
    SomeKnown(s, f, oldName, order);
    UnderwayKids(s, f, order, t, newName);
    if oldName in s.kids[f] {
      Moving(s0, held, refs, f, oldName, t, newName, order);
    } else {
      SourceLive(s0, held, f, oldName, t, newName);
      NothingMoves(s, held, f, oldName, t, newName, order);
    }
  }
}
