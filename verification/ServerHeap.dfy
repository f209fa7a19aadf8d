/** The server's procedures over its heap, each proved to do to the heap what the bookkeeping model says. */
module ServerHeap {
  import opened Objects
  import opened Forest
  import opened Bookkeeping
  import opened Reshape
  import opened Handlers
  import opened Safety
  import opened Walks
  import opened Telling
  import opened Interleave
  import opened Renaming
  import Runs

  // Each column of the view depends on one field of the heap only.

  ghost function KidsOf(nodes: set<PathNode>): Kids
    reads nodes`childNodes
  {
    map n | n in nodes :: n.childNodes
  }

  ghost function DeletedOf(nodes: set<PathNode>): set<PathNode>
    reads nodes`deleted
  {
    set n | n in nodes && n.deleted
  }

  ghost function NamesOf(nodes: set<PathNode>): Names
    reads nodes`childRefNames
  {
    map n | n in nodes :: n.childRefNames
  }

  ghost function WhatOf(refs: set<FidRef>): Refs
  {
    map r | r in refs :: Ref(r.node, r.file, r.dir)
  }

  ghost function CountOf(refs: set<FidRef>): Counts
    reads refs`refs
  {
    map r | r in refs :: r.refs
  }

  ghost function ParentOf(refs: set<FidRef>): Parents
    reads refs`parent
  {
    map r | r in refs :: r.parent
  }

  ghost function OpenOf(refs: set<FidRef>): set<FidRef>
    reads refs`isOpen
  {
    set r | r in refs && r.isOpen
  }

  ghost function PathsOf(files: set<File>): map<File, seq<string>>
    reads files`path
  {
    map f | f in files :: f.path
  }

  /** Files that were never closed have no entry. */
  ghost function ClosesOf(files: set<File>): map<File, nat>
    reads files`closes
  {
    map f | f in files && f.closes > 0 :: f.closes
  }

  /** Each node's two child-reference maps mirror each other. */
  ghost predicate Mirrored(nodes: set<PathNode>)
    reads nodes`childRefs, nodes`childRefNames
  {
    forall n | n in nodes :: n.Valid()
  }

  /** Every pointer stays within the server's objects. */
  ghost predicate Enclosed(nodes: set<PathNode>, refs: set<FidRef>, files: set<File>, kids: Kids, names: Names,
                           parent: Parents)
  {
    && (forall n, x | n in kids && x in kids[n] :: kids[n][x] in nodes)
    && (forall n, r | n in names && r in names[n] :: r in refs)
    && (forall r | r in refs :: r.node in nodes && r.file in files)
    && (forall r {:trigger parent[r]} | r in parent :: parent[r] == null || parent[r] in refs)
  }

  lemma ShrinkEnclosed(nodes: set<PathNode>, refs: set<FidRef>, files: set<File>, kids: Kids, names: Names,
                       parent: Parents,
                       n: PathNode, name: string)
    requires Enclosed(nodes, refs, files, kids, names, parent) && n in kids
    ensures Enclosed(nodes, refs, files, Without(kids, n, name), names[n := Unnamed(At(names, n), name)], parent)
  {
  }

  lemma EncloseCut(nodes: set<PathNode>, refs: set<FidRef>, files: set<File>, kids: Kids, names: Names, parent: Parents,
                   n: PathNode, name: string)
    requires Enclosed(nodes, refs, files, kids, names, parent) && n in kids
    ensures Enclosed(nodes, refs, files, Without(kids, n, name), names, parent)
    ensures (name in kids[n] ==> kids[n][name] in nodes)
  {
  }

  lemma EncloseHang(nodes: set<PathNode>, refs: set<FidRef>, files: set<File>, kids: Kids, names: Names,
                    parent: Parents, n: PathNode, name: string, c: PathNode)
    requires Enclosed(nodes, refs, files, kids, names, parent) && n in kids && c in nodes
    ensures Enclosed(nodes, refs, files, With(kids, n, name, c), names, parent)
  {
  }

  class Server {
    const root: PathNode
    var fids: map<Key, FidRef>
    ghost var nodes: set<PathNode>
    ghost var refs: set<FidRef>
    ghost var files: set<File>

    ghost predicate Valid()
      reads this, nodes, refs, files
    {
      && root in nodes
      && Mirrored(nodes)
      && Enclosed(nodes, refs, files, KidsOf(nodes), NamesOf(nodes), ParentOf(refs))
      && (forall k | k in fids :: fids[k] in refs)
    }

    /** The heap as one value. */
    ghost function View(): Store
      reads this, nodes, refs, files
    {
      Store(root, KidsOf(nodes), DeletedOf(nodes), NamesOf(nodes), WhatOf(refs), CountOf(refs), ParentOf(refs),
          OpenOf(refs),
            PathsOf(files), ClosesOf(files), fids)
    }

    constructor ()
      ensures Valid() && View() == Runs.Initial(root)
      ensures fresh(nodes) && refs == {} && files == {}
    {
      root := new PathNode();
      fids := map[];
      new;
      nodes, refs, files := {root}, {}, {};
      assert KidsOf(nodes) == map[root := map[]] && NamesOf(nodes) == map[root := map[]];
      assert WhatOf(refs) == map[] && CountOf(refs) == map[] && ParentOf(refs) == map[];
      assert PathsOf(files) == map[] && ClosesOf(files) == map[] && DeletedOf(nodes) == {} && OpenOf(refs) == {};
    }

    twostate lemma KidsSet(n: PathNode)
      requires nodes == old(nodes) && n in nodes && forall m | m in nodes && m != n :: unchanged(m`childNodes)
      ensures KidsOf(nodes) == old(KidsOf(nodes))[n := n.childNodes]
    {
    }

    twostate lemma NamesSet(n: PathNode)
      requires nodes == old(nodes) && n in nodes && n.Valid() && old(Mirrored(nodes))
      requires forall m | m in nodes && m != n :: unchanged(m`childRefNames) && unchanged(m`childRefs)
      ensures NamesOf(nodes) == old(NamesOf(nodes))[n := n.childRefNames] && Mirrored(nodes)
    {
    }

    // ---- single updates, seen through the view ---------------------------

    method Count(f: FidRef, step: int)
      requires Valid() && f in refs
      modifies f`refs
      ensures Valid() && f.refs == old(f.refs) + step
      ensures View() == old(View()).(count := old(View()).count[f := f.refs])
    {
      hide KidsOf, DeletedOf, NamesOf, WhatOf, ParentOf, OpenOf, PathsOf, ClosesOf, Mirrored, Enclosed;
      f.refs := f.refs + step;
      assert CountOf(refs) == old(CountOf(refs))[f := f.refs];
    }

    method CloseFile(f: File)
      requires Valid() && f in files
      modifies f`closes
      ensures Valid()
      ensures View() == old(View()).(closes := old(View()).closes[f := Closes(old(View()).closes, f) + 1])
    {
      hide KidsOf, DeletedOf, NamesOf, WhatOf, CountOf, ParentOf, OpenOf, PathsOf, Mirrored;
      f.Close();
      assert ClosesOf(files) == old(ClosesOf(files))[f := old(f.closes) + 1];
    }

    method Deregister(p: PathNode, f: FidRef)
      requires Valid() && p in nodes
      modifies p`childRefs, p`childRefNames
      ensures Valid()
      ensures View() == old(View()).(names := old(View()).names[p := At(old(View()).names, p) - {f}])
    {
      hide KidsOf, NamesOf, DeletedOf, WhatOf, CountOf, ParentOf, OpenOf, PathsOf, ClosesOf, Mirrored, PathNode.Valid;
      NodeRow(p);
      p.RemoveChild(f);
      NamesSet(p);
    }

    /** What the last holder does with the reference itself: close the file, deregister from the parent's node. */
    method Expire(f: FidRef)
      requires Valid() && f in refs
      modifies files`closes, nodes`childRefs, nodes`childRefNames
      ensures Valid()
      ensures View() == old(View()).(closes := old(View()).closes[f.file := Closes(old(View()).closes, f.file) + 1],
                                     names := Forget(old(View()).names, old(View()).what, old(View()).parent, f))
    {
      hide View, Valid;
      Row(f);
      CloseFile(f.file);
      if f.parent != null {
        Row(f.parent);
        Deregister(f.parent.node, f);
      }
    }

    /** DecRef: the last holder closes the file, deregisters the reference and drops its parent. */
    method DecRef(f: FidRef, ghost k: nat)
      requires Valid() && f in refs && Up(View().parent, f, k) == null
      modifies refs`refs, files`closes, nodes`childRefs, nodes`childRefNames
      ensures Valid() && View() == Bookkeeping.DecRef(old(View()), f, k)
      decreases k
    {
      hide View, Valid, Forget, Bookkeeping.DecRef, Up, Die;
      Row(f);
      DecRefStep(View(), f, k);
      Count(f, -1);
      if f.refs == 0 {
        Expire(f);
        if f.parent != null {
          DecRef(f.parent, k - 1);
        }
      }
    }

    lemma NodeRow(n: PathNode)
      requires Valid() && n in nodes
      ensures n.Valid() && n in View().kids && View().kids[n] == n.childNodes && At(View().names, n) == n.childRefNames
    {
    }

    /** What the view says about one reference. */
    lemma Row(f: FidRef)
      requires Valid() && f in refs
      ensures f in View().what && View().what[f] == Ref(f.node, f.file, f.dir) && f.node in nodes && f.file in files
      ensures f in View().count && Cnt(View().count, f) == f.refs && Par(View().parent, f) == f.parent
      ensures (f.parent == null || f.parent in refs)
      ensures At(View().names, f.node) == f.node.childRefNames && f.node in View().kids
      ensures View().kids[f.node] == f.node.childNodes
      ensures f.node in View().deleted <==> f.node.deleted
      ensures f in View().isOpen <==> f.isOpen
      ensures PathOf(View().path, f.file) == f.file.path && Closes(View().closes, f.file) == f.file.closes
    {
    }

    /** notifyDelete: marks the node and, child by child, everything below it. */
    method NotifyDelete(pn: PathNode, ghost top: PathNode, ghost p: seq<string>)
      requires var kids := KidsOf(nodes);
               Closed(kids) && SingleParent(kids) && Top(kids, top) && From(kids, top, p) == pn && pn in kids
      modifies nodes`deleted
      ensures DeletedOf(nodes) == old(DeletedOf(nodes)) + Below(KidsOf(nodes), pn)
      decreases Below(KidsOf(nodes), pn)
    {
      hide Closed, SingleParent, Top, From, Below;
      ghost var kids := KidsOf(nodes);
      pn.deleted := true;
      var todo := pn.childNodes.Keys;
      ghost var done: set<string> := {};
      while todo != {}
        invariant KidsOf(nodes) == kids && todo + done == kids[pn].Keys && todo !! done
        invariant forall n | n in nodes :: n.deleted <==>
                    old(n.deleted) || n == pn || exists x :: x in done && n in Below(kids, kids[pn][x])
        decreases todo
      {
        var x :| x in todo;
        ChildSmaller(kids, top, p, x);
        label before:
        ChildIn(kids, pn, x);
        NotifyDelete(pn.childNodes[x], top, p + [x]);
        assert forall n | n in nodes :: n in DeletedOf(nodes) <==>
                 n in old@before(DeletedOf(nodes)) || n in Below(kids, kids[pn][x]);
        todo, done := todo - {x}, done + {x};
      }
      BelowKnown(kids, pn);
      forall n | n in nodes ensures n.deleted <==> old(n.deleted) || n in Below(kids, pn) {
        BelowSplits(kids, pn, n);
      }
    }

    lemma TellsThis(n: PathNode, y: FidRef)
      requires n in nodes && y in n.childRefNames
      ensures TellsAt(NamesOf(nodes), n, y.file)
    {
    }

    /** `y`, registered at `pn`, is to hear its wanted path from a parent that already holds its own. */
    ghost predicate Due(pn: PathNode, y: FidRef, want: map<File, seq<string>>)
      requires pn in nodes && y in pn.childRefNames
      reads this, nodes, y, y.parent, if y.parent == null then {} else {y.parent.file}
    {
      && y.file in files && y.file in want && y.parent != null && y.parent.file in want
      && y.parent.file.path == want[y.parent.file] && want[y.file] == want[y.parent.file] + [pn.childRefNames[y]]
      && !TellsAt(NamesOf(nodes), pn, y.parent.file)
    }

    twostate lemma DueKept(a: (PathNode, FidRef, map<File, seq<string>>))
      requires nodes == old(nodes) && files == old(files) && a.0 in nodes && a.1 in a.0.childRefNames
      requires a.1 in old(a.0.childRefNames)
      requires old(Due(a.0, a.1, a.2)) && unchanged(a.1) && a.0.childRefNames == old(a.0.childRefNames)
      requires NamesOf(nodes) == old(NamesOf(nodes))
      requires forall f: File | old(allocated(f)) && !TellsAt(NamesOf(nodes), a.0, f) :: f.path == old(f.path)
      ensures Due(a.0, a.1, a.2)
    {
      hide NamesOf, TellsAt;
    }

    /** One registered reference hears its path; every other one can still hear its own. */
    method TellOne(pn: PathNode, y: FidRef, ghost want: map<File, seq<string>>)
      requires pn in nodes && y in pn.childRefNames && forall z | z in pn.childRefNames :: Due(pn, z, want)
      modifies y.file`path
      ensures y.file in files && y.file in want && y.file.path == want[y.file] && TellsAt(NamesOf(nodes), pn, y.file)
      ensures forall z | z in pn.childRefNames :: Due(pn, z, want)
    {
      hide NamesOf, TellsAt;
      TellsThis(pn, y);
      y.file.Renamed(y.parent.file, pn.childRefNames[y]);
      forall z | z in pn.childRefNames ensures Due(pn, z, want) {
        DueKept((pn, z, want));
      }
    }

    /** The references registered at one node hear of their new path from their parents. */
    method TellChildren(pn: PathNode, ghost want: map<File, seq<string>>)
      requires pn in nodes && forall y | y in pn.childRefNames :: Due(pn, y, want)
      modifies files`path
      ensures forall y | y in pn.childRefNames :: y.file in want && y.file.path == want[y.file]
      ensures forall f | f in files && !TellsAt(NamesOf(nodes), pn, f) :: f.path == old(f.path)
    {
      hide NamesOf, TellsAt, Due;
      ghost var names := NamesOf(nodes);
      var todo := pn.childRefNames.Keys;
      while todo != {}
        invariant todo <= pn.childRefNames.Keys && NamesOf(nodes) == names
        invariant forall y | y in pn.childRefNames :: Due(pn, y, want)
        invariant forall y | y in pn.childRefNames && y !in todo :: y.file in want && y.file.path == want[y.file]
        invariant forall f | f in files && !TellsAt(names, pn, f) :: f.path == old(f.path)
        decreases todo
      {
        var y :| y in todo;
        DueFile(pn, y, want);
        TellOne(pn, y, want);
        todo := todo - {y};
      }
    }

    lemma DueFile(pn: PathNode, y: FidRef, want: map<File, seq<string>>)
      requires pn in nodes && y in pn.childRefNames && Due(pn, y, want)
      ensures y.file in files
    {
    }

    lemma ListedAt(n: PathNode, y: FidRef)
      requires Valid() && n in nodes && y in n.childRefNames
      ensures Listed(NamesOf(nodes), n, y) && NamesOf(nodes)[n][y] == n.childRefNames[y]
      ensures y in refs && Par(ParentOf(refs), y) == y.parent && y.file in files
    {
    }

    /** The files of the references registered at `n` hold their wanted paths. */
    ghost predicate HeardAt(n: PathNode, want: map<File, seq<string>>)
      requires n in nodes
      reads this, nodes, files
    {
      forall y | y in n.childRefNames :: y.file in files && y.file in want && y.file.path == want[y.file]
    }

    ghost predicate Heard(kids: Kids, n: PathNode, want: map<File, seq<string>>)
      reads this, nodes, files
    {
      forall m | m in Below(kids, n) && m in nodes :: HeardAt(m, want)
    }

    ghost predicate OnTour(t: Tour, p: seq<string>, pn: PathNode)
      reads this, nodes, refs, files
    {
      && Valid() && KidsOf(nodes) == t.kids && NamesOf(nodes) == t.names && ParentOf(refs) == t.parent
      && Closed(t.kids) && SingleParent(t.kids) && Top(t.kids, t.top) && From(t.kids, t.top, p) == pn && pn in t.kids
      && Notifiable(t.kids, t.names, t.parent, refs, t.want, pn)
    }

    lemma TourFacts(t: Tour, p: seq<string>, pn: PathNode)
      requires OnTour(t, p, pn)
      ensures NamesOf(nodes) == t.names && pn in nodes && pn in t.kids && t.kids[pn] == pn.childNodes && Closed(t.kids)
    {
      hide Valid, Closed, SingleParent, Top, From, Notifiable;
    }

    lemma ReadyToTell(t: Tour, p: seq<string>, pn: PathNode)
      requires OnTour(t, p, pn) && pn in nodes
      requires forall y | y in pn.childRefNames ::
                 y.parent != null && y.parent.file in t.want && y.parent.file.path == t.want[y.parent.file]
      ensures forall y | y in pn.childRefNames :: Due(pn, y, t.want)
    {
      hide Mirrored, Enclosed, Closed, SingleParent, Top, From, Below, TellsAt;
      BelowSelf(t.kids, pn);
      forall y | y in pn.childRefNames ensures Due(pn, y, t.want) {
        ListedAt(pn, y);
        assert Hears(t.kids, t.names, t.parent, refs, t.want, pn, y);
        if TellsAt(t.names, pn, y.parent.file) {
          ParentsUntold(t.kids, t.names, t.parent, refs, t.want, t.top, p, pn, y, y.parent.file);
        }
      }
    }

    /** Telling child `x` leaves what was told at the node and below another child `x'` alone. */
    twostate lemma StillHeard(a: (Tour, seq<string>, PathNode, string))
      requires nodes == old(nodes) && refs == old(refs) && files == old(files)
      requires old(OnTour(a.0, a.1, a.2)) && NamesOf(nodes) == a.0.names && a.3 in a.0.kids[a.2]
      requires forall f | f in files && !Tells(a.0.kids, a.0.names, a.0.kids[a.2][a.3], f) :: f.path == old(f.path)
      ensures a.2 in nodes && (old(HeardAt(a.2, a.0.want)) ==> HeardAt(a.2, a.0.want))
      ensures forall x' | x' in a.0.kids[a.2] && x' != a.3 && old(Heard(a.0.kids, a.0.kids[a.2][x'], a.0.want)) ::
                Heard(a.0.kids, a.0.kids[a.2][x'], a.0.want)
    {
      hide Mirrored, Enclosed, Closed, SingleParent, Top, From, Below, Notifiable, Tells, ParentOf;
      var (t, p, pn, x) := a;
      ChildSmaller(t.kids, t.top, p, x);
      BelowSelf(t.kids, pn);
      forall y | y in pn.childRefNames ensures !Tells(t.kids, t.names, t.kids[pn][x], y.file) {
        NotTold(t.kids, t.names, t.parent, refs, t.want, t.top, p, pn, x, pn, y);
      }
      forall x', m | x' in t.kids[pn] && x' != x && old(Heard(t.kids, t.kids[pn][x'], t.want))
        && m in Below(t.kids, t.kids[pn][x']) && m in nodes
        ensures HeardAt(m, t.want)
      {
        BelowVia(t.kids, pn, x', m);
        if m in Below(t.kids, t.kids[pn][x]) { ChildrenApart(t.kids, t.top, p, x, x', m); }
        assert old(HeardAt(m, t.want));
        assert m.childRefNames == t.names[m] == old(m.childRefNames);
        forall y | y in m.childRefNames ensures !Tells(t.kids, t.names, t.kids[pn][x], y.file) {
          NotTold(t.kids, t.names, t.parent, refs, t.want, t.top, p, pn, x, m, y);
        }
      }
    }

    twostate lemma TourKept(a: (Tour, seq<string>, PathNode))
      requires nodes == old(nodes) && refs == old(refs) && files == old(files) && fids == old(fids)
      requires old(OnTour(a.0, a.1, a.2))
      requires forall n | n in nodes :: unchanged(n)
      requires forall r | r in refs :: unchanged(r)
      ensures OnTour(a.0, a.1, a.2)
    {
      hide Mirrored, Enclosed, Closed, SingleParent, Top, From, Below, Notifiable, KidsOf, NamesOf, ParentOf;
    }

    lemma ReadyBelow(t: Tour, p: seq<string>, pn: PathNode, x: string)
      requires OnTour(t, p, pn) && x in t.kids[pn] && pn in nodes && HeardAt(pn, t.want)
      ensures var c := t.kids[pn][x];
              c in nodes && OnTour(t, p + [x], c) && Below(t.kids, c) < Below(t.kids, pn)
              && forall y | y in c.childRefNames ::
                   y.parent != null && y.parent.file in t.want && y.parent.file.path == t.want[y.parent.file]
    {
      hide Mirrored, Enclosed, Closed, SingleParent, Top, From, Below, Notifiable;
      ChildSmaller(t.kids, t.top, p, x);
      ChildIn(t.kids, pn, x);
      ChildNotifiable(t.kids, t.names, t.parent, refs, t.want, t.top, p, pn, x);
      var c := t.kids[pn][x];
      forall y | y in c.childRefNames
        ensures y.parent != null && y.parent.file in t.want && y.parent.file.path == t.want[y.parent.file]
      {
        ListedAt(c, y);
      }
    }

    /** notifyNameChange: a node's registered references first, then its child nodes. */
    method NotifyNameChange(pn: PathNode, ghost t: Tour, ghost p: seq<string>)
      requires OnTour(t, p, pn) && pn in nodes
      requires forall y | y in pn.childRefNames ::
                 y.parent != null && y.parent.file in t.want && y.parent.file.path == t.want[y.parent.file]
      modifies files`path
      ensures Heard(t.kids, pn, t.want)
      ensures forall f | f in files && !Tells(t.kids, t.names, pn, f) :: f.path == old(f.path)
      decreases Below(t.kids, pn)
    {
      hide OnTour, Below, Tells, TellsAt, Heard, HeardAt, Valid, Closed;
      TourFacts(t, p, pn);
      ReadyToTell(t, p, pn);
      TellChildren(pn, t.want);
      TourKept((t, p, pn));
      ToldHere(t, p, pn);
      TellsWider(t.kids, t.names, pn);
      var todo := pn.childNodes.Keys;
      ghost var done: set<string> := {};
      while todo != {}
        invariant OnTour(t, p, pn) && HeardAt(pn, t.want)
        invariant todo + done == t.kids[pn].Keys && todo !! done
        invariant forall x | x in done :: Heard(t.kids, t.kids[pn][x], t.want)
        invariant forall f | f in files && !Tells(t.kids, t.names, pn, f) :: f.path == old(f.path)
        decreases todo
      {
        var x :| x in todo;
        ReadyBelow(t, p, pn, x);
        label before:
        NotifyNameChange(pn.childNodes[x], t, p + [x]);
        TourKept@before((t, p, pn));
        StillHeard@before((t, p, pn, x));
        todo, done := todo - {x}, done + {x};
      }
      HeardAll(t, p, pn);
    }

    lemma ToldHere(t: Tour, p: seq<string>, pn: PathNode)
      requires OnTour(t, p, pn) && pn in nodes && forall y | y in pn.childRefNames ::
                 y.file in t.want && y.file.path == t.want[y.file]
      ensures HeardAt(pn, t.want)
    {
      hide Mirrored, Enclosed, Closed, SingleParent, Top, From, Notifiable;
      forall y | y in pn.childRefNames ensures y.file in files { ListedAt(pn, y); }
    }

    lemma HeardAll(t: Tour, p: seq<string>, pn: PathNode)
      requires OnTour(t, p, pn) && pn in nodes && HeardAt(pn, t.want)
      requires forall x | x in t.kids[pn] :: Heard(t.kids, t.kids[pn][x], t.want)
      ensures Heard(t.kids, pn, t.want)
    {
      hide Mirrored, Enclosed, SingleParent, Top, From, Below, Notifiable, HeardAt;
      forall m | m in Below(t.kids, pn) && m in nodes ensures HeardAt(m, t.want) {
        BelowSplits(t.kids, pn, m);
      }
    }

    /** removeWithName with no callback. */
    method RemoveWithName(n: PathNode, name: string) returns (orig: PathNode?)
      requires Valid() && n in nodes
      modifies n`childNodes, n`childRefs, n`childRefNames
      ensures Valid()
      ensures orig == if name in old(n.childNodes) then old(n.childNodes)[name] else null
      ensures n in old(View()).kids
      ensures View() == old(View()).(kids := Without(old(View()).kids, n, name),
                                     names := old(View()).names[n := Unnamed(At(old(View()).names, n), name)])
    {
      hide KidsOf, NamesOf, DeletedOf, WhatOf, CountOf, ParentOf, OpenOf, PathsOf, ClosesOf, Enclosed, Mirrored;
      hide PathNode.Valid;
      NodeRow(n);
      ShrinkEnclosed(nodes, refs, files, KidsOf(nodes), NamesOf(nodes), ParentOf(refs), n, name);
      orig := n.RemoveWithName(name);
      assert n.childRefNames == Unnamed(old(n.childRefNames), name);
      KidsSet(n);
      NamesSet(n);
    }

    /** markChildDeleted, on a live directory of a well-formed tree. */
    method MarkChildDeleted(f: FidRef, name: string)
      requires Valid() && f in refs && Tree(root, KidsOf(nodes), DeletedOf(nodes)) && !f.node.deleted
      modifies nodes`childNodes, nodes`childRefs, nodes`childRefNames, nodes`deleted
      ensures Valid() && f.node in old(View()).kids && View() == Mark(old(View()), f.node, name)
    {
      hide View, Valid, Below, From, Without, Unnamed, At, SingleParent, Top, Closed, DeletedIsUnreachable, KidsOf;
      hide DeletedOf, NamesOf, WhatOf, CountOf;
      Row(f);
      ghost var v := View();
      Columns();
      var orig := RemoveWithName(f.node, name);
      Columns();
      if orig != null {
        Detach(root, v.kids, v.deleted, f.node, name);
        assert From(View().kids, orig, []) == orig by { FromNil(View().kids, orig); }
        label before:
        NotifyDelete(orig, orig, []);
        OnlyDeleted@before();
        Columns();
      }
    }

    lemma Columns()
      ensures View().root == root && View().kids == KidsOf(nodes) && View().deleted == DeletedOf(nodes)
      ensures View().names == NamesOf(nodes) && View().what == WhatOf(refs) && View().count == CountOf(refs)
    {
    }

    twostate lemma OnlyDeleted()
      requires old(Valid())
      requires nodes == old(nodes) && refs == old(refs) && files == old(files) && fids == old(fids)
      requires forall n | n in nodes :: unchanged(n`childNodes) && unchanged(n`childRefs) && unchanged(n`childRefNames)
      requires forall r | r in refs :: unchanged(r)
      requires forall f | f in files :: unchanged(f)
      ensures Valid() && View() == old(View()).(deleted := DeletedOf(nodes))
    {
      assert KidsOf(nodes) == old(KidsOf(nodes));
      assert NamesOf(nodes) == old(NamesOf(nodes));
    }

    // ---- rename --------------------------------------------------------------

    method UnlistRef(n: PathNode, name: string, ref: FidRef)
      requires Valid() && n in nodes && name in n.childRefs && ref in n.childRefs[name]
      modifies n`childRefs, n`childRefNames
      ensures Valid() && View() == old(View()).(names := old(View()).names[n := At(old(View()).names, n) - {ref}])
      ensures n.childRefs == old(n.childRefs)[name := old(n.childRefs)[name] - {ref}]
    {
      hide KidsOf, NamesOf, DeletedOf, WhatOf, CountOf, ParentOf, OpenOf, PathsOf, ClosesOf, Mirrored, PathNode.Valid;
      NodeRow(n);
      n.Unlist(name, ref);
      NamesSet(n);
    }

    method ListRef(n: PathNode, ref: FidRef, name: string)
      requires Valid() && n in nodes && ref in refs && ref !in n.childRefNames
      modifies n`childRefs, n`childRefNames
      ensures Valid() && View() == old(View()).(names := old(View()).names[n := At(old(View()).names, n)[ref := name]])
    {
      hide KidsOf, NamesOf, DeletedOf, WhatOf, CountOf, ParentOf, OpenOf, PathsOf, ClosesOf, Mirrored, PathNode.Valid;
      NodeRow(n);
      n.AddChild(ref, name);
      NamesSet(n);
    }

    method SetParent(ref: FidRef, target: FidRef)
      requires Valid() && ref in refs && target in refs
      modifies ref`parent
      ensures Valid() && ref.parent == target && View() == old(View()).(parent := old(View()).parent[ref := target])
    {
      hide KidsOf, NamesOf, DeletedOf, WhatOf, CountOf, OpenOf, PathsOf, ClosesOf, Mirrored;
      ref.parent := target;
      assert ParentOf(refs) == old(ParentOf(refs))[ref := target];
    }

    method TellFile(file: File, parent: File, name: string)
      requires Valid() && file in files && parent in files
      modifies file`path
      ensures Valid()
      ensures View() == old(View()).(path := old(View()).path[file := PathOf(old(View()).path, parent) + [name]])
    {
      hide KidsOf, NamesOf, DeletedOf, WhatOf, CountOf, ParentOf, OpenOf, ClosesOf, Mirrored;
      file.Renamed(parent, name);
      assert PathsOf(files) == old(PathsOf(files))[file := old(parent.path) + [name]];
    }

    method TryHold(f: FidRef) returns (ok: bool)
      requires Valid() && f in refs
      modifies f`refs
      ensures Valid() && ok == (old(f.refs) > 0)
      ensures View() == if ok then old(View()).(count := old(View()).count[f := old(f.refs) + 1]) else old(View())
    {
      hide KidsOf, DeletedOf, NamesOf, WhatOf, ParentOf, OpenOf, PathsOf, ClosesOf, Mirrored, Enclosed;
      ok := f.TryIncRef();
      assert CountOf(refs) == if ok then old(CountOf(refs))[f := f.refs] else old(CountOf(refs));
    }

    /** The callback of renameChildTo, once the mover's old parent was dropped. */
    method Arrive(ref: FidRef, target: FidRef, newName: string)
      requires Valid() && ref in refs && target in refs && ref !in target.node.childRefNames
      modifies ref`parent, target`refs, ref.file`path, target.node`childRefs, target.node`childRefNames
      ensures Valid() && ref in old(View()).what && target in old(View()).what
      ensures View() == Arrived(old(View()), ref, target, newName)
    {
      hide View, Valid, At, PathOf, Cnt;
      Row(ref);
      Row(target);
      SetParent(ref, target);
      Count(target, 1);
      ListRef(target.node, ref, newName);
      TellFile(ref.file, target.file, newName);
    }

    /** A live mover comes off its list and is held for the callback. */
    method Lift(n: PathNode, oldName: string, ref: FidRef) returns (ok: bool)
      requires Valid() && n in nodes && ref in refs && oldName in n.childRefs && ref in n.childRefs[oldName]
      requires ref.refs > 0
      modifies ref`refs, n`childRefs, n`childRefNames
      ensures Valid() && ok && View() == Unlisted(old(View()), n, ref, Cnt(old(View()).count, ref) + 1)
    {
      hide View, Valid, At, Cnt;
      Row(ref);
      UnlistRef(n, oldName, ref);
      ok := TryHold(ref);
    }

    /** The callback: drop the old parent, then arrive at the new one. */
    method Reparent(ref: FidRef, target: FidRef, newName: string, ghost k: nat)
      requires Valid() && ref in refs && target in refs && ref.parent != null
      requires Up(View().parent, ref.parent, k) == null
      requires ref !in At(Bookkeeping.DecRef(View(), ref.parent, k).names, target.node)
      modifies refs`refs, ref`parent, files`closes, ref.file`path, nodes`childRefs, nodes`childRefNames
      ensures Valid() && ref in old(View()).what && target in old(View()).what
      ensures View() == Arrived(Bookkeeping.DecRef(old(View()), old(ref.parent), k), ref, target, newName)
    {
      hide View, Valid, Bookkeeping.DecRef, Up, Arrived, At, Cnt, Par;
      Row(ref);
      Row(target);
      DecRef(ref.parent, k);
      Row(target);
      Arrive(ref, target, newName);
    }

    /** One mover of renameChildTo: taken off its list and held while its parent changes. */
    method ShiftOne(n: PathNode, oldName: string, ref: FidRef, target: FidRef, newName: string, ghost k: nat)
      requires Valid() && n in nodes && ref in refs && target in refs && ref != target
      requires oldName in n.childRefs && ref in n.childRefs[oldName] && ref.refs > 0 && ref.parent != null
      requires n == target.node || ref !in target.node.childRefNames
      requires Up(View().parent, ref.parent, k) == null && Avoids(View().parent, ref.parent, k, ref)
      requires Ends(View().parent[ref := target], ref)
      modifies refs`refs, ref`parent, files`closes, ref.file`path, nodes`childRefs, nodes`childRefNames
      ensures Valid() && ref in old(View()).what && target in old(View()).what
      ensures View() == MoveOne(Bookkeeping.DecRef(old(View()), old(ref.parent), k), n, ref, target, newName)
    {
      hide View, Valid, Bookkeeping.DecRef, Avoids, Ends, Up, MoveOne, Arrived, At, Cnt, Par, Unlisted;
      Row(ref);
      Row(target);
      Row(ref.parent);
      Closure();
      ghost var v := View();
      Turn(v, ref.parent, k, n, ref, target, newName);
      SameUp(v, n, ref, Cnt(v.count, ref) + 1);
      var ok := Lift(n, oldName, ref);
      if ok {
        Row(ref);
        Reparent(ref, target, newName, k);
        DecRef(ref, Height(View().parent, ref));
      }
    }

    lemma Closure()
      requires Valid()
      ensures var v := View();
              forall x {:trigger v.parent[x]} | x in v.parent :: v.parent[x] == null || v.parent[x] in v.what
    {
    }

    lemma Owned()
      ensures View().what.Keys == refs
    {
    }

    /** A node's reference set for a name is what its other map lists under that name. */
    lemma SameList(n: PathNode, name: string)
      requires Valid() && n in nodes
      ensures (if name in n.childRefs then n.childRefs[name] else {}) == Movers(View().names, n, name)
    {
      assert n.Valid();
    }

    /** removeWithName with the callback of renameChildTo: the references named `oldName` move below `target`, in
        some order. */
    method MoveRefs(n: PathNode, oldName: string, target: FidRef, newName: string, ghost held: multiset<FidRef>)
        returns (ghost order: seq<FidRef>)
      requires Valid() && n in nodes && target in refs && CanShift(View(), held, n, oldName, target, newName)
      modifies refs`refs, refs`parent, files`closes, files`path, nodes`childRefs, nodes`childRefNames
      ensures Valid() && target in old(View()).what && Some(old(View()), n, oldName, order)
      ensures Lists(order, Movers(old(View()).names, n, oldName))
      ensures View() == Underway(old(View()), n, order, target, newName)
    {
      hide View, Valid, CanShift, Some, Underway, Movers, MoveOne, Bookkeeping.DecRef, Up, Avoids, Ends, At, Cnt, Par;
      ghost var s := View();
      order := [];
      Started(s, held, n, oldName, target, newName);
      SameList(n, oldName);
      while oldName in n.childRefs && n.childRefs[oldName] != {}
        invariant Valid() && Some(s, n, oldName, order) && target in s.what && (forall o | o in order :: o in s.what)
        invariant View() == Underway(s, n, order, target, newName)
        invariant (if oldName in n.childRefs then n.childRefs[oldName] else {}) == Movers(View().names, n, oldName)
        decreases Movers(View().names, n, oldName)
      {
        var ref :| ref in n.childRefs[oldName];
        Remaining(s, held, n, oldName, order, target, newName);
        ghost var k := NextTurn(s, held, n, oldName, order, target, newName, ref);
        SomeKnown(s, n, oldName, order + [ref]);
        Owned();
        Row(ref);
        Row(target);
        ShiftOne(n, oldName, ref, target, newName, k);
        order := order + [ref];
        SomeKnown(s, n, oldName, order);
        Remaining(s, held, n, oldName, order, target, newName);
        SameList(n, oldName);
      }
      Remaining(s, held, n, oldName, order, target, newName);
      AllListed(s, n, oldName, order);
    }

    /** The tail of removeWithName: the child node is cut off and handed over. */
    method CutKid(n: PathNode, name: string) returns (orig: PathNode?)
      requires Valid() && n in nodes
      modifies n`childNodes
      ensures Valid() && n in old(View()).kids
      ensures orig == if name in old(n.childNodes) then old(n.childNodes)[name] else null
      ensures orig != null ==> orig in nodes
      ensures View() == old(View()).(kids := Without(old(View()).kids, n, name))
    {
      hide KidsOf, NamesOf, DeletedOf, WhatOf, CountOf, ParentOf, OpenOf, PathsOf, ClosesOf, Mirrored, Enclosed;
      NodeRow(n);
      EncloseCut(nodes, refs, files, KidsOf(nodes), NamesOf(nodes), ParentOf(refs), n, name);
      orig := if name in n.childNodes then n.childNodes[name] else null;
      n.childNodes := n.childNodes - {name};
      KidsSet(n);
    }

    method HangKid(n: PathNode, name: string, c: PathNode)
      requires Valid() && n in nodes && c in nodes && name !in n.childNodes
      modifies n`childNodes
      ensures Valid() && n in old(View()).kids
      ensures View() == old(View()).(kids := With(old(View()).kids, n, name, c))
    {
      hide KidsOf, NamesOf, DeletedOf, WhatOf, CountOf, ParentOf, OpenOf, PathsOf, ClosesOf, Mirrored, Enclosed;
      hide PathNode.Valid;
      NodeRow(n);
      EncloseHang(nodes, refs, files, KidsOf(nodes), NamesOf(nodes), ParentOf(refs), n, name, c);
      n.AddPathNodeFor(name, c);
      KidsSet(n);
    }

    twostate lemma OnlyPaths()
      requires old(Valid())
      requires nodes == old(nodes) && refs == old(refs) && files == old(files) && fids == old(fids)
      requires forall n | n in nodes :: unchanged(n)
      requires forall r | r in refs :: unchanged(r)
      requires forall f | f in files :: unchanged(f`closes)
      ensures Valid() && View() == old(View()).(path := PathsOf(files))
    {
      assert KidsOf(nodes) == old(KidsOf(nodes));
      assert NamesOf(nodes) == old(NamesOf(nodes));
      assert ClosesOf(files) == old(ClosesOf(files));
    }

    /** A round of notifications settles every path. */
    method Settle(orig: PathNode, ghost s: Store, ghost held: multiset<FidRef>, ghost f: PathNode,
                  ghost oldName: string, ghost pf: seq<string>,
                  ghost t: FidRef, ghost newName: string, ghost order: seq<FidRef>)
      requires Valid() && Ready(s, held, refs, f, oldName, pf, t, newName, order) && orig == s.kids[f][oldName]
      requires View() == Underway(s, f, order, t, newName).(kids := Graft(s, f, oldName, pf, t, newName, order).kids)
      modifies files`path
      ensures Valid() && View() == PutAll(Graft(s, f, oldName, pf, t, newName, order), s.parent, order)
    {
      hide View, Valid, Ready, Movable, Underway, Graft, PutAll, Closed, SingleParent, Top, From, Notifiable, Below, At;
      hide Par, PathOf, OnTour, Heard, Tells, CanGraft;
      Target(s, held, refs, f, oldName, pf, t, newName, order);
      ghost var s3 := PutAll(Graft(s, f, oldName, pf, t, newName, order), s.parent, order);
      ghost var p := TourReady(s, held, refs, f, oldName, pf, t, newName, order);
      ghost var tour := Tour(s3.kids, s3.names, s3.parent, s3.path, s3.root);
      Embark(orig, s, held, f, oldName, pf, t, newName, order, p);
      ghost var v := View();
      PathRows();
      NotifyNameChange(orig, tour, p);
      OnlyPaths();
      Columns();
      AllSettled(orig, s, held, f, oldName, pf, t, newName, order);
    }

    lemma PathRows()
      ensures View().path.Keys == files && forall fl | fl in files :: fl.path == PathOf(View().path, fl)
    {
    }

    /** Told files hold their new path; the others held it already. */
    lemma AllSettled(orig: PathNode, s: Store, held: multiset<FidRef>, f: PathNode, oldName: string, pf: seq<string>,
                     t: FidRef, newName: string, order: seq<FidRef>)
      requires Ready(s, held, refs, f, oldName, pf, t, newName, order) && orig == s.kids[f][oldName]
      requires var s3 := PutAll(Graft(s, f, oldName, pf, t, newName, order), s.parent, order);
               && NamesOf(nodes) == s3.names && Heard(s3.kids, orig, s3.path) && files == s.path.Keys
               && forall fl | fl in files && !Tells(s3.kids, s3.names, orig, fl) ::
                    fl.path == PathOf(Underway(s, f, order, t, newName).path, fl)
      ensures PathsOf(files) == PutAll(Graft(s, f, oldName, pf, t, newName, order), s.parent, order).path
    {
      hide Movable, Underway, Graft, PutAll, Inv, Of, Below, TellsAt;
      Target(s, held, refs, f, oldName, pf, t, newName, order);
      var g := Graft(s, f, oldName, pf, t, newName, order);
      var s3 := PutAll(g, s.parent, order);
      forall fl | fl in files ensures fl.path == s3.path[fl] {
        if Tells(s3.kids, s3.names, orig, fl) {
          var m :| m in Below(s3.kids, orig) && TellsAt(s3.names, m, fl);
          ToldBy(m, fl, s3.path);
        } else {
          Settled(s, held, refs, f, oldName, pf, t, newName, order, fl);
        }
      }
    }

    lemma ToldBy(m: PathNode, fl: File, want: map<File, seq<string>>)
      requires TellsAt(NamesOf(nodes), m, fl) && (m in nodes ==> HeardAt(m, want))
      ensures fl in want && fl.path == want[fl]
    {
    }

    lemma Embark(orig: PathNode, s: Store, held: multiset<FidRef>, f: PathNode, oldName: string, pf: seq<string>,
                 t: FidRef, newName: string, order: seq<FidRef>, p: seq<string>)
      requires Valid() && Ready(s, held, refs, f, oldName, pf, t, newName, order) && orig == s.kids[f][oldName]
      requires View() == Underway(s, f, order, t, newName).(kids := Graft(s, f, oldName, pf, t, newName, order).kids)
      requires var s3 := PutAll(Graft(s, f, oldName, pf, t, newName, order), s.parent, order);
               && Closed(s3.kids) && SingleParent(s3.kids) && Top(s3.kids, s3.root) && From(s3.kids, s3.root, p) == orig
               && orig in s3.kids
               && Notifiable(s3.kids, s3.names, s3.parent, refs, s3.path, orig)
      ensures var s3 := PutAll(Graft(s, f, oldName, pf, t, newName, order), s.parent, order);
              && orig in nodes && OnTour(Tour(s3.kids, s3.names, s3.parent, s3.path, s3.root), p, orig)
              && forall y | y in orig.childRefNames ::
                   y.parent != null && y.parent.file in s3.path && y.parent.file.path == s3.path[y.parent.file]
    {
      hide Valid, Ready, Movable, Underway, Graft, PutAll, Closed, SingleParent, Top, From, Notifiable, Below;
      Target(s, held, refs, f, oldName, pf, t, newName, order);
      var s3 := PutAll(Graft(s, f, oldName, pf, t, newName, order), s.parent, order);
      forall y | y in orig.childRefNames
        ensures y.parent != null && y.parent.file in s3.path && y.parent.file.path == s3.path[y.parent.file]
      {
        ListedAt(orig, y);
        ParentsReady(s, held, refs, f, oldName, pf, t, newName, order, y);
        Row(y);
        Row(y.parent);
      }
    }

    /** renameChildTo: the target name is cleared, the references move, the edge moves, the subtree is notified. */
    method RenameChildTo(f: FidRef, oldName: string, target: FidRef, newName: string, ghost held: multiset<FidRef>)
        returns (ghost order: seq<FidRef>)
      requires Valid() && f in refs && target in refs && Inv(View(), held) && target in held
      requires MayRename(View(), f.node, oldName, target, newName)
      modifies nodes, refs`refs, refs`parent, files
      ensures Valid() && RenameGuard(old(View()), f.node, oldName, target, newName, order)
      ensures View() == RenameChild(old(View()), f.node, oldName, target, newName, order).0
    {
      hide View, Valid, Inv, MayRename, Mark, CanShift, Some, Underway, Graft, PutAll, RenameChild, RenameGuard, Movers;
      hide Lists, With, Without, Ready, Of, At, Tree, PathTo;
      ghost var s0 := View();
      Row(f);
      Row(target);
      Columns();
      WholeOf();
      GuardFacts(s0, held, f.node, oldName, target, newName);
      LoopMayStart(s0, held, f.node, oldName, target, newName);
      MarkChildDeleted(target, newName);
      ghost var s := View();
      order := MoveRefs(f.node, oldName, target, newName, held);
      Ordered(s0, f.node, oldName, target, newName, order);
      Finish(f, oldName, target, newName, held, s0, s, order);
    }

    /** The rest of renameChildTo, once the references have moved. */
    method Finish(f: FidRef, oldName: string, target: FidRef, newName: string, ghost held: multiset<FidRef>,
                  ghost s0: Store, ghost s: Store, ghost order: seq<FidRef>)
      requires Valid() && f in refs && target in refs && Inv(s0, held) && target in held
      requires MayRename(s0, f.node, oldName, target, newName)
      requires Of(s0, refs) && f.node in s0.names && target.node in s0.names && s0.what[target].node == target.node
      requires s == Mark(s0, target.node, newName) && Some(s, f.node, oldName, order)
      requires Lists(order, Movers(s.names, f.node, oldName))
      requires View() == Underway(s, f.node, order, target, newName)
      modifies nodes`childNodes, files`path
      ensures Valid() && View() == RenameChild(s0, f.node, oldName, target, newName, order).0
    {
      hide View, Valid, Inv, MayRename, Mark, Some, Underway, Graft, PutAll, RenameChild, Movers, Lists, With, Without;
      hide Ready, Of, At, PathTo;
      Row(f);
      Row(target);
      Parted(s0, held, refs, f.node, oldName, target, newName, order);
      var orig := CutKid(f.node, oldName);
      if orig != null {
        NodeRow(target.node);
        HangKid(target.node, newName, orig);
        Settle(orig, s, held, f.node, oldName, PathTo(s, f.node), target, newName, order);
      }
    }

    lemma WholeOf()
      requires Valid()
      ensures Of(View(), refs) && View().names.Keys == nodes
    {
    }
  }
}
