/** The steps that change the shape of the path tree: new nodes, deletion of a subtree, and rename. */
module Reshape {
  import opened Objects
  import opened Forest
  import opened Bookkeeping

  // ---- a new path node -----------------------------------------------------

  /** pathNodeFor: the child node for `name`, made from `c` when there is none. */
  ghost function Grow(s: Store, n: PathNode, name: string, c: PathNode): Store
    requires n in s.kids
  {
    if name in s.kids[n] then s
    else s.(kids := With(s.kids[c := map[]], n, name, c), names := s.names[c := map[]])
  }

  lemma GrowFiled(kids: Kids, names: Names, what: Refs, count: Counts, parent: Parents, n: PathNode, name: string,
                  c: PathNode)
    requires Registered(kids, names, what, count, parent) && n in kids && name !in kids[n] && c !in kids
    ensures Registered(With(kids[c := map[]], n, name, c), names[c := map[]], what, count, parent)
  {
    var k := With(kids[c := map[]], n, name, c);
    var names' := names[c := map[]];
    forall m, r | m in names' && r in names'[m]
      ensures Filed(k, what, count, parent, m, r, names'[m][r])
    {
      assert m in names && r in names[m];
      assert Filed(kids, what, count, parent, m, r, names[m][r]);
      assert forall x, d :: Hangs(kids, m, x, d) ==> Hangs(k, m, x, d);
    }
  }

  lemma GrowPaths(s: Store, kids': Kids)
    requires Paths(s.root, s.kids, s.deleted, s.what, s.count, s.parent, s.path)
    requires forall p :: From(s.kids, s.root, p) != null ==> From(kids', s.root, p) == From(s.kids, s.root, p)
    ensures Paths(s.root, kids', s.deleted, s.what, s.count, s.parent, s.path)
  {
    hide From;
  }

  lemma GrowKeeps(s: Store, held: multiset<FidRef>, n: PathNode, name: string, c: PathNode)
    requires Inv(s, held) && n in s.kids && n !in s.deleted && (name in s.kids[n] || c !in s.kids)
    ensures Inv(Grow(s, n, name, c), held)
  {
    hide Tree, Registered, Present, Lineage, Grounded, Counted, ClosedOnce, Sharing, Paths, From, Hangs;
    if name !in s.kids[n] {
      Sprout(s.root, s.kids, s.deleted, n, name, c);
      GrowFiled(s.kids, s.names, s.what, s.count, s.parent, n, name, c);
      GrowPaths(s, With(s.kids[c := map[]], n, name, c));
      GrowPresent(s.deleted, s.names, s.what, s.count, s.parent, c);
    }
  }

  lemma GrowPresent(deleted: set<PathNode>, names: Names, what: Refs, count: Counts, parent: Parents, c: PathNode)
    requires Present(deleted, names, what, count, parent) && c !in names
    ensures Present(deleted, names[c := map[]], what, count, parent)
  {
  }

  // ---- deleting what hangs below a name -----------------------------------

  function Unnamed(m: map<FidRef, string>, name: string): map<FidRef, string>
  {
    map r | r in m && m[r] != name :: m[r]
  }

  /** markChildDeleted: forget every reference named `name`, cut the edge, and mark the detached subtree. */
  ghost function Mark(s: Store, n: PathNode, name: string): Store
    requires n in s.kids
  {
    var k := Without(s.kids, n, name);
    s.(kids := k,
       deleted := if name in s.kids[n] then s.deleted + Below(k, s.kids[n][name]) else s.deleted,
       names := s.names[n := Unnamed(At(s.names, n), name)])
  }

  lemma MarkFiled(kids: Kids, names: Names, what: Refs, count: Counts, parent: Parents, n: PathNode, name: string)
    requires Registered(kids, names, what, count, parent) && n in kids
    ensures Registered(Without(kids, n, name), names[n := Unnamed(At(names, n), name)], what, count, parent)
  {
    var k := Without(kids, n, name);
    var names' := names[n := Unnamed(At(names, n), name)];
    forall m, r | m in names' && r in names'[m]
      ensures Filed(k, what, count, parent, m, r, names'[m][r])
    {
      assert m in names && r in names[m] && names'[m][r] == names[m][r];
      assert Filed(kids, what, count, parent, m, r, names[m][r]);
    }
  }

  lemma MarkPresent(s: Store, n: PathNode, name: string)
    requires Known(s.kids, s.names, s.what, s.count, s.parent, s.fids) && n in s.kids
    requires Registered(s.kids, s.names, s.what, s.count, s.parent)
    requires Present(s.deleted, s.names, s.what, s.count, s.parent)
    ensures var s' := Mark(s, n, name); Present(s'.deleted, s'.names, s.what, s.count, s.parent)
  {
    hide Below;
    var s' := Mark(s, n, name);
    forall r | r in s.what && Cnt(s.count, r) > 0 && Par(s.parent, r) != null && s.what[r].node !in s'.deleted
      ensures Par(s.parent, r) in s.what && r in At(s'.names, s.what[Par(s.parent, r)].node)
    {
      var m := s.what[Par(s.parent, r)].node;
      assert r in At(s.names, m);
      assert Filed(s.kids, s.what, s.count, s.parent, m, r, s.names[m][r]);
      if m == n && s.names[m][r] == name {
        BelowSelf(s'.kids, s.kids[n][name]);
      }
    }
  }

  lemma MarkPaths(s: Store, n: PathNode, name: string)
    requires Known(s.kids, s.names, s.what, s.count, s.parent, s.fids)
    requires Tree(s.root, s.kids, s.deleted) && n in s.kids && n !in s.deleted && name in s.kids[n]
    requires Paths(s.root, s.kids, s.deleted, s.what, s.count, s.parent, s.path)
    ensures var s' := Mark(s, n, name); Paths(s.root, s'.kids, s'.deleted, s.what, s.count, s.parent, s.path)
  {
    hide From, Tree, Below;
    var s' := Mark(s, n, name);
    forall r | r in s.what && Cnt(s.count, r) > 0 && Tracked(s.root, s.what, s.parent, r)
      && s.what[r].node !in s'.deleted
      ensures From(s'.kids, s.root, PathOf(s.path, s.what[r].file)) == s.what[r].node
    {
      Survives(s.root, s.kids, s.deleted, n, name, PathOf(s.path, s.what[r].file));
    }
  }

  lemma MarkKeeps(s: Store, held: multiset<FidRef>, n: PathNode, name: string)
    requires Inv(s, held) && n in s.kids && n !in s.deleted
    ensures Inv(Mark(s, n, name), held)
    ensures n !in Mark(s, n, name).deleted
  {
    hide Tree, Registered, Present, Lineage, Grounded, Counted, ClosedOnce, Sharing, Paths, From, Below;
    MarkFiled(s.kids, s.names, s.what, s.count, s.parent, n, name);
    MarkPresent(s, n, name);
    assert Mark(s, n, name).kids.Keys == s.kids.Keys;
    if name in s.kids[n] {
      Detach(s.root, s.kids, s.deleted, n, name);
      MarkPaths(s, n, name);
    } else {
      assert s.kids[n] - {name} == s.kids[n];
      assert Without(s.kids, n, name) == s.kids;
    }
  }

  // ---- rename ---------------------------------------------------------------

  /** The references that a rename of `name` in node `n` carries along. */
  ghost function Movers(names: Names, n: PathNode, name: string): set<FidRef>
  {
    set r | r in At(names, n) && At(names, n)[r] == name
  }

  ghost predicate Distinct(order: seq<FidRef>)
  {
    forall i, j | 0 <= i < j < |order| :: order[i] != order[j]
  }

  /** `order` lists the set `m`, each element once. */
  ghost predicate Lists(order: seq<FidRef>, m: set<FidRef>)
  {
    && Distinct(order)
    && (forall x | x in m :: x in order)
    && (forall x | x in order :: x in m)
  }

  /** Every listed reference gets `t` as its parent. */
  ghost function Repoint(parent: Parents, order: seq<FidRef>, t: FidRef): Parents
  {
    if order == [] then parent else Repoint(parent, order[..|order| - 1], t)[order[|order| - 1] := t]
  }

  ghost function Refile(names: Names, f: PathNode, oldName: string, t: PathNode, newName: string,
                        order: seq<FidRef>): Names
  {
    var rest := names[f := Unnamed(At(names, f), oldName)];
    rest[t := At(rest, t) + (map r | r in order :: newName)]
  }

  /** The references whose file is told about the move: the movers and everything registered below the moved node. */
  ghost function Affected(names: Names, what: Refs, order: seq<FidRef>, below: set<PathNode>): set<FidRef>
  {
    set r | r in what && (r in order || exists m :: m in below && r in At(names, m))
  }

  /** The files of the affected references swap the first `cut` components of their path for `base`. */
  ghost function Rebase(path: map<File, seq<string>>, what: Refs, affected: set<FidRef>, base: seq<string>,
                        cut: nat): map<File, seq<string>>
  {
    path + map r | r in affected && r in what :: what[r].file := base + Tail(PathOf(path, what[r].file), cut)
  }

  function Tail(p: seq<string>, cut: nat): seq<string>
  {
    if cut <= |p| then p[cut..] else []
  }

  ghost predicate CanGraft(s: Store, f: PathNode, oldName: string, t: FidRef)
  {
    f in s.kids && oldName in s.kids[f] && t in s.what && s.what[t].node in s.kids
  }

  /** renameChildTo after the target name was cleared: the subtree at `oldName` of `f`, whose path is `pf`, moves
      below `t`. */
  ghost function Graft(s: Store, f: PathNode, oldName: string, pf: seq<string>, t: FidRef, newName: string,
                       order: seq<FidRef>): Store
    requires CanGraft(s, f, oldName, t)
  {
    var c := s.kids[f][oldName];
    var k := Without(s.kids, f, oldName);
    var tn := s.what[t].node;
    s.(kids := With(k, tn, newName, c),
       names := Refile(s.names, f, oldName, tn, newName, order),
       parent := Repoint(s.parent, order, t),
       count := s.count[t := Cnt(s.count, t) + |order|],
       path := Rebase(s.path, s.what, Affected(s.names, s.what, order, Below(k, c)),
                      PathOf(s.path, s.what[t].file) + [newName], |pf| + 1))
  }

  lemma {:induction false} RepointPar(parent: Parents, order: seq<FidRef>, t: FidRef, x: FidRef)
    ensures Par(Repoint(parent, order, t), x) == if x in order then t else Par(parent, x)
    ensures x in Repoint(parent, order, t) <==> x in order || x in parent
    decreases |order|
  {
    if order != [] {
      RepointPar(parent, order[..|order| - 1], t, x);
      assert order == order[..|order| - 1] + [order[|order| - 1]];
    }
  }

  /** The parents the movers had, each owed one DecRef. */
  ghost function OldParents(parent: Parents, order: seq<FidRef>): multiset<FidRef>
  {
    if order == [] then multiset{}
    else OldParents(parent, order[..|order| - 1]) + Owed(parent, order[|order| - 1])
  }

  lemma MoveChildren(count: Counts, parent: Parents, r: FidRef, t: FidRef, x: FidRef)
    requires Cnt(count, r) > 0
    ensures |Children(count, parent[r := t], x)| + Owed(parent, r)[x] == |Children(count, parent, x)|
              + (if x == t then 1 else 0)
  {
    var rest := Children(count, parent, x) - {r};
    assert Children(count, parent[r := t], x) == if x == t then rest + {r} else rest;
    assert Children(count, parent, x) == if Par(parent, r) == x then rest + {r} else rest;
  }

  lemma {:induction false} GraftChildren(count: Counts, parent: Parents, order: seq<FidRef>, t: FidRef, x: FidRef)
    requires forall r | r in order :: Cnt(count, r) > 0
    requires Distinct(order)
    ensures |Children(count, Repoint(parent, order, t), x)| + OldParents(parent, order)[x]
         == |Children(count, parent, x)| + (if x == t then |order| else 0)
    decreases |order|
  {
    hide Children;
    if order != [] {
      var front, r := order[..|order| - 1], order[|order| - 1];
      GraftChildren(count, parent, front, t, x);
      MoveChildren(count, Repoint(parent, front, t), r, t, x);
      RepointPar(parent, front, t, r);
    }
  }

  lemma GraftCounts(what: Refs, count: Counts, parent: Parents, fids: Fids, held: multiset<FidRef>, order: seq<FidRef>,
                    t: FidRef)
    requires Counted(what, count, parent, fids, held) && t in what && Cnt(count, t) > 0
    requires forall r | r in order :: Cnt(count, r) > 0
    requires Distinct(order)
    requires forall x | x in OldParents(parent, order) :: x in what
    ensures Counted(what, count[t := Cnt(count, t) + |order|], Repoint(parent, order, t), fids,
              held + OldParents(parent, order))
  {
    hide Children, Binds, OldParents, Distinct;
    var count', parent' := count[t := Cnt(count, t) + |order|], Repoint(parent, order, t);
    forall x | x in what
      ensures Cnt(count', x) == |Binds(fids, x)| + |Children(count', parent', x)|
                + (held + OldParents(parent, order))[x]
    {
      GraftChildren(count, parent, order, t, x);
      MoreAlive(count, count', parent', x);
    }
  }

  lemma MoreAlive(count: Counts, count': Counts, parent: Parents, x: FidRef)
    requires forall r | r in parent :: (Cnt(count, r) > 0) == (Cnt(count', r) > 0)
    ensures Children(count', parent, x) == Children(count, parent, x)
  {
  }

  /** The conditions under which the server calls renameChildTo, once the backing file has accepted the rename. */
  ghost predicate Movable(s: Store, f: PathNode, oldName: string, pf: seq<string>, t: FidRef, newName: string,
                          order: seq<FidRef>)
  {
    && CanGraft(s, f, oldName, t)
    && f !in s.deleted && From(s.kids, s.root, pf) == f
    && s.what[t].dir && s.what[t].node !in s.deleted && Cnt(s.count, t) > 0
    && newName !in Without(s.kids, f, oldName)[s.what[t].node]
    && s.what[t].node !in Below(Without(s.kids, f, oldName), s.kids[f][oldName])
    && Lists(order, Movers(s.names, f, oldName))
  }

  lemma GraftFiled(kids: Kids, names: Names, what: Refs, count: Counts, parent: Parents,
                   f: PathNode, oldName: string, t: FidRef, newName: string, order: seq<FidRef>)
    requires Registered(kids, names, what, count, parent) && f in kids && oldName in kids[f] && t in what
    requires what[t].node in kids
    requires newName !in Without(kids, f, oldName)[what[t].node] && Lists(order, Movers(names, f, oldName))
    ensures Registered(With(Without(kids, f, oldName), what[t].node, newName, kids[f][oldName]),
                       Refile(names, f, oldName, what[t].node, newName, order), what, count, Repoint(parent, order, t))
  {
    hide Repoint;
    var kids' := With(Without(kids, f, oldName), what[t].node, newName, kids[f][oldName]);
    var names' := Refile(names, f, oldName, what[t].node, newName, order);
    forall n, r | n in names' && r in names'[n]
      ensures Filed(kids', what, count, Repoint(parent, order, t), n, r, names'[n][r])
    {
      RepointPar(parent, order, t, r);
      if r in order {
        assert Filed(kids, what, count, parent, f, r, names[f][r]);
        MoverFiled(kids, names, what, count, parent, f, oldName, what[t].node, newName, order, n, r);
      } else {
        assert n in names && r in names[n] && names[n][r] == names'[n][r];
        assert Filed(kids, what, count, parent, n, r, names[n][r]);
      }
    }
  }

  /** A mover is registered in one place only: under the new name. */
  lemma MoverFiled(kids: Kids, names: Names, what: Refs, count: Counts, parent: Parents,
                   f: PathNode, oldName: string, t: PathNode, newName: string, order: seq<FidRef>, n: PathNode,
                       r: FidRef)
    requires Registered(kids, names, what, count, parent) && Lists(order, Movers(names, f, oldName)) && r in order
    requires var names' := Refile(names, f, oldName, t, newName, order); n in names' && r in names'[n]
    ensures n == t && Refile(names, f, oldName, t, newName, order)[n][r] == newName
  {
    assert Filed(kids, what, count, parent, f, r, names[f][r]);
  }

  lemma GraftPresent(s: Store, f: PathNode, oldName: string, pf: seq<string>, t: FidRef, newName: string,
                     order: seq<FidRef>)
    requires Present(s.deleted, s.names, s.what, s.count, s.parent) && Movable(s, f, oldName, pf, t, newName, order)
    ensures var s' := Graft(s, f, oldName, pf, t, newName, order);
            Present(s.deleted, s'.names, s.what, s.count, s'.parent)
  {
    hide Below, From, Rebase, Repoint, With, Without;
    var s' := Graft(s, f, oldName, pf, t, newName, order);
    forall r | r in s.what && Cnt(s.count, r) > 0 && Par(s'.parent, r) != null && s.what[r].node !in s.deleted
      ensures Par(s'.parent, r) in s.what && r in At(s'.names, s.what[Par(s'.parent, r)].node)
    {
      RepointPar(s.parent, order, t, r);
      if r !in order {
        assert r in At(s.names, s.what[Par(s.parent, r)].node);
      }
    }
  }

  lemma GraftKin(s: Store, f: PathNode, oldName: string, t: FidRef, order: seq<FidRef>)
    requires Lineage(s.root, s.what, s.parent) && Sharing(s.what, s.parent) && t in s.what && s.what[t].dir
    requires forall r | r in order :: Par(s.parent, r) != null
    ensures Lineage(s.root, s.what, Repoint(s.parent, order, t)) && Sharing(s.what, Repoint(s.parent, order, t))
  {
    forall r ensures Par(Repoint(s.parent, order, t), r) == if r in order then t else Par(s.parent, r) {
      RepointPar(s.parent, order, t, r);
    }
    hide Repoint;
  }

  // The chain above the target avoids the movers, so re-parenting closes no cycle.

  lemma {:induction false} ChainAbove(s: Store, held: multiset<FidRef>, t: FidRef, k: nat)
    requires Inv(s, held) && t in s.what && Cnt(s.count, t) > 0 && s.what[t].node !in s.deleted
    ensures var y := Up(s.parent, t, k);
            y != null ==>
              && y in s.what && Cnt(s.count, y) > 0 && s.what[y].node !in s.deleted
              && Reaches(s.kids, s.what[y].node, s.what[t].node)
    decreases k
  {
    hide Inv, Known, Reaches;
    if k == 0 {
      assert From(s.kids, s.what[t].node, []) == s.what[t].node;
      ReachesSelf(s.kids, s.what[t].node);
    } else {
      UpSplit(s.parent, t, k - 1);
      ChainAbove(s, held, t, k - 1);
      var y := Up(s.parent, t, k - 1);
      if y != null && Par(s.parent, y) != null {
        ParentAbove(s, held, y);
        ReachesUp(s.kids, s.what[Par(s.parent, y)].node, s.what[y].node, s.what[t].node);
      }
    }
  }

  lemma ReachesSelf(kids: Kids, n: PathNode)
    ensures Reaches(kids, n, n)
  {
    assert From(kids, n, []) == n;
  }

  lemma ReachesUp(kids: Kids, n: PathNode, m: PathNode, d: PathNode)
    requires Reaches(kids, n, m) && Reaches(kids, m, d)
    ensures Reaches(kids, n, d)
  {
    var p :| From(kids, n, p) == m;
    var q :| From(kids, m, q) == d;
    FromConcat(kids, n, p, q);
  }

  lemma {:induction false} UpSplit(parent: Parents, r: FidRef?, k: nat)
    ensures Up(parent, r, k + 1) == (var y := Up(parent, r, k); if y == null then null else Par(parent, y))
    decreases k
  {
    if k > 0 && r != null { UpSplit(parent, Par(parent, r), k - 1); }
  }

  lemma ParentAbove(s: Store, held: multiset<FidRef>, y: FidRef)
    requires Inv(s, held) && y in s.what && Cnt(s.count, y) > 0 && s.what[y].node !in s.deleted
    requires Par(s.parent, y) != null
    ensures var p := Par(s.parent, y);
            && p in s.what && Cnt(s.count, p) > 0 && s.what[p].node in s.kids && s.what[p].node !in s.deleted
            && y in At(s.names, s.what[p].node)
            && Hangs(s.kids, s.what[p].node, At(s.names, s.what[p].node)[y], s.what[y].node)
            && Reaches(s.kids, s.what[p].node, s.what[y].node)
  {
    hide Tree, Lineage, Grounded, ClosedOnce, Sharing, Paths, Hangs;
    var p := Par(s.parent, y);
    var n := s.what[p].node;
    assert y in At(s.names, n);
    assert Filed(s.kids, s.what, s.count, s.parent, n, y, s.names[n][y]);
    assert y in Children(s.count, s.parent, p);
    EdgeLive(s.root, s.kids, s.deleted, n, s.names[n][y], s.what[y].node);
    EdgeReaches(s.kids, n, s.names[n][y], s.what[y].node);
  }

  lemma EdgeReaches(kids: Kids, n: PathNode, name: string, c: PathNode)
    requires Hangs(kids, n, name, c)
    ensures Reaches(kids, n, c)
  {
    assert [name][..0] == [];
    assert From(kids, n, [name]) == c;
  }

  lemma {:induction false} UpMoved(parent: Parents, order: seq<FidRef>, t: FidRef, r: FidRef?, k: nat)
    requires forall j: nat | j <= k :: Up(parent, r, j) == null || Up(parent, r, j) !in order
    ensures Up(Repoint(parent, order, t), r, k) == Up(parent, r, k)
    decreases k
  {
    if k > 0 && r != null {
      RepointPar(parent, order, t, r);
      assert Up(parent, r, 0) == r;
      forall j: nat | j <= k - 1 ensures Up(parent, Par(parent, r), j) == null
        || Up(parent, Par(parent, r), j) !in order {
        assert Up(parent, r, j + 1) == Up(parent, Par(parent, r), j);
      }
      UpMoved(parent, order, t, Par(parent, r), k - 1);
    }
  }

  lemma {:induction false} EndsMoved(parent: Parents, order: seq<FidRef>, t: FidRef, r: FidRef, k: nat)
    requires Ends(Repoint(parent, order, t), t) && Up(parent, r, k) == null
    ensures Ends(Repoint(parent, order, t), r)
    decreases k
  {
    var parent' := Repoint(parent, order, t);
    RepointPar(parent, order, t, r);
    var p := Par(parent', r);
    if p == null {
      assert Up(parent', r, 1) == null;
    } else {
      if p != t { EndsMoved(parent, order, t, p, k - 1); }
      var h: nat :| Up(parent', p, h) == null;
      assert Up(parent', r, h + 1) == null;
    }
  }

  lemma GraftGrounded(s: Store, held: multiset<FidRef>, order: seq<FidRef>, t: FidRef)
    requires Inv(s, held) && t in s.what && Cnt(s.count, t) > 0 && s.what[t].node !in s.deleted
    requires forall y | y in order :: y in s.what && !Reaches(s.kids, s.what[y].node, s.what[t].node)
    ensures Grounded(Repoint(s.parent, order, t))
  {
    hide Inv, Reaches, Repoint;
    var parent' := Repoint(s.parent, order, t);
    AllEnd(s, held);
    assert Ends(s.parent, t);
    var k: nat :| Up(s.parent, t, k) == null;
    forall j: nat | j <= k ensures Up(s.parent, t, j) == null || Up(s.parent, t, j) !in order {
      ChainAbove(s, held, t, j);
    }
    UpMoved(s.parent, order, t, t, k);
    forall r | r in parent' ensures Ends(parent', r) {
      RepointPar(s.parent, order, t, r);
      assert Ends(s.parent, r);
      var h: nat :| Up(s.parent, r, h) == null;
      EndsMoved(s.parent, order, t, r, h);
    }
  }

  lemma AllEnd(s: Store, held: multiset<FidRef>)
    requires Inv(s, held)
    ensures forall r | r in s.what || r in s.parent :: Ends(s.parent, r)
  {
    hide Tree, Registered, Present, Lineage, Counted, ClosedOnce, Sharing, Paths;
    forall r | r in s.what ensures Ends(s.parent, r) {
      if r !in s.parent { assert Up(s.parent, r, 1) == null; }
    }
  }

  // The files told about the move are exactly those whose path runs through the moved edge.

  lemma AffectedBelow(s: Store, f: PathNode, oldName: string, order: seq<FidRef>, y: FidRef)
    requires Closed(s.kids) && Registered(s.kids, s.names, s.what, s.count, s.parent)
    requires f in s.kids && oldName in s.kids[f] && Lists(order, Movers(s.names, f, oldName))
    requires f !in Below(Without(s.kids, f, oldName), s.kids[f][oldName])
    requires y in Affected(s.names, s.what, order, Below(Without(s.kids, f, oldName), s.kids[f][oldName]))
    ensures s.what[y].node in Below(Without(s.kids, f, oldName), s.kids[f][oldName])
  {
    hide Below, Registered;
    var k := Without(s.kids, f, oldName);
    var c := s.kids[f][oldName];
    if y in order {
      FiledAt(s.kids, s.names, s.what, s.count, s.parent, f, y);
      BelowSelf(k, c);
    } else {
      var m :| m in Below(k, c) && y in At(s.names, m);
      FiledAt(s.kids, s.names, s.what, s.count, s.parent, m, y);
      BelowChild(k, c, m, s.names[m][y], s.what[y].node);
    }
  }

  lemma FiledAt(kids: Kids, names: Names, what: Refs, count: Counts, parent: Parents, n: PathNode, r: FidRef)
    requires Registered(kids, names, what, count, parent) && r in At(names, n)
    ensures n in names && Filed(kids, what, count, parent, n, r, names[n][r])
  {
  }

  lemma BelowAffected(s: Store, f: PathNode, oldName: string, order: seq<FidRef>, r: FidRef)
    requires Known(s.kids, s.names, s.what, s.count, s.parent, s.fids)
    requires Closed(s.kids) && SingleParent(s.kids) && Registered(s.kids, s.names, s.what, s.count, s.parent)
    requires Present(s.deleted, s.names, s.what, s.count, s.parent)
    requires f in s.kids && oldName in s.kids[f] && Lists(order, Movers(s.names, f, oldName))
    requires Closed(Without(s.kids, f, oldName)) && SingleParent(Without(s.kids, f, oldName))
    requires r in s.what && Cnt(s.count, r) > 0 && Par(s.parent, r) != null && s.what[r].node !in s.deleted
    requires s.what[r].node in Below(Without(s.kids, f, oldName), s.kids[f][oldName])
    ensures r in Affected(s.names, s.what, order, Below(Without(s.kids, f, oldName), s.kids[f][oldName]))
  {
    hide Below, Registered, SingleParent;
    var k := Without(s.kids, f, oldName);
    var c := s.kids[f][oldName];
    var m := s.what[Par(s.parent, r)].node;
    FiledAt(s.kids, s.names, s.what, s.count, s.parent, m, r);
    if m == f && s.names[m][r] == oldName {
      assert r in Movers(s.names, f, oldName);
    } else if s.what[r].node == c {
      assert Hangs(s.kids, f, oldName, c) && Hangs(s.kids, m, s.names[m][r], c);
      OneEdge(s.kids, f, oldName, m, s.names[m][r], c);
    } else {
      BelowParent(k, c, m, s.names[m][r], s.what[r].node);
    }
  }

  lemma OneEdge(kids: Kids, n: PathNode, x: string, m: PathNode, y: string, c: PathNode)
    requires Closed(kids) && SingleParent(kids) && n in kids && m in kids && Hangs(kids, n, x, c)
    requires Hangs(kids, m, y, c)
    ensures n == m && x == y
  {
  }

  lemma RebaseHit(path: map<File, seq<string>>, what: Refs, affected: set<FidRef>, base: seq<string>, cut: nat,
                  r: FidRef)
    requires r in affected && r in what
    ensures PathOf(Rebase(path, what, affected, base, cut), what[r].file) == base
              + Tail(PathOf(path, what[r].file), cut)
  {
  }

  lemma RebaseMiss(path: map<File, seq<string>>, what: Refs, affected: set<FidRef>, base: seq<string>, cut: nat,
                   f: File)
    requires forall r | r in affected && r in what :: what[r].file != f
    ensures PathOf(Rebase(path, what, affected, base, cut), f) == PathOf(path, f)
  {
  }

  ghost predicate ShapeInv(s: Store)
  {
    && Known(s.kids, s.names, s.what, s.count, s.parent, s.fids)
    && Tree(s.root, s.kids, s.deleted)
    && Registered(s.kids, s.names, s.what, s.count, s.parent)
    && Present(s.deleted, s.names, s.what, s.count, s.parent)
    && Lineage(s.root, s.what, s.parent)
    && Sharing(s.what, s.parent)
    && Paths(s.root, s.kids, s.deleted, s.what, s.count, s.parent, s.path)
  }

  lemma PathHolds(s: Store, r: FidRef)
    requires Lineage(s.root, s.what, s.parent) && Paths(s.root, s.kids, s.deleted, s.what, s.count, s.parent, s.path)
    requires r in s.what && Cnt(s.count, r) > 0 && s.what[r].node !in s.deleted
    requires s.what[r].dir || Par(s.parent, r) != null || s.what[r].node == s.root
    ensures From(s.kids, s.root, PathOf(s.path, s.what[r].file)) == s.what[r].node
  {
    hide From;
    assert Tracked(s.root, s.what, s.parent, r);
  }

  lemma GraftPathIn(s: Store, f: PathNode, oldName: string, pf: seq<string>, t: FidRef, newName: string,
                    order: seq<FidRef>, r: FidRef)
    requires ShapeInv(s) && Movable(s, f, oldName, pf, t, newName, order)
    requires r in s.what && Cnt(s.count, r) > 0 && Par(s.parent, r) != null && s.what[r].node !in s.deleted
    requires s.what[r].node in Below(Without(s.kids, f, oldName), s.kids[f][oldName])
    ensures var s' := Graft(s, f, oldName, pf, t, newName, order);
            From(s'.kids, s.root, PathOf(s'.path, s.what[r].file)) == s.what[r].node
  {
    hide From, Below, Registered, Present, Lineage, Sharing, Paths, SingleParent, Closed, Lists, Rebase, Refile;
    hide Repoint, Known, DeletedIsUnreachable, Top, With, Without;
    var q := PathOf(s.path, s.what[r].file);
    PathHolds(s, r);
    PathHolds(s, t);
    CutShape(s.kids, s.root, f, oldName);
    BelowAffected(s, f, oldName, order, r);
    RebaseHit(s.path, s.what, Affected(s.names, s.what, order, Below(Without(s.kids, f, oldName), s.kids[f][oldName])),
              PathOf(s.path, s.what[t].file) + [newName], |pf| + 1, r);
    Carried(s.root, s.kids, s.deleted, f, oldName, pf, s.what[t].node, newName, PathOf(s.path, s.what[t].file), q);
  }

  lemma GraftPathOut(s: Store, f: PathNode, oldName: string, pf: seq<string>, t: FidRef, newName: string,
                     order: seq<FidRef>, r: FidRef)
    requires ShapeInv(s) && Movable(s, f, oldName, pf, t, newName, order)
    requires r in s.what && Cnt(s.count, r) > 0 && Tracked(s.root, s.what, s.parent, r) && s.what[r].node !in s.deleted
    requires s.what[r].node !in Below(Without(s.kids, f, oldName), s.kids[f][oldName])
    ensures var s' := Graft(s, f, oldName, pf, t, newName, order);
            From(s'.kids, s.root, PathOf(s'.path, s.what[r].file)) == s.what[r].node
  {
    hide From, Below, Registered, Present, Lineage, Paths, SingleParent, Closed, Lists, Rebase, Refile, Repoint, Known;
    hide DeletedIsUnreachable, Top, With;
    var k, c := Without(s.kids, f, oldName), s.kids[f][oldName];
    var q := PathOf(s.path, s.what[r].file);
    PathHolds(s, r);
    NodeKnown(s, r);
    Detach(s.root, s.kids, s.deleted, f, oldName);
    Survives(s.root, s.kids, s.deleted, f, oldName, q);
    TopIn(k, c);
    GraftAway(k, s.root, s.what[t].node, newName, c, q);
    var affected := Affected(s.names, s.what, order, Below(k, c));
    forall y | y in affected && y in s.what ensures s.what[y].file != s.what[r].file {
      AffectedBelow(s, f, oldName, order, y);
    }
    RebaseMiss(s.path, s.what, affected, PathOf(s.path, s.what[t].file) + [newName], |pf| + 1, s.what[r].file);
  }

  lemma TopIn(kids: Kids, c: PathNode)
    requires Top(kids, c)
    ensures c in kids
  {
  }

  lemma NodeKnown(s: Store, r: FidRef)
    requires Known(s.kids, s.names, s.what, s.count, s.parent, s.fids) && r in s.what
    ensures s.what[r].node in s.kids
  {
  }

  lemma GraftPaths(s: Store, f: PathNode, oldName: string, pf: seq<string>, t: FidRef, newName: string,
                   order: seq<FidRef>)
    requires ShapeInv(s) && Movable(s, f, oldName, pf, t, newName, order)
    requires forall r | r in order :: Par(s.parent, r) != null
    ensures var s' := Graft(s, f, oldName, pf, t, newName, order);
            Paths(s.root, s'.kids, s.deleted, s.what, s.count, s'.parent, s'.path)
  {
    hide From, Below, ShapeInv, Lists, Rebase, Refile, Repoint, Affected, With, Without;
    var s' := Graft(s, f, oldName, pf, t, newName, order);
    var b := Below(Without(s.kids, f, oldName), s.kids[f][oldName]);
    forall r | r in s.what && Cnt(s.count, r) > 0 && Tracked(s.root, s.what, s'.parent, r)
      && s.what[r].node !in s.deleted
      ensures From(s'.kids, s.root, PathOf(s'.path, s.what[r].file)) == s.what[r].node
    {
      RepointPar(s.parent, order, t, r);
      if s.what[r].node in b {
        RootNotBelow(s, f, oldName);
        GraftPathIn(s, f, oldName, pf, t, newName, order, r);
      } else {
        GraftPathOut(s, f, oldName, pf, t, newName, order, r);
      }
    }
  }

  lemma RootNotBelow(s: Store, f: PathNode, oldName: string)
    requires ShapeInv(s) && f in s.kids && f !in s.deleted && oldName in s.kids[f]
    ensures s.root !in Below(Without(s.kids, f, oldName), s.kids[f][oldName])
  {
    hide Known, Registered, Present, Lineage, Sharing, Paths, SingleParent, Closed;
    Detach(s.root, s.kids, s.deleted, f, oldName);
    ReachesSelf(Without(s.kids, f, oldName), s.root);
  }

  lemma MoversKnown(s: Store, f: PathNode, oldName: string, order: seq<FidRef>)
    requires Registered(s.kids, s.names, s.what, s.count, s.parent) && Lists(order, Movers(s.names, f, oldName))
    ensures forall r | r in order ::
              && Par(s.parent, r) != null && r in s.what && Cnt(s.count, r) > 0
              && Par(s.parent, r) in s.what && s.what[Par(s.parent, r)].node == f
              && Hangs(s.kids, f, oldName, s.what[r].node)
  {
    forall r | r in order
      ensures Filed(s.kids, s.what, s.count, s.parent, f, r, oldName)
    {
      FiledAt(s.kids, s.names, s.what, s.count, s.parent, f, r);
    }
  }

  lemma {:induction false} OldParentsKnown(what: Refs, parent: Parents, order: seq<FidRef>)
    requires forall r | r in order :: Par(parent, r) == null || Par(parent, r) in what
    ensures forall x | x in OldParents(parent, order) :: x in what
    decreases |order|
  {
    if order != [] { OldParentsKnown(what, parent, order[..|order| - 1]); }
  }

  lemma GraftGround(s: Store, held: multiset<FidRef>, f: PathNode, oldName: string, pf: seq<string>, t: FidRef,
                    newName: string, order: seq<FidRef>)
    requires Inv(s, held) && Movable(s, f, oldName, pf, t, newName, order)
    ensures Grounded(Repoint(s.parent, order, t))
  {
    hide Known, Registered, Present, Lineage, Grounded, Counted, ClosedOnce, Sharing, Paths, Repoint, Lists, From;
    hide Hangs;
    MoversKnown(s, f, oldName, order);
    var k, c := Without(s.kids, f, oldName), s.kids[f][oldName];
    var tn := s.what[t].node;
    forall y | y in order ensures y in s.what && !Reaches(s.kids, s.what[y].node, tn) {
      assert s.what[y].node == c by { EdgeKid(s.kids, f, oldName, s.what[y].node); }
      if Reaches(s.kids, c, tn) {
        MovesWithin(s.root, s.kids, s.deleted, f, oldName, tn);
      }
    }
    GraftGrounded(s, held, order, t);
  }

  lemma EdgeKid(kids: Kids, n: PathNode, name: string, c: PathNode)
    requires Hangs(kids, n, name, c)
    ensures n in kids && name in kids[n] && kids[n][name] == c
  {
  }

  /** Cutting the edge above `c` does not change what `c` reaches. */
  lemma MovesWithin(root: PathNode, kids: Kids, deleted: set<PathNode>, f: PathNode, oldName: string, m: PathNode)
    requires Tree(root, kids, deleted) && f in kids && f !in deleted && oldName in kids[f] && m in kids
    requires Reaches(kids, kids[f][oldName], m)
    ensures m in Below(Without(kids, f, oldName), kids[f][oldName])
  {
    hide From;
    var pf :| From(kids, root, pf) == f;
    var q :| From(kids, kids[f][oldName], q) == m;
    CutBelow(kids, root, f, oldName, pf, []);
    CutBelow(kids, root, f, oldName, pf, q);
    assert pf + [oldName] + [] == pf + [oldName];
    FromNil(Without(kids, f, oldName), kids[f][oldName]);
    FromConcat(kids, root, pf + [oldName], q);
  }

  lemma FromNil(kids: Kids, n: PathNode)
    ensures From(kids, n, []) == n
  {
  }

  lemma GraftTracks(s: Store, f: PathNode, oldName: string, pf: seq<string>, t: FidRef, newName: string,
                    order: seq<FidRef>)
    requires ShapeInv(s) && Movable(s, f, oldName, pf, t, newName, order)
    ensures var s' := Graft(s, f, oldName, pf, t, newName, order); ShapeInv(s'.(count := s.count))
  {
    hide Tree, Registered, Present, Lineage, Sharing, Paths, From, Below, Rebase, Affected, Repoint, Hangs, Distinct;
    hide Refile, With, Movers;
    MoversKnown(s, f, oldName, order);
    Moved(s.root, s.kids, s.deleted, f, oldName, s.what[t].node, newName);
    GraftFiled(s.kids, s.names, s.what, s.count, s.parent, f, oldName, t, newName, order);
    GraftPresent(s, f, oldName, pf, t, newName, order);
    GraftPaths(s, f, oldName, pf, t, newName, order);
    GraftKin(s, f, oldName, t, order);
    GraftKnown(s, f, oldName, pf, t, newName, order);
  }

  lemma Recount(s: Store, count': Counts, held: multiset<FidRef>)
    requires ShapeInv(s) && Grounded(s.parent) && ClosedOnce(s.what, s.count, s.closes)
    requires Counted(s.what, count', s.parent, s.fids, held) && SameLife(s.what, s.count, count')
    requires forall r | r in count' :: r in s.what && count'[r] >= 0
    ensures Inv(s.(count := count'), held)
  {
    hide Tree, Registered, Present, Lineage, Grounded, Counted, ClosedOnce, Sharing, Paths;
    SameFiling(s.kids, s.deleted, s.names, s.what, s.count, count', s.parent);
    SamePaths(s.root, s.kids, s.deleted, s.what, s.count, count', s.parent, s.path);
    StillClosed(s.what, s.count, count', s.closes);
  }

  /** Rename keeps everything; the movers' old parents are left for the caller to drop. */
  lemma GraftKeeps(s: Store, held: multiset<FidRef>, f: PathNode, oldName: string, pf: seq<string>, t: FidRef,
                   newName: string, order: seq<FidRef>)
    requires Inv(s, held) && Movable(s, f, oldName, pf, t, newName, order)
    ensures Inv(Graft(s, f, oldName, pf, t, newName, order), held + OldParents(s.parent, order))
  {
    hide Tree, Registered, Present, Lineage, Grounded, Counted, ClosedOnce, Sharing, Paths, From, Below, Rebase;
    hide Affected, Repoint, OldParents, Hangs, Distinct, Refile, With;
    var s' := Graft(s, f, oldName, pf, t, newName, order);
    MoversKnown(s, f, oldName, order);
    OldParentsKnown(s.what, s.parent, order);
    GraftTracks(s, f, oldName, pf, t, newName, order);
    GraftGround(s, held, f, oldName, pf, t, newName, order);
    GraftCounts(s.what, s.count, s.parent, s.fids, held, order, t);
    hide ShapeInv;
    Recount(s'.(count := s.count), s'.count, held + OldParents(s.parent, order));
  }

  lemma GraftKnown(s: Store, f: PathNode, oldName: string, pf: seq<string>, t: FidRef, newName: string,
                   order: seq<FidRef>)
    requires Known(s.kids, s.names, s.what, s.count, s.parent, s.fids) && CanGraft(s, f, oldName, t)
    requires forall r | r in order :: r in s.what
    ensures var s' := Graft(s, f, oldName, pf, t, newName, order);
            Known(s'.kids, s'.names, s.what, s'.count, s'.parent, s.fids)
  {
    hide Rebase, Affected, Below, Repoint, From;
    var s' := Graft(s, f, oldName, pf, t, newName, order);
    forall r | r in s'.parent
      ensures r in s.what && (s'.parent[r] == null || s'.parent[r] in s.what)
    {
      RepointPar(s.parent, order, t, r);
      assert s'.parent[r] == Par(s'.parent, r);
    }
  }
}
