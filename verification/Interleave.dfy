/** renameChildTo drops each mover's old parent before the next mover is taken up;
    the model moves all of them and then drops. Both orders lead to the same state. */
module Interleave {
  import opened Objects
  import opened Forest
  import opened Bookkeeping
  import opened Reshape
  import opened Handlers
  import opened Safety
  import opened Walks

  ghost function Rename1(names: Names, f: PathNode, r: FidRef, tn: PathNode, newName: string): Names
  {
    var rest := names[f := At(names, f) - {r}];
    rest[tn := At(rest, tn)[r := newName]]
  }

  /** One mover changes registration, parent and path; its old parent is not dropped yet. */
  ghost function MoveOne(s: Store, f: PathNode, r: FidRef, t: FidRef, newName: string): Store
    requires r in s.what && t in s.what
  {
    s.(names := Rename1(s.names, f, r, s.what[t].node, newName),
       parent := s.parent[r := t],
       count := s.count[t := Cnt(s.count, t) + 1],
       path := s.path[s.what[r].file := PathOf(s.path, s.what[t].file) + [newName]])
  }

  lemma AtRename1(names: Names, f: PathNode, r: FidRef, tn: PathNode, newName: string, m: PathNode)
    ensures var rest := if m == f then At(names, m) - {r} else At(names, m);
            At(Rename1(names, f, r, tn, newName), m) == if m == tn then rest[r := newName] else rest
    ensures m in Rename1(names, f, r, tn, newName) <==> m in names || m == f || m == tn
  {
  }

  lemma ForgetMovesAt(names: Names, f: PathNode, r: FidRef, tn: PathNode, newName: string, n: PathNode, y: FidRef,
                      m: PathNode)
    requires y != r
    ensures var a := Rename1(names, f, r, tn, newName);
            var lhs, rhs := a[n := At(a, n) - {y}], Rename1(names[n := At(names, n) - {y}], f, r, tn, newName);
            (m in lhs <==> m in rhs) && At(lhs, m) == At(rhs, m)
  {
    hide Rename1;
    var names' := names[n := At(names, n) - {y}];
    AtRename1(names, f, r, tn, newName, m);
    AtRename1(names', f, r, tn, newName, m);
    assert At(names', m) == if m == n then At(names, n) - {y} else At(names, m);
    Apart(At(names, m), r, y, newName);
  }

  lemma ForgetMoves(names: Names, f: PathNode, r: FidRef, tn: PathNode, newName: string, n: PathNode, y: FidRef)
    requires y != r
    ensures var a := Rename1(names, f, r, tn, newName);
            a[n := At(a, n) - {y}] == Rename1(names[n := At(names, n) - {y}], f, r, tn, newName)
  {
    hide Rename1, At;
    var a := Rename1(names, f, r, tn, newName);
    var lhs, rhs := a[n := At(a, n) - {y}], Rename1(names[n := At(names, n) - {y}], f, r, tn, newName);
    forall m | m in lhs ensures m in rhs
      && At(lhs, m) == At(rhs, m) { ForgetMovesAt(names, f, r, tn, newName, n, y, m); }
    forall m | m in rhs ensures m in lhs { ForgetMovesAt(names, f, r, tn, newName, n, y, m); }
    SameNames(lhs, rhs);
  }

  lemma SameNames(a: Names, b: Names)
    requires forall m | m in a :: m in b && At(a, m) == At(b, m)
    requires forall m | m in b :: m in a
    ensures a == b
  {
    forall m | m in a ensures a[m] == b[m] {
      assert At(a, m) == At(b, m);
    }
  }

  lemma Apart(m: map<FidRef, string>, r: FidRef, y: FidRef, name: string)
    requires y != r
    ensures m[r := name] - {y} == (m - {y})[r := name] && m - {r} - {y} == m - {y} - {r}
    ensures (m - {r})[r := name] - {y} == (m - {y} - {r})[r := name]
  {
  }

  lemma ForgottenMoves(names: Names, what: Refs, parent: Parents, f: PathNode, r: FidRef, t: FidRef, newName: string,
                       y: FidRef)
    requires t in what && y != r
    ensures Forget(Rename1(names, f, r, what[t].node, newName), what, parent[r := t], y)
         == Rename1(Forget(names, what, parent, y), f, r, what[t].node, newName)
  {
    hide Rename1, At;
    var q := Par(parent, y);
    if q != null && q in what {
      ForgetMoves(names, f, r, what[t].node, newName, what[q].node, y);
    }
  }

  lemma DieMoves(s: Store, f: PathNode, r: FidRef, t: FidRef, newName: string, y: FidRef)
    requires r in s.what && t in s.what && y in s.what && y != r && y != t
    ensures Die(MoveOne(s, f, r, t, newName), y) == MoveOne(Die(s, y), f, r, t, newName)
  {
    hide Rename1, At, PathOf, Forget, Closes;
    var c := Cnt(s.count, t) + 1;
    assert s.count[t := c][y := 0] == s.count[y := 0][t := c];
    ForgottenMoves(s.names, s.what, s.parent, f, r, t, newName, y);
  }

  /** The counting part of the invariant, which holds half-way through a rename too. */
  ghost predicate Tallied(s: Store, held: multiset<FidRef>)
  {
    && Counted(s.what, s.count, s.parent, s.fids, held)
    && (forall r | r in s.count :: s.count[r] >= 0)
    && (forall r {:trigger s.parent[r]} | r in s.parent ::
          r in s.what && (s.parent[r] == null || s.parent[r] in s.what))
  }

  lemma TalliedDie(s: Store, held: multiset<FidRef>, y: FidRef)
    requires Tallied(s, held) && y in held && Cnt(s.count, y) == 1
    ensures y in s.what && Tallied(Die(s, y), held - multiset{y} + Owed(s.parent, y))
  {
    hide Counted;
    HeldWhat(s, held);
    DieCounts(s.what, s.count, s.parent, s.fids, held, y);
  }

  lemma HeldWhat(s: Store, held: multiset<FidRef>)
    requires Counted(s.what, s.count, s.parent, s.fids, held)
    ensures forall x | x in held :: x in s.what && Cnt(s.count, x) >= held[x]
  {
  }

  lemma TalliedRelease(s: Store, held: multiset<FidRef>, y: FidRef)
    requires Tallied(s, held) && y in held && Cnt(s.count, y) != 1
    ensures Tallied(s.(count := s.count[y := Cnt(s.count, y) - 1]), held - multiset{y})
  {
    hide Counted;
    HeldWhat(s, held);
    SameCounting(s.what, s.count, s.count[y := Cnt(s.count, y) - 1], s.parent, s.fids, held, held - multiset{y}) by {
      ParentsKnown(s, held);
    }
  }

  lemma ParentsKnown(s: Store, held: multiset<FidRef>)
    requires Tallied(s, held)
    ensures forall x | x in s.parent :: x in s.what
  {
    forall x | x in s.parent ensures x in s.what {
      var p := s.parent[x];
    }
  }

  /** Chains of parents that avoid `r` do not notice its new parent. */
  lemma {:induction false} UpAvoids(parent: Parents, r: FidRef, t: FidRef, y: FidRef?, k: nat)
    requires forall j: nat | j <= k :: Up(parent, y, j) != r
    ensures Up(parent[r := t], y, k) == Up(parent, y, k)
    decreases k
  {
    if k > 0 && y != null {
      assert Up(parent, y, 0) == y;
      forall j: nat | j <= k - 1 ensures Up(parent, Par(parent, y), j) != r {
        assert Up(parent, y, j + 1) == Up(parent, Par(parent, y), j);
      }
      UpAvoids(parent, r, t, Par(parent, y), k - 1);
    }
  }

  /** The target of a move has its holders and the moved reference. */
  lemma TargetCount(s: Store, held: multiset<FidRef>, f: PathNode, r: FidRef, t: FidRef, newName: string)
    requires r in s.what && t in s.what && Tallied(MoveOne(s, f, r, t, newName), held) && t in held
    requires Cnt(s.count, r) > 0
    ensures Cnt(s.count, t) >= held[t]
  {
    hide Rename1, PathOf;
    var m := MoveOne(s, f, r, t, newName);
    assert r in Children(m.count, m.parent, t);
  }

  /** Moving a reference and dropping a holder commute, as long as the target is held. */
  lemma {:induction false} MoveDecRef(s: Store, held: multiset<FidRef>, f: PathNode, r: FidRef, t: FidRef,
                                      newName: string, y: FidRef, k: nat)
    requires r in s.what && t in s.what && Cnt(s.count, r) > 0
    requires Tallied(MoveOne(s, f, r, t, newName), held) && y in held && t in held && (y == t ==> held[t] >= 2)
    requires Up(s.parent, y, k) == null && forall j: nat | j <= k :: Up(s.parent, y, j) != r
    ensures Up(s.parent[r := t], y, k) == null
    ensures DecRef(MoveOne(s, f, r, t, newName), y, k) == MoveOne(DecRef(s, y, k), f, r, t, newName)
    decreases k
  {
    hide Tallied, MoveOne, Die, DecRef, Forget;
    UpAvoids(s.parent, r, t, y, k);
    var m := MoveOne(s, f, r, t, newName);
    TalliedHeld(m, held);
    TargetCount(s, held, f, r, t, newName);
    assert Up(s.parent, y, 0) == y;
    MoveFacts(s, f, r, t, newName, y);
    DecRefStep(s, y, k);
    DecRefStep(m, y, k);
    if Cnt(s.count, y) != 1 {
      ReleaseMoves(s, f, r, t, newName, y);
    } else {
      DieMoves(s, f, r, t, newName, y);
      DieParent(s, y);
      DieParent(m, y);
      DieWhat(s, y);
      var q := Par(s.parent, y);
      if q != null {
        TalliedDie(m, held, y);
        forall j: nat | j <= k - 1 ensures Up(s.parent, q, j) != r {
          assert Up(s.parent, y, j + 1) == Up(s.parent, q, j);
        }
        MoveDecRef(Die(s, y), held - multiset{y} + multiset{q}, f, r, t, newName, q, k - 1);
      }
    }
  }

  lemma TalliedHeld(s: Store, held: multiset<FidRef>)
    requires Tallied(s, held)
    ensures forall x | x in held :: x in s.what && Cnt(s.count, x) >= held[x]
  {
    hide Counted;
    HeldWhat(s, held);
  }

  lemma MoveFacts(s: Store, f: PathNode, r: FidRef, t: FidRef, newName: string, y: FidRef)
    requires r in s.what && t in s.what
    ensures var m := MoveOne(s, f, r, t, newName);
            && m.what == s.what && m.parent == s.parent[r := t]
            && Cnt(m.count, y) == Cnt(s.count, y) + if y == t then 1 else 0
  {
    hide Rename1, PathOf;
  }

  lemma ReleaseMoves(s: Store, f: PathNode, r: FidRef, t: FidRef, newName: string, y: FidRef)
    requires r in s.what && t in s.what
    ensures var m := MoveOne(s, f, r, t, newName);
            m.(count := m.count[y := Cnt(m.count, y) - 1])
                == MoveOne(s.(count := s.count[y := Cnt(s.count, y) - 1]), f, r, t, newName)
  {
    hide Rename1, PathOf;
    var a, b := Cnt(s.count, t) + 1, Cnt(s.count, y) - 1;
    if y == t {
      assert s.count[t := a][t := a - 1] == s.count[t := b][t := b + 1];
    } else {
      assert s.count[t := a][y := b] == s.count[y := b][t := a];
    }
  }

  lemma DieWhat(s: Store, y: FidRef)
    requires y in s.what
    ensures Die(s, y).what == s.what && forall r | r != y :: Cnt(Die(s, y).count, r) == Cnt(s.count, r)
  {
  }

  // ---- all movers -----------------------------------------------------------------

  ghost function MoveAll(s: Store, f: PathNode, order: seq<FidRef>, t: FidRef, newName: string): (s': Store)
    requires t in s.what && forall r | r in order :: r in s.what
    ensures s'.what == s.what
    decreases |order|
  {
    if order == [] then s
      else MoveOne(MoveAll(s, f, order[..|order| - 1], t, newName), f, order[|order| - 1], t, newName)
  }

  lemma TalliedMove(s: Store, held: multiset<FidRef>, f: PathNode, r: FidRef, t: FidRef, newName: string)
    requires Tallied(s, held) && t in held && r in s.what && t in s.what && Cnt(s.count, r) > 0
    ensures Tallied(MoveOne(s, f, r, t, newName), held + Owed(s.parent, r))
  {
    hide Counted, Rename1, PathOf;
    HeldWhat(s, held);
    var m := MoveOne(s, f, r, t, newName);
    assert Counted(m.what, m.count, m.parent, m.fids, held + Owed(s.parent, r)) by {
      assert Repoint(s.parent, [r][..0], t) == s.parent && Repoint(s.parent, [r], t) == s.parent[r := t];
      assert OldParents(s.parent, [r]) == Owed(s.parent, r) by {
        assert OldParents(s.parent, [r][..0]) == multiset{};
        assert multiset{} + Owed(s.parent, r) == Owed(s.parent, r);
      }
      GraftCounts(s.what, s.count, s.parent, s.fids, held, [r], t);
    }
  }

  lemma {:induction false} PutTallied(s: Store, held: multiset<FidRef>, y: FidRef, k: nat)
    requires Tallied(s, held) && y in held && Up(s.parent, y, k) == null
    ensures Tallied(DecRef(s, y, k), held - multiset{y})
    decreases k
  {
    hide Counted, Die, DecRef, Forget;
    HeldWhat(s, held);
    DecRefStep(s, y, k);
    if Cnt(s.count, y) != 1 {
      TalliedRelease(s, held, y);
    } else {
      TalliedDie(s, held, y);
      var q := Par(s.parent, y);
      if q == null {
        assert held - multiset{y} + Owed(s.parent, y) == held - multiset{y};
      } else {
        DieParent(s, y);
        PutTallied(Die(s, y), held - multiset{y} + multiset{q}, q, k - 1);
        assert held - multiset{y} + multiset{q} - multiset{q} == held - multiset{y};
      }
    }
  }

  /** The chain above `p` ends and avoids `r`. */
  ghost predicate Misses(parent: Parents, p: FidRef, r: FidRef)
  {
    exists k: nat :: Up(parent, p, k) == null && forall j: nat | j <= k :: Up(parent, p, j) != r
  }

  /** One mover taken up after the drops so far, or before them: the same. */
  lemma {:induction false} MovePutAll(s: Store, held: multiset<FidRef>, parent: Parents, order: seq<FidRef>,
                                      f: PathNode, r: FidRef, t: FidRef, newName: string)
    requires r in s.what && t in s.what && Cnt(s.count, r) > 0
    requires Tallied(MoveOne(s, f, r, t, newName), held + OldParents(parent, order)) && t in held
    requires forall o | o in order :: Par(parent, o) != null && Misses(s.parent, Par(parent, o), r)
    ensures var u := PutAll(s, parent, order); u.what == s.what && u.parent == s.parent && Cnt(u.count, r) > 0
    ensures PutAll(MoveOne(s, f, r, t, newName), parent, order) == MoveOne(PutAll(s, parent, order), f, r, t, newName)
    ensures Tallied(MoveOne(PutAll(s, parent, order), f, r, t, newName), held)
    decreases |order|
  {
    hide Tallied, MoveOne, Put, DecRef;
    if order == [] {
      assert held + multiset{} == held;
    } else {
      var front, last := order[..|order| - 1], order[|order| - 1];
      var p := Par(parent, last);
      assert held + OldParents(parent, order) == held + multiset{p} + OldParents(parent, front);
      MovePutAll(s, held + multiset{p}, parent, front, f, r, t, newName);
      var a := PutAll(s, parent, front);
      var k: nat :| Up(s.parent, p, k) == null && forall j: nat | j <= k :: Up(s.parent, p, j) != r;
      MoveDecRef(a, held + multiset{p}, f, r, t, newName, p, k);
      PutIs(a, p, k);
      MoveFacts(a, f, r, t, newName, p);
      PutIs(MoveOne(a, f, r, t, newName), p, k);
      PutTallied(MoveOne(a, f, r, t, newName), held + multiset{p}, p, k);
      DroppedRow(a, p, k, r);
      assert held + multiset{p} - multiset{p} == held;
    }
  }

  /** What the loop of renameChildTo has done after the references in `order`. */
  ghost function Underway(s: Store, f: PathNode, order: seq<FidRef>, t: FidRef, newName: string): Store
    requires t in s.what && forall r | r in order :: r in s.what
  {
    PutAll(MoveAll(s, f, order, t, newName), s.parent, order)
  }

  lemma {:induction false} MoveAllParent(s: Store, f: PathNode, order: seq<FidRef>, t: FidRef, newName: string)
    requires t in s.what && forall r | r in order :: r in s.what
    ensures var m := MoveAll(s, f, order, t, newName);
            m.parent == Repoint(s.parent, order, t) && forall x :: Cnt(m.count, x) >= Cnt(s.count, x)
    decreases |order|
  {
    hide Rename1, PathOf;
    if order != [] { MoveAllParent(s, f, order[..|order| - 1], t, newName); }
  }

  lemma {:induction false} TalliedAll(s: Store, held: multiset<FidRef>, f: PathNode, order: seq<FidRef>, t: FidRef,
                                      newName: string)
    requires Tallied(s, held) && t in held && t in s.what && Distinct(order) && forall r | r in order ::
               r in s.what && Cnt(s.count, r) > 0
    ensures Tallied(MoveAll(s, f, order, t, newName), held + OldParents(s.parent, order))
    decreases |order|
  {
    hide Tallied, MoveOne;
    if order == [] {
      assert held + multiset{} == held;
    } else {
      var front, last := order[..|order| - 1], order[|order| - 1];
      TalliedAll(s, held, f, front, t, newName);
      MoveAllParent(s, f, front, t, newName);
      RepointPar(s.parent, front, t, last);
      TalliedMove(MoveAll(s, f, front, t, newName), held + OldParents(s.parent, front), f, last, t, newName);
      assert held + OldParents(s.parent, front) + Owed(s.parent, last) == held + OldParents(s.parent, order);
    }
  }

  lemma InvTallied(s: Store, held: multiset<FidRef>)
    requires Inv(s, held)
    ensures Tallied(s, held)
  {
    hide Tree, Registered, Present, Lineage, Grounded, Counted, ClosedOnce, Sharing, Paths;
  }

  /** The parents of the movers sit above them: their chains meet neither a mover nor anything that does not lead to
      `f`. */
  lemma ChainMisses(s: Store, held: multiset<FidRef>, f: PathNode, oldName: string, order: seq<FidRef>, t: FidRef,
                    p: FidRef, y: FidRef)
    requires Inv(s, held) && f in s.kids && f !in s.deleted && p in s.what && s.what[p].node == f && Cnt(s.count, p) > 0
    requires y in s.what && !Reaches(s.kids, s.what[y].node, f) && forall o | o in order ::
               o in Movers(s.names, f, oldName)
    ensures Misses(Repoint(s.parent, order, t), p, y)
  {
    hide Inv, Reaches, Movers;
    AllEnd(s, held);
    var k := Height(s.parent, p);
    forall j: nat | j <= k, o | o in order ensures Up(s.parent, p, j) != o {
      ChainAbove(s, held, p, j);
      if Up(s.parent, p, j) == o { MoverNotAbove(s, held, f, oldName, o); }
    }
    UpMoved(s.parent, order, t, p, k);
    forall j: nat | j <= k ensures Up(Repoint(s.parent, order, t), p, j) != y {
      UpMoved(s.parent, order, t, p, j);
      ChainAbove(s, held, p, j);
    }
  }

  lemma ChainClear(s: Store, held: multiset<FidRef>, f: PathNode, oldName: string, order: seq<FidRef>, t: FidRef,
                   p: FidRef, r: FidRef)
    requires Inv(s, held) && f in s.kids && f !in s.deleted && p in s.what && s.what[p].node == f && Cnt(s.count, p) > 0
    requires r in Movers(s.names, f, oldName) && r in s.what && forall o | o in order ::
               o in Movers(s.names, f, oldName)
    ensures Misses(Repoint(s.parent, order, t), p, r)
  {
    hide Inv, Reaches, Movers, Misses;
    MoverNotAbove(s, held, f, oldName, r);
    ChainMisses(s, held, f, oldName, order, t, p, r);
  }

  lemma MoverNotAbove(s: Store, held: multiset<FidRef>, f: PathNode, oldName: string, o: FidRef)
    requires Inv(s, held) && f in s.kids && f !in s.deleted && o in Movers(s.names, f, oldName) && o in s.what
    ensures !Reaches(s.kids, s.what[o].node, f)
  {
    hide Known, Present, Lineage, Grounded, Counted, ClosedOnce, Sharing, Paths, Registered, From, SingleParent, Closed;
    FiledAt(s.kids, s.names, s.what, s.count, s.parent, f, o);
    if Reaches(s.kids, s.what[o].node, f) {
      MovesWithin(s.root, s.kids, s.deleted, f, oldName, f);
      Detach(s.root, s.kids, s.deleted, f, oldName);
    }
  }

  /** The next turn of the loop: drop the mover's parent, then move it. */
  lemma UnderwayStep(s: Store, held: multiset<FidRef>, f: PathNode, oldName: string, order: seq<FidRef>, t: FidRef,
                     newName: string, r: FidRef)
    requires Inv(s, held) && t in held && t in s.what && f in s.kids && f !in s.deleted
    requires Distinct(order + [r]) && forall o | o in order + [r] :: o in Movers(s.names, f, oldName) && o in s.what
    ensures var u := Underway(s, f, order, t, newName);
            && Par(s.parent, r) != null && u.what == s.what && u.parent == Repoint(s.parent, order, t)
            && Misses(u.parent, Par(s.parent, r), r) && Cnt(u.count, r) > 0 && Put(u, Par(s.parent, r)).what == s.what
            && Underway(s, f, order + [r], t, newName) == MoveOne(Put(u, Par(s.parent, r)), f, r, t, newName)
  {
    hide Inv, Tallied, MoveOne, Put, DecRef, Movers, Distinct;
    var all := order + [r];
    assert all[..|all| - 1] == order && all[|all| - 1] == r && r in all;
    forall o | o in all
      ensures o in s.what && Cnt(s.count, o) > 0 && Par(s.parent, o) != null
      ensures Misses(Repoint(s.parent, order, t), Par(s.parent, o), r)
    {
      MoverParent(s, held, f, oldName, o);
      ChainClear(s, held, f, oldName, order, t, Par(s.parent, o), r);
    }
    var p := Par(s.parent, r);
    var x := MoveAll(s, f, order, t, newName);
    InvTallied(s, held);
    DistinctFront(order, r);
    TalliedAll(s, held, f, order, t, newName);
    MoveAllParent(s, f, order, t, newName);
    RepointPar(s.parent, order, t, r);
    TalliedMove(x, held + OldParents(s.parent, order), f, r, t, newName);
    assert held + OldParents(s.parent, order) + Owed(s.parent, r) == held + multiset{p} + OldParents(s.parent, order);
    MovePutAll(x, held + multiset{p}, s.parent, order, f, r, t, newName);
    var u := PutAll(x, s.parent, order);
    var k: nat :| Up(u.parent, p, k) == null && forall j: nat | j <= k :: Up(u.parent, p, j) != r;
    MoveDecRef(u, held + multiset{p}, f, r, t, newName, p, k);
    PutIs(u, p, k);
    MoveFacts(u, f, r, t, newName, p);
    PutIs(MoveOne(u, f, r, t, newName), p, k);
  }

  lemma DistinctFront(order: seq<FidRef>, r: FidRef)
    requires Distinct(order + [r])
    ensures Distinct(order) && r !in order
  {
    var all := order + [r];
    assert forall i | 0 <= i < |order| :: all[i] == order[i] && all[i] != all[|order|];
  }

  lemma MoverParent(s: Store, held: multiset<FidRef>, f: PathNode, oldName: string, o: FidRef)
    requires Inv(s, held) && o in Movers(s.names, f, oldName)
    ensures var p := Par(s.parent, o);
            p != null && p in s.what && s.what[p].node == f && Cnt(s.count, p) > 0 && o in s.what && Cnt(s.count, o) > 0
  {
    hide Tree, Present, Lineage, Grounded, ClosedOnce, Sharing, Paths, Registered, Hangs;
    FiledAt(s.kids, s.names, s.what, s.count, s.parent, f, o);
    assert o in Children(s.count, s.parent, Par(s.parent, o));
  }

  // ---- the whole loop -----------------------------------------------------------------

  ghost function Listing(order: seq<FidRef>, name: string): map<FidRef, string>
  {
    map r | r in order :: name
  }

  /** The registrations at one node after the movers in `order` moved. */
  lemma {:induction false} MoveAllNames(s: Store, f: PathNode, order: seq<FidRef>, t: FidRef, newName: string,
                                        m: PathNode)
    requires t in s.what && forall r | r in order :: r in s.what
    ensures var rest := if m == f then At(s.names, m) - (set r | r in order) else At(s.names, m);
            At(MoveAll(s, f, order, t, newName).names, m) == if m == s.what[t].node then rest + Listing(order, newName)
              else rest
    ensures m in MoveAll(s, f, order, t, newName).names <==>
              m in s.names || (order != [] && (m == f || m == s.what[t].node))
    decreases |order|
  {
    hide Rename1, PathOf;
    if order == [] {
      assert At(s.names, m) - {} == At(s.names, m) && At(s.names, m) + map[] == At(s.names, m);
    } else {
      var front, last := order[..|order| - 1], order[|order| - 1];
      MoveAllNames(s, f, front, t, newName, m);
      var x := MoveAll(s, f, front, t, newName);
      AtRename1(x.names, f, last, s.what[t].node, newName, m);
      ListingGrows(At(s.names, m), front, last, newName);
      assert order == front + [last];
    }
  }

  lemma ListingGrows(a: map<FidRef, string>, front: seq<FidRef>, last: FidRef, name: string)
    ensures var d := set r | r in front; var d' := set r | r in front + [last];
            && d' == d + {last} && a - d - {last} == a - d'
            && (a - d + Listing(front, name) - {last})[last := name] == a - d' + Listing(front + [last], name)
            && (a + Listing(front, name))[last := name] == a + Listing(front + [last], name)
  {
  }

  lemma {:induction false} MoveAllRest(s: Store, f: PathNode, order: seq<FidRef>, t: FidRef, newName: string)
    requires t in s.what && t in s.count && forall r | r in order :: r in s.what
    ensures var m := MoveAll(s, f, order, t, newName);
            m == s.(names := m.names, parent := Repoint(s.parent, order, t), count :=
                s.count[t := Cnt(s.count, t) + |order|], path := m.path)
    decreases |order|
  {
    hide Rename1, PathOf;
    if order != [] {
      MoveAllRest(s, f, order[..|order| - 1], t, newName);
      var c := Cnt(s.count, t);
      assert s.count[t := c + (|order| - 1)][t := c + |order|] == s.count[t := c + |order|];
    }
  }

  lemma MoveAllRefile(s: Store, f: PathNode, oldName: string, order: seq<FidRef>, t: FidRef, newName: string)
    requires t in s.what && f in s.names && s.what[t].node in s.names
    requires Lists(order, Movers(s.names, f, oldName)) && forall r | r in order :: r in s.what
    ensures MoveAll(s, f, order, t, newName).names == Refile(s.names, f, oldName, s.what[t].node, newName, order)
  {
    hide MoveAll;
    var tn := s.what[t].node;
    var a, b := MoveAll(s, f, order, t, newName).names, Refile(s.names, f, oldName, tn, newName, order);
    assert Unnamed(At(s.names, f), oldName) == At(s.names, f) - (set r | r in order);
    assert (map r | r in order :: newName) == Listing(order, newName);
    forall m | m in a ensures m in b && At(a, m) == At(b, m) { MoveAllNames(s, f, order, t, newName, m); }
    forall m | m in b ensures m in a { MoveAllNames(s, f, order, t, newName, m); }
    SameNames(a, b);
  }

  lemma {:induction false} DecRefFrame(s: Store, r: FidRef, k: nat, kids: Kids, path: map<File, seq<string>>)
    requires Up(s.parent, r, k) == null
    ensures DecRef(s.(kids := kids, path := path), r, k) == DecRef(s, r, k).(kids := kids, path := path)
    decreases k
  {
    hide Forget;
    if Cnt(s.count, r) == 1 && r in s.what && Par(s.parent, r) != null {
      DecRefFrame(Die(s, r), Par(s.parent, r), k - 1, kids, path);
    }
  }

  lemma {:induction false} PutAllFrame(s: Store, parent: Parents, order: seq<FidRef>, kids: Kids, path: map<File,
                                       seq<string>>)
    ensures PutAll(s.(kids := kids, path := path), parent, order)
              == PutAll(s, parent, order).(kids := kids, path := path)
    decreases |order|
  {
    hide DecRef;
    if order != [] {
      PutAllFrame(s, parent, order[..|order| - 1], kids, path);
      var u := PutAll(s, parent, order[..|order| - 1]);
      var p := Par(parent, order[|order| - 1]);
      if p != null && Ends(u.parent, p) { DecRefFrame(u, p, Height(u.parent, p), kids, path); }
    }
  }

  /** When the loop is over, only the moved edge and the paths below it are left to change. */
  lemma LoopDone(s: Store, f: PathNode, oldName: string, pf: seq<string>, order: seq<FidRef>, t: FidRef,
                 newName: string)
    requires CanGraft(s, f, oldName, t) && t in s.count && f in s.names && s.what[t].node in s.names
    requires Lists(order, Movers(s.names, f, oldName)) && forall r | r in order :: r in s.what
    ensures var g := Graft(s, f, oldName, pf, t, newName, order);
            PutAll(g, s.parent, order) == Underway(s, f, order, t, newName).(kids := g.kids, path := g.path)
  {
    hide Lists, Movers, Rebase, Affected, Below, With, Without, Refile, Repoint, PutAll, MoveAll;
    var g := Graft(s, f, oldName, pf, t, newName, order);
    MoveAllRest(s, f, order, t, newName);
    MoveAllRefile(s, f, oldName, order, t, newName);
    var m := MoveAll(s, f, order, t, newName);
    assert g == m.(kids := g.kids, path := g.path);
    PutAllFrame(m, s.parent, order, g.kids, g.path);
  }

  // ---- the loop, one turn at a time ---------------------------------------------------

  ghost predicate Avoids(parent: Parents, y: FidRef, k: nat, r: FidRef)
  {
    forall j: nat | j <= k :: Up(parent, y, j) != r
  }

  lemma AvoidsUp(parent: Parents, y: FidRef, k: nat, r: FidRef)
    requires k > 0 && Avoids(parent, y, k, r) && Par(parent, y) != null
    ensures y != r && Avoids(parent, Par(parent, y), k - 1, r)
  {
    assert Up(parent, y, 0) == y;
    forall j: nat | j <= k - 1 ensures Up(parent, Par(parent, y), j) != r {
      assert Up(parent, y, j + 1) == Up(parent, Par(parent, y), j);
    }
  }

  /** The mover is already off its old list, and guarded, when its parent is dropped. */
  ghost function Unlisted(s: Store, f: PathNode, r: FidRef, c: int): Store
  {
    s.(names := s.names[f := At(s.names, f) - {r}], count := s.count[r := c])
  }

  lemma UnlistedNames(names: Names, f: PathNode, r: FidRef, n: PathNode, y: FidRef)
    ensures var a := names[f := At(names, f) - {r}]; var b := names[n := At(names, n) - {y}];
            a[n := At(a, n) - {y}] == b[f := At(b, f) - {r}]
  {
    assert At(names, n) - {y} - {r} == At(names, n) - {r} - {y};
  }

  lemma DieUnlisted(s: Store, y: FidRef, f: PathNode, r: FidRef, c: int)
    requires y in s.what && y != r
    ensures Die(Unlisted(s, f, r, c), y) == Unlisted(Die(s, y), f, r, c)
  {
    hide At, Closes;
    assert s.count[r := c][y := 0] == s.count[y := 0][r := c];
    var q := Par(s.parent, y);
    if q != null && q in s.what { UnlistedNames(s.names, f, r, s.what[q].node, y); }
  }

  lemma ReleaseUnlisted(s: Store, y: FidRef, f: PathNode, r: FidRef, c: int)
    requires y != r
    ensures var u := Unlisted(s, f, r, c);
            && u.parent == s.parent && u.what == s.what && Cnt(u.count, y) == Cnt(s.count, y)
            && u.(count := u.count[y := Cnt(u.count, y) - 1])
                 == Unlisted(s.(count := s.count[y := Cnt(s.count, y) - 1]), f, r, c)
  {
    hide At;
    var b := Cnt(s.count, y) - 1;
    assert s.count[r := c][y := b] == s.count[y := b][r := c];
  }

  lemma {:induction false} UnlistedDecRef(s: Store, y: FidRef, k: nat, f: PathNode, r: FidRef, c: int)
    requires Up(s.parent, y, k) == null && Avoids(s.parent, y, k, r) && y in s.what
    requires forall x {:trigger s.parent[x]} | x in s.parent :: s.parent[x] == null || s.parent[x] in s.what
    ensures DecRef(Unlisted(s, f, r, c), y, k) == Unlisted(DecRef(s, y, k), f, r, c)
    decreases k
  {
    hide DecRef, Die, Forget, Avoids, Unlisted;
    var u := Unlisted(s, f, r, c);
    AvoidsSelf(s.parent, y, k, r);
    ReleaseUnlisted(s, y, f, r, c);
    DecRefStep(s, y, k);
    DecRefStep(u, y, k);
    if Cnt(s.count, y) == 1 {
      DieUnlisted(s, y, f, r, c);
      if Par(s.parent, y) != null {
        AvoidsUp(s.parent, y, k, r);
        DieParent(s, y);
        DieParent(u, y);
        DieWhat(s, y);
        UnlistedDecRef(Die(s, y), Par(s.parent, y), k - 1, f, r, c);
      }
    }
  }

  lemma AvoidsSelf(parent: Parents, y: FidRef, k: nat, r: FidRef)
    requires Avoids(parent, y, k, r)
    ensures y != r
  {
    assert Up(parent, y, 0) == y;
  }

  lemma DecRefStray(s: Store, y: FidRef, k: nat)
    requires Up(s.parent, y, k) == null && y !in s.what
    ensures DecRef(s, y, k) == s.(count := s.count[y := Cnt(s.count, y) - 1])
  {
  }

  /** DecRef touches only the chain it climbs. */
  lemma {:induction false} DroppedRow(s: Store, y: FidRef, k: nat, r: FidRef)
    requires Up(s.parent, y, k) == null && Avoids(s.parent, y, k, r)
    ensures var d := DecRef(s, y, k); Cnt(d.count, r) == Cnt(s.count, r) && (r in s.count ==> r in d.count)
    decreases k
  {
    hide Avoids, DecRef, Die, Forget;
    AvoidsSelf(s.parent, y, k, r);
    if y in s.what {
      DecRefStep(s, y, k);
      DieParent(s, y);
      DieWhat(s, y);
    } else {
      DecRefStray(s, y, k);
    }
    if Cnt(s.count, y) == 1 && y in s.what && Par(s.parent, y) != null {
      AvoidsUp(s.parent, y, k, r);
      DroppedRow(Die(s, y), Par(s.parent, y), k - 1, r);
    }
  }

  /** A reference off the chain stays registered where it was. */
  lemma {:induction false} StaysFiled(s: Store, y: FidRef, k: nat, x: FidRef, m: PathNode)
    requires Up(s.parent, y, k) == null && Avoids(s.parent, y, k, x)
    ensures var names := DecRef(s, y, k).names;
            (x in At(names, m) <==> x in At(s.names, m))
              && (x in At(s.names, m) ==> At(names, m)[x] == At(s.names, m)[x])
    decreases k
  {
    hide Avoids, DecRef, Die, Forget;
    AvoidsSelf(s.parent, y, k, x);
    if y in s.what {
      DecRefStep(s, y, k);
      DieAt(s, y, m);
      DieParent(s, y);
    } else {
      DecRefStray(s, y, k);
    }
    if Cnt(s.count, y) == 1 && y in s.what && Par(s.parent, y) != null {
      AvoidsUp(s.parent, y, k, x);
      StaysFiled(Die(s, y), Par(s.parent, y), k - 1, x, m);
    }
  }

  /** What is still to be moved. */
  lemma {:induction false} UnderwayMovers(s: Store, held: multiset<FidRef>, f: PathNode, oldName: string,
                                          order: seq<FidRef>, t: FidRef, newName: string, x: FidRef)
    requires Inv(s, held) && t in held && t in s.what && f in s.kids && f !in s.deleted
    requires !(f == s.what[t].node && oldName == newName)
    requires Distinct(order) && (forall o | o in order :: o in Movers(s.names, f, oldName) && o in s.what)
    requires forall y | y in Movers(s.names, f, oldName) :: y in s.what
    ensures x in Movers(Underway(s, f, order, t, newName).names, f, oldName) ==>
              x in Movers(s.names, f, oldName) && x !in order
    ensures x in Movers(s.names, f, oldName) && x !in order ==>
              x in Movers(Underway(s, f, order, t, newName).names, f, oldName)
    decreases |order|
  {
    hide Inv, Distinct, Underway, Misses, Avoids, DecRef, Put;
    if order == [] {
      UnderwayNone(s, f, t, newName);
    } else {
      var front, r := order[..|order| - 1], order[|order| - 1];
      assert order == front + [r] && r in order;
      DistinctFront(front, r);
      UnderwayMovers(s, held, f, oldName, front, t, newName, x);
      UnderwayStep(s, held, f, oldName, front, t, newName, r);
      var u, p := Underway(s, f, front, t, newName), Par(s.parent, r);
      MoverParent(s, held, f, oldName, r);
      var v := Put(u, p);
      if x in Movers(s.names, f, oldName) {
        ChainClear(s, held, f, oldName, front, t, p, x);
        PutMovers(u, p, f, oldName, x);
      } else {
        PutFewer(u, p, f, oldName, x);
      }
      MoveMovers(v, f, oldName, r, t, newName, x);
    }
  }

  lemma UnderwayNone(s: Store, f: PathNode, t: FidRef, newName: string)
    requires t in s.what
    ensures Underway(s, f, [], t, newName) == s
  {
  }

  lemma PutMovers(u: Store, p: FidRef, f: PathNode, oldName: string, x: FidRef)
    requires Misses(u.parent, p, x)
    ensures x in Movers(Put(u, p).names, f, oldName) <==> x in Movers(u.names, f, oldName)
  {
    hide DecRef, Put;
    var k: nat :| Up(u.parent, p, k) == null && forall j: nat | j <= k :: Up(u.parent, p, j) != x;
    PutIs(u, p, k);
    StaysFiled(u, p, k, x, f);
  }

  lemma DieAt(s: Store, y: FidRef, m: PathNode)
    requires y in s.what
    ensures At(Die(s, y).names, m) == At(s.names, m) || At(Die(s, y).names, m) == At(s.names, m) - {y}
  {
  }

  lemma {:induction false} FiledFewer(s: Store, y: FidRef, k: nat, x: FidRef, m: PathNode)
    requires Up(s.parent, y, k) == null && x in At(DecRef(s, y, k).names, m)
    ensures x in At(s.names, m) && At(s.names, m)[x] == At(DecRef(s, y, k).names, m)[x]
    decreases k
  {
    hide DecRef, Die, Forget;
    if y in s.what {
      DecRefStep(s, y, k);
      DieAt(s, y, m);
      DieParent(s, y);
    } else {
      DecRefStray(s, y, k);
    }
    if Cnt(s.count, y) == 1 && y in s.what && Par(s.parent, y) != null {
      FiledFewer(Die(s, y), Par(s.parent, y), k - 1, x, m);
    }
  }

  lemma PutFewer(u: Store, p: FidRef, f: PathNode, oldName: string, x: FidRef)
    ensures x in Movers(Put(u, p).names, f, oldName) ==> x in Movers(u.names, f, oldName)
  {
    hide DecRef;
    if Ends(u.parent, p) && x in Movers(Put(u, p).names, f, oldName) { FiledFewer(u, p, Height(u.parent, p), x, f); }
  }

  lemma MoveMovers(v: Store, f: PathNode, oldName: string, r: FidRef, t: FidRef, newName: string, x: FidRef)
    requires r in v.what && t in v.what && !(f == v.what[t].node && oldName == newName)
    ensures x in Movers(MoveOne(v, f, r, t, newName).names, f, oldName) <==> x in Movers(v.names, f, oldName) && x != r
  {
    hide Rename1;
    AtRename1(v.names, f, r, v.what[t].node, newName, f);
  }
}
