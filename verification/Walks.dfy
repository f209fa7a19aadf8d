/** Walks: a failed one leaves no trace, and walking in two stages is walking in one. */
module Walks {
  import opened Objects
  import opened Forest
  import opened Bookkeeping
  import opened Reshape
  import opened Handlers
  import opened Safety

  /** `b` is `a` but for path nodes nobody references and references that died with their file closed once. */
  ghost predicate Unnoticed(a: Store, b: Store)
  {
    && b.root == a.root && b.fids == a.fids && b.deleted == a.deleted && b.isOpen == a.isOpen
    && SameRefs(a, b)
    && DeadExtras(a, b)
    && SameNodes(a.kids, a.names, b.kids, b.names)
  }

  ghost predicate SameRefs(a: Store, b: Store)
  {
    forall r | r in a.what ::
      && r in b.what && b.what[r] == a.what[r] && Cnt(b.count, r) == Cnt(a.count, r)
      && Par(b.parent, r) == Par(a.parent, r)
      && PathOf(b.path, a.what[r].file) == PathOf(a.path, a.what[r].file)
      && Closes(b.closes, a.what[r].file) == Closes(a.closes, a.what[r].file)
  }

  ghost predicate DeadExtras(a: Store, b: Store)
  {
    forall r | r in b.what && r !in a.what ::
      && Cnt(b.count, r) == 0 && Closes(b.closes, b.what[r].file) == 1
      && (forall y | y in a.what :: a.what[y].file != b.what[r].file)
  }

  ghost predicate SameNodes(kids: Kids, names: Names, kids': Kids, names': Names)
  {
    forall n | n in kids ::
      && n in kids' && At(names', n) == At(names, n)
      && (forall x | x in kids[n] :: x in kids'[n] && kids'[n][x] == kids[n][x])
  }

  lemma UnnoticedTrans(a: Store, b: Store, c: Store)
    requires Unnoticed(a, b) && Unnoticed(b, c)
    ensures Unnoticed(a, c)
  {
    hide DeadExtras;
    ExtrasTrans(a, b, c);
  }

  lemma ExtrasTrans(a: Store, b: Store, c: Store)
    requires SameRefs(a, b) && SameRefs(b, c) && DeadExtras(a, b) && DeadExtras(b, c)
    ensures DeadExtras(a, c)
  {
  }

  lemma {:induction false} UpSame(a: Store, b: Store, held: multiset<FidRef>, r: FidRef?, k: nat)
    requires Inv(a, held) && SameRefs(a, b) && (r == null || r in a.what)
    ensures Up(b.parent, r, k) == Up(a.parent, r, k)
    decreases k
  {
    hide Inv;
    if k > 0 && r != null {
      ParIn(a, held, r);
      UpSame(a, b, held, Par(a.parent, r), k - 1);
    }
  }

  lemma ParIn(s: Store, held: multiset<FidRef>, r: FidRef)
    requires Inv(s, held) && r in s.what
    ensures Par(s.parent, r) == null || (Par(s.parent, r) in s.what && s.what[Par(s.parent, r)].node in s.kids)
  {
    hide Tree, Registered, Present, Lineage, Grounded, Counted, ClosedOnce, Sharing, Paths;
  }

  lemma {:induction false} DecRefAnyHeight(s: Store, r: FidRef, k: nat, j: nat)
    requires Up(s.parent, r, k) == null && Up(s.parent, r, j) == null
    ensures DecRef(s, r, k) == DecRef(s, r, j)
    decreases k
  {
    if Cnt(s.count, r) == 1 && r in s.what && Par(s.parent, r) != null {
      DecRefAnyHeight(Die(s, r), Par(s.parent, r), k - 1, j - 1);
    }
  }

  lemma PutIs(s: Store, r: FidRef, k: nat)
    requires Up(s.parent, r, k) == null
    ensures Put(s, r) == DecRef(s, r, k)
  {
    hide DecRef;
    assert Ends(s.parent, r);
    DecRefAnyHeight(s, r, k, Height(s.parent, r));
  }

  lemma DieRefs(a: Store, b: Store, r: FidRef)
    requires SameRefs(a, b) && DeadExtras(a, b) && r in a.what
    ensures r in b.what && SameRefs(Die(a, r), Die(b, r)) && DeadExtras(Die(a, r), Die(b, r))
  {
    hide Forget;
  }

  lemma DieNodes(a: Store, b: Store, r: FidRef)
    requires SameRefs(a, b) && SameNodes(a.kids, a.names, b.kids, b.names) && r in a.what
    requires Par(a.parent, r) == null || (Par(a.parent, r) in a.what && a.what[Par(a.parent, r)].node in a.kids)
    ensures SameNodes(a.kids, Forget(a.names, a.what, a.parent, r), b.kids, Forget(b.names, b.what, b.parent, r))
  {
  }

  lemma UnnoticedDie(a: Store, b: Store, held: multiset<FidRef>, r: FidRef)
    requires Inv(a, held) && Unnoticed(a, b) && r in a.what
    ensures r in b.what && Unnoticed(Die(a, r), Die(b, r))
  {
    hide Inv, SameRefs, DeadExtras, SameNodes, Forget;
    ParIn(a, held, r);
    DieRefs(a, b, r);
    DieNodes(a, b, r);
  }

  lemma UnnoticedRelease(a: Store, b: Store, r: FidRef)
    requires Unnoticed(a, b) && r in a.what
    ensures r in b.what && Cnt(b.count, r) == Cnt(a.count, r) && Par(b.parent, r) == Par(a.parent, r)
    ensures Unnoticed(a.(count := a.count[r := Cnt(a.count, r) - 1]), b.(count := b.count[r := Cnt(b.count, r) - 1]))
  {
  }

  lemma {:induction false} UnnoticedDecRef(a: Store, b: Store, held: multiset<FidRef>, r: FidRef, k: nat)
    requires Inv(a, held) && Unnoticed(a, b) && r in held && Up(a.parent, r, k) == null && Up(b.parent, r, k) == null
    ensures Unnoticed(DecRef(a, r, k), DecRef(b, r, k))
    decreases k
  {
    hide Inv, Die, Unnoticed;
    SoundHeld(a, held, r);
    UnnoticedRelease(a, b, r);
    if Cnt(a.count, r) == 1 {
      UnnoticedDie(a, b, held, r);
      DieKeeps(a, held, r);
      var p := Par(a.parent, r);
      if p != null {
        DieParent(a, r);
        DieParent(b, r);
        UnnoticedDecRef(Die(a, r), Die(b, r), held - multiset{r} + Owed(a.parent, r), p, k - 1);
      }
    }
  }

  lemma DieParent(s: Store, r: FidRef)
    requires r in s.what
    ensures Die(s, r).parent == s.parent
  {
  }

  lemma UnnoticedPut(a: Store, b: Store, held: multiset<FidRef>, r: FidRef)
    requires Inv(a, held) && Unnoticed(a, b) && r in held
    ensures Unnoticed(Put(a, r), Put(b, r))
  {
    hide Inv, DecRef, Put;
    HeldIn(a, held, r);
    var k := Height(a.parent, r);
    UpSame(a, b, held, r, k);
    PutIs(a, r, k);
    PutIs(b, r, k);
    UnnoticedDecRef(a, b, held, r, k);
  }

  /** Taking a reference and dropping it again changes nothing. */
  lemma IncPut(s: Store, held: multiset<FidRef>, r: FidRef)
    requires Inv(s, held) && r in s.what && Cnt(s.count, r) > 0
    ensures Put(IncRef(s, r), r) == s
  {
    hide Inv;
    AllEnd(s, held);
    assert s.count[r := Cnt(s.count, r) + 1][r := Cnt(s.count, r)] == s.count;
  }

  /** Entering a child and dropping it again leaves only a dead reference and perhaps a new node. */
  lemma EnterDie(s: Store, held: multiset<FidRef>, w: FidRef, name: string, step: WalkStep)
    requires Inv(s, held) && Sound(s, w) && FreshStep(s, step) && step.ref !in At(s.names, s.what[w].node)
    ensures step.ref in Enter(s, w, name, step).what && Unnoticed(s, Die(Enter(s, w, name, step), step.ref))
  {
    hide Inv;
    FreshNode(s, held, step.node);
    EnterDieNodes(s, w, name, step);
    hide SameNodes;
    EnterDieRefs(s, w, name, step);
    hide SameRefs, DeadExtras, Forget;
  }

  lemma EnterDieNodes(s: Store, w: FidRef, name: string, step: WalkStep)
    requires Sound(s, w) && step.node !in s.kids && step.node !in s.names && step.ref !in s.what
    requires step.ref !in At(s.names, s.what[w].node)
    ensures var b := Enter(s, w, name, step);
            SameNodes(s.kids, s.names, b.kids, Forget(b.names, b.what, b.parent, step.ref))
  {
    var n := s.what[w].node;
    var s1 := Grow(s, n, name, step.node);
    var b := Enter(s, w, name, step);
    GrowNodes(s, n, name, step.node);
    assert Par(b.parent, step.ref) == w && b.what[w].node == n;
    forall m | m in s.kids ensures At(Forget(b.names, b.what, b.parent, step.ref), m) == At(s1.names, m) {
      Unenrol(s1.names, n, step.ref, name, m);
    }
    hide Forget, Grow, Enrol;
  }

  lemma GrownKid(kids: Kids, n: PathNode, name: string, c: PathNode, m: PathNode)
    requires n in kids && c !in kids && name !in kids[n] && m in kids
    ensures var k := With(kids[c := map[]], n, name, c);
            m in k && forall x | x in kids[m] :: x in k[m] && k[m][x] == kids[m][x]
  {
  }

  lemma GrownName(names: Names, c: PathNode, m: PathNode)
    requires c !in names
    ensures At(names[c := map[]], m) == At(names, m)
  {
  }

  lemma GrowNodes(s: Store, n: PathNode, name: string, c: PathNode)
    requires n in s.kids && c !in s.kids && c !in s.names
    ensures var s' := Grow(s, n, name, c);
            SameNodes(s.kids, s.names, s'.kids, s'.names) && At(s'.names, n) == At(s.names, n)
  {
    hide At, With;
    if name !in s.kids[n] {
      forall m | m in s.kids
        ensures m in With(s.kids[c := map[]], n, name, c) && At(s.names[c := map[]], m) == At(s.names, m)
        ensures forall x | x in s.kids[m] ::
                  x in With(s.kids[c := map[]], n, name, c)[m]
                  && With(s.kids[c := map[]], n, name, c)[m][x] == s.kids[m][x]
      {
        GrownKid(s.kids, n, name, c, m);
        GrownName(s.names, c, m);
      }
    }
  }

  lemma Unenrol(names: Names, n: PathNode, x: FidRef, name: string, m: PathNode)
    requires x !in At(names, n)
    ensures At(Enrol(names, n, x, name)[n := At(Enrol(names, n, x, name), n) - {x}], m) == At(names, m)
  {
    assert At(Enrol(names, n, x, name), n) - {x} == At(names, n);
  }

  lemma EnterDieRefs(s: Store, w: FidRef, name: string, step: WalkStep)
    requires Sound(s, w) && FreshStep(s, step)
    ensures var b := Enter(s, w, name, step);
            && step.ref in b.what
            && SameRefs(s, Die(b, step.ref)) && DeadExtras(s, Die(b, step.ref))
            && (var d := Die(b, step.ref);
                d.root == s.root && d.fids == s.fids && d.deleted == s.deleted && d.isOpen == s.isOpen)
  {
    hide Forget;
    GrowHangs(s, s.what[w].node, name, step.node);
    hide Grow;
  }

  lemma FreshNode(s: Store, held: multiset<FidRef>, c: PathNode)
    requires Inv(s, held) && c !in s.kids
    ensures c !in s.names
  {
    hide Tree, Registered, Present, Lineage, Grounded, Counted, ClosedOnce, Sharing, Paths;
  }

  lemma EnterPut(s: Store, held: multiset<FidRef>, w: FidRef, name: string, step: WalkStep)
    requires Inv(s, held) && w in held && Sound(s, w) && s.what[w].dir && s.what[w].node !in s.deleted
    requires FreshStep(s, step)
    ensures Unnoticed(Put(s, w), Put(Enter(s, w, name, step), step.ref))
  {
    hide Inv, Enter, Unnoticed, Put, FreshStep, FreshFile, Die;
    FreshRef(s, step);
    var b := Enter(s, w, name, step);
    var x := step.ref;
    EnteredRef(s, w, name, step);
    NotFiledFresh(s, held, x, s.what[w].node);
    EnterDie(s, held, w, name, step);
    EnterKeeps(s, held, w, name, step);
    UnnoticedPut(s, Die(b, x), held, w);
    HeldIn(b, held + multiset{x} - multiset{w}, x);
    var k := Height(b.parent, x);
    PutIs(b, x, k);
    DieParent(b, x);
    PutIs(Die(b, x), w, k - 1);
  }

  lemma FreshRef(s: Store, step: WalkStep)
    requires FreshStep(s, step)
    ensures step.ref !in s.what && step.node !in s.kids && FreshFile(s, step.file)
  {
    hide FreshFile;
  }

  lemma EnteredRef(s: Store, w: FidRef, name: string, step: WalkStep)
    requires Sound(s, w)
    ensures var b := Enter(s, w, name, step);
            Cnt(b.count, step.ref) == 1 && Par(b.parent, step.ref) == w && step.ref in b.what
  {
  }

  lemma UnnoticedRefl(s: Store)
    ensures Unnoticed(s, s)
  {
  }

  lemma {:induction false} WalkLoopFails(s: Store, held: multiset<FidRef>, w: FidRef, names: seq<string>,
                                         steps: seq<WalkStep>, qids: seq<nat>)
    requires |steps| == |names| && Inv(s, held) && w in held && FreshSteps(s, steps)
    requires WalkLoop(s, w, names, steps, qids).1.Stopped?
    ensures Unnoticed(Put(s, w), WalkLoop(s, w, names, steps, qids).0)
    decreases |names|
  {
    hide Inv, Put, Enter, Unnoticed, FreshSteps;
    SoundHeld(s, held, w);
    UnnoticedRefl(Put(s, w));
    if s.what[w].dir && s.what[w].node !in s.deleted && steps[0].answer.Granted? {
      assert steps == [steps[0]] + steps[1..];
      HeadFresh(s, steps);
      NotFiledFresh(s, held, steps[0].ref, s.what[w].node);
      EnterKeeps(s, held, w, names[0], steps[0]);
      EnterFresh(s, w, names[0], steps[0], steps[1..]);
      EnterPut(s, held, w, names[0], steps[0]);
      var s1 := Enter(s, w, names[0], steps[0]);
      WalkLoopFails(s1, held + multiset{steps[0].ref} - multiset{w}, steps[0].ref, names[1..], steps[1..],
          qids + [steps[0].answer.qid]);
      UnnoticedTrans(Put(s, w), Put(s1, steps[0].ref), WalkLoop(s, w, names, steps, qids).0);
    }
  }

  /** A Twalk that fails, at whatever element, is invisible: counts, registrations, fids and files are as before. */
  lemma FailedWalkInvisible(s: Store, key: Key, newKey: Key, names: seq<string>, steps: seq<WalkStep>, clone: WalkStep)
    requires |steps| == |names| && Inv(s, multiset{}) && FreshSteps(s, steps)
    requires Walk(s, key, newKey, names, steps, clone).1.Fail?
    ensures Unnoticed(s, Walk(s, key, newKey, names, steps, clone).0)
  {
    hide Inv, Put, WalkLoop, Unnoticed, FreshSteps;
    UnnoticedRefl(s);
    if key in s.fids {
      var r := s.fids[key];
      Lookup(s, key);
      var s0 := IncRef(s, r);
      IncPut(s, multiset{}, r);
      var (s1, o) := DoWalk(s0, r, names, steps, clone);
      if names != [] && s1 == WalkLoop(IncRef(s0, r), r, names, steps, []).0
        && o == WalkLoop(IncRef(s0, r), r, names, steps, []).1 && o.Stopped? {
        SoundHeld(s0, multiset{r}, r);
        IncRefKeeps(s0, multiset{r}, r);
        IncPut(s0, multiset{r}, r);
        SameFresh(s, IncRef(s0, r), steps, clone);
        WalkLoopFails(IncRef(s0, r), multiset{r} + multiset{r}, r, names, steps, []);
        UnnoticedPut(s0, s1, multiset{r}, r);
      }
    }
  }

  // ---- composition ------------------------------------------------------------------

  lemma {:induction false} WalkLoopSplits(s: Store, w: FidRef, a: seq<string>, b: seq<string>, sa: seq<WalkStep>,
                                          sb: seq<WalkStep>, qids: seq<nat>)
    requires |sa| == |a| && |sb| == |b|
    ensures var (s1, o1) := WalkLoop(s, w, a, sa, qids);
            WalkLoop(s, w, a + b, sa + sb, qids) ==
              match o1 case Reached(x, qs) => WalkLoop(s1, x, b, sb, qs) case _ => (s1, o1)
    decreases |a|
  {
    hide Put, Enter;
    if a == [] {
      assert a + b == b && sa + sb == sb;
    } else {
      assert (a + b)[1..] == a[1..] + b && (sa + sb)[1..] == sa[1..] + sb;
      assert (sa + sb)[0] == sa[0] && (a + b)[0] == a[0];
      if Sound(s, w) && sa[0].answer.Granted? {
        WalkLoopSplits(Enter(s, w, a[0], sa[0]), sa[0].ref, a[1..], b, sa[1..], sb, qids + [sa[0].answer.qid]);
      }
    }
  }

  lemma GrowInc(s: Store, n: PathNode, name: string, c: PathNode, x: FidRef)
    requires n in s.kids
    ensures Grow(IncRef(s, x), n, name, c) == IncRef(Grow(s, n, name, c), x)
  {
  }

  lemma EnterInc(s: Store, w: FidRef, name: string, step: WalkStep, x: FidRef)
    requires Sound(s, w) && x != step.ref
    ensures Enter(IncRef(s, x), w, name, step) == IncRef(Enter(s, w, name, step), x)
  {
    var c := Cnt(s.count, x) + 1;
    var n := s.what[w].node;
    GrowHangs(s, n, name, step.node);
    GrowInc(s, n, name, step.node, x);
    hide Grow;
    hide At;
    hide PathOf;
    assert s.count[x := c][step.ref := 1] == s.count[step.ref := 1][x := c];
  }

  /** A walk is indifferent to who else holds a reference. */
  lemma {:induction false} WalkLoopInc(s: Store, w: FidRef, names: seq<string>, steps: seq<WalkStep>, qids: seq<nat>,
                                       x: FidRef)
    requires |steps| == |names| && (forall i | 0 <= i < |steps| :: steps[i].ref != x)
    ensures var (s1, o) := WalkLoop(s, w, names, steps, qids);
            var (s2, o2) := WalkLoop(IncRef(s, x), w, names, steps, qids);
            o2 == o && (o.Reached? ==> s2 == IncRef(s1, x))
    decreases |names|
  {
    hide Put, Enter;
    if names != [] && Sound(s, w) && steps[0].answer.Granted? {
      EnterInc(s, w, names[0], steps[0], x);
      WalkLoopInc(Enter(s, w, names[0], steps[0]), steps[0].ref, names[1..], steps[1..], qids + [steps[0].answer.qid],
          x);
    }
  }

  /** A successful walk changes no existing count and ends at the last new reference. */
  lemma {:induction false} WalkLoopGrows(s: Store, w: FidRef, names: seq<string>, steps: seq<WalkStep>,
                                         rest: seq<WalkStep>, qids: seq<nat>)
    requires |steps| == |names| && FreshSteps(s, steps + rest) && WalkLoop(s, w, names, steps, qids).1.Reached?
    ensures var (s', o) := WalkLoop(s, w, names, steps, qids);
            && (forall r | r in s.what :: r in s'.what && Cnt(s'.count, r) == Cnt(s.count, r))
            && FreshSteps(s', rest)
            && (names != [] ==> o.ref == steps[|steps| - 1].ref)
    decreases |names|
  {
    hide Put, Enter, FreshSteps;
    if names == [] {
      assert steps + rest == rest;
    } else {
      assert steps + rest == [steps[0]] + (steps[1..] + rest);
      HeadFresh(s, steps + rest);
      EnterFresh(s, w, names[0], steps[0], steps[1..] + rest);
      var s1 := Enter(s, w, names[0], steps[0]);
      WalkLoopGrows(s1, steps[0].ref, names[1..], steps[1..], rest, qids + [steps[0].answer.qid]);
      EnterCounts(s, w, names[0], steps[0]);
    }
  }

  lemma EnterCounts(s: Store, w: FidRef, name: string, step: WalkStep)
    requires Sound(s, w) && step.ref !in s.what
    ensures var s1 := Enter(s, w, name, step);
            forall r | r in s.what :: r in s1.what && Cnt(s1.count, r) == Cnt(s.count, r)
  {
  }

  lemma {:induction false} WalkLoopQids(s: Store, w: FidRef, names: seq<string>, steps: seq<WalkStep>, qids: seq<nat>)
    requires |steps| == |names|
    ensures var (s1, o) := WalkLoop(s, w, names, steps, []);
            WalkLoop(s, w, names, steps, qids) == (s1, match o case Reached(x, qs) => Reached(x, qids + qs) case _ => o)
    decreases |names|
  {
    hide Put, Enter;
    if names == [] {
      assert qids + [] == qids;
    } else if Sound(s, w) && steps[0].answer.Granted? {
      var q := steps[0].answer.qid;
      var s1 := Enter(s, w, names[0], steps[0]);
      WalkLoopQids(s1, steps[0].ref, names[1..], steps[1..], qids + [q]);
      WalkLoopQids(s1, steps[0].ref, names[1..], steps[1..], [] + [q]);
      var (_, o) := WalkLoop(s1, steps[0].ref, names[1..], steps[1..], []);
      if o.Reached? { assert qids + [q] + o.qids == qids + ([] + [q] + o.qids); }
    }
  }

  /** Walking a then b from where a led, and dropping the stop in between, is walking a + b: same state, node and
      QIDs. */
  lemma WalkComposes(s: Store, held: multiset<FidRef>, r: FidRef, a: seq<string>, b: seq<string>,
                     sa: seq<WalkStep>, sb: seq<WalkStep>, clone: WalkStep)
    requires |sa| == |a| > 0 && |sb| == |b| > 0 && Inv(s, held) && r in held && FreshSteps(s, sa + sb)
    ensures var (s1, o1) := DoWalk(s, r, a, sa, clone);
            var whole := DoWalk(s, r, a + b, sa + sb, clone);
            if !o1.Reached?
              then whole.1 == o1 || ((exists i :: 0 <= i < |b| && !SafeName(b[i])) && whole.1 == Stopped(EINVAL))
            else
              var (s2, o2) := DoWalk(s1, o1.ref, b, sb, clone);
              if o2.Reached? then whole == (Put(s2, o1.ref), Reached(o2.ref, o1.qids + o2.qids)) else whole.1 == o2
  {
    hide Inv, Put, WalkLoop, FreshSteps, CloneOf;
    var (s1, o1) := DoWalk(s, r, a, sa, clone);
    WalkLoopSplits(IncRef(s, r), r, a, b, sa, sb, []);
    if i :| 0 <= i < |a| && !SafeName(a[i]) {
      assert (a + b)[i] == a[i];
    } else {
      SafeConcat(a, b);
    }
    if o1.Reached? {
      FreshPrefix(s, sa, sb);
      DoWalkKeeps(s, held, r, a, sa, clone);
      var x := o1.ref;
      SameFresh(s, IncRef(s, r), sa + sb, clone);
      WalkLoopGrows(IncRef(s, r), r, a, sa, sb, []);
      NotAgain(s, sa, sb, x);
      SecondLeg(s1, held + multiset{x}, x, b, sb, o1.qids);
    }
  }

  /** Walking on from a held reference, with or without a hold of one's own. */
  lemma SecondLeg(s: Store, held: multiset<FidRef>, x: FidRef, b: seq<string>, sb: seq<WalkStep>, qids: seq<nat>)
    requires |sb| == |b| && Inv(s, held) && x in held && FreshSteps(s, sb) && forall i | 0 <= i < |sb| :: sb[i].ref != x
    ensures var (s2, o2) := WalkLoop(IncRef(s, x), x, b, sb, []);
            var (t, o) := WalkLoop(s, x, b, sb, qids);
            if o2.Reached? then t == Put(s2, x) && o == Reached(o2.ref, qids + o2.qids) else o == o2
  {
    hide Inv, Put, WalkLoop, FreshSteps;
    WalkLoopQids(s, x, b, sb, qids);
    SoundHeld(s, held, x);
    var (t, o) := WalkLoop(s, x, b, sb, []);
    WalkLoopInc(s, x, b, sb, [], x);
    if o.Reached? {
      WalkLoopKeeps(s, held, x, b, sb, []);
      assert sb + [] == sb;
      WalkLoopGrows(s, x, b, sb, [], []);
      IncPut(t, held - multiset{x} + multiset{o.ref}, x);
    }
  }

  lemma SafeConcat(a: seq<string>, b: seq<string>)
    requires forall i | 0 <= i < |a| :: SafeName(a[i])
    ensures (exists i :: 0 <= i < |a + b| && !SafeName((a + b)[i])) <==> (exists i :: 0 <= i < |b| && !SafeName(b[i]))
  {
    if i :| 0 <= i < |b| && !SafeName(b[i]) { assert (a + b)[|a| + i] == b[i]; }
  }

  lemma FreshPrefix(s: Store, sa: seq<WalkStep>, sb: seq<WalkStep>)
    requires FreshSteps(s, sa + sb)
    ensures FreshSteps(s, sa)
  {
    assert forall i | 0 <= i < |sa| :: (sa + sb)[i] == sa[i];
  }

  lemma NotAgain(s: Store, sa: seq<WalkStep>, sb: seq<WalkStep>, x: FidRef)
    requires FreshSteps(s, sa + sb) && sa != [] && x == sa[|sa| - 1].ref
    ensures forall i | 0 <= i < |sb| :: sb[i].ref != x
  {
    forall i | 0 <= i < |sb| ensures sb[i].ref != x {
      assert (sa + sb)[|sa| + i] == sb[i] && (sa + sb)[|sa| - 1] == sa[|sa| - 1];
    }
  }

  // ---- where a walk leads --------------------------------------------------------------

  function QidsOf(steps: seq<WalkStep>): seq<nat>
  {
    seq(|steps|, i requires 0 <= i < |steps| => if steps[i].answer.Granted? then steps[i].answer.qid else 0)
  }

  /** Edges are only added. */
  ghost predicate KeepsEdges(kids: Kids, kids': Kids)
  {
    forall n, x | n in kids && x in kids[n] :: n in kids' && x in kids'[n] && kids'[n][x] == kids[n][x]
  }

  lemma {:induction false} PathKept(kids: Kids, kids': Kids, n: PathNode, p: seq<string>)
    requires KeepsEdges(kids, kids') && From(kids, n, p) != null
    ensures From(kids', n, p) == From(kids, n, p)
    decreases |p|
  {
    if p != [] { PathKept(kids, kids', n, p[..|p| - 1]); }
  }

  lemma EnterEdges(s: Store, w: FidRef, name: string, step: WalkStep)
    requires Sound(s, w) && step.node !in s.kids
    ensures var s1 := Enter(s, w, name, step);
            && KeepsEdges(s.kids, s1.kids) && step.ref in s1.what
            && From(s1.kids, s.what[w].node, [name]) == s1.what[step.ref].node
            && s1.what[step.ref].file == step.file
            && PathOf(s1.path, step.file) == PathOf(s.path, s.what[w].file) + [name]
  {
    hide With;
    var n := s.what[w].node;
    if name !in s.kids[n] {
      forall m, x | m in s.kids && x in s.kids[m]
        ensures var k := With(s.kids[step.node := map[]], n, name, step.node);
                m in k && x in k[m] && k[m][x] == s.kids[m][x]
      {
        GrownKid(s.kids, n, name, step.node, m);
      }
    }
    GrowHangs(s, n, name, step.node);
    hide Grow;
    var k := Enter(s, w, name, step).kids;
    assert From(k, n, [name]) == Step(k, From(k, n, []), name) by { assert [name][..0] == []; }
  }

  /** The loop of doWalk follows its names: the node and the file's path below the start, and one QID per name. */
  lemma {:induction false} WalkLoopReaches(s: Store, w: FidRef, names: seq<string>, steps: seq<WalkStep>,
                                           qids: seq<nat>)
    requires |steps| == |names| && FreshSteps(s, steps) && WalkLoop(s, w, names, steps, qids).1.Reached? && w in s.what
    ensures var (s', o) := WalkLoop(s, w, names, steps, qids);
            && KeepsEdges(s.kids, s'.kids) && o.qids == qids + QidsOf(steps) && o.ref in s'.what
            && From(s'.kids, s.what[w].node, names) == s'.what[o.ref].node
            && PathOf(s'.path, s'.what[o.ref].file) == PathOf(s.path, s.what[w].file) + names
            && s'.fids == s.fids
    decreases |names|
  {
    hide Put, Enter, FreshSteps, From, At, PathOf;
    if names == [] {
      assert QidsOf(steps) == [] && PathOf(s.path, s.what[w].file) + names == PathOf(s.path, s.what[w].file);
      NoSteps(s.kids, s.what[w].node);
      assert qids + [] == qids;
    } else {
      var n, x, q := s.what[w].node, steps[0].ref, steps[0].answer.qid;
      assert steps == [steps[0]] + steps[1..] && names == [names[0]] + names[1..];
      HeadFresh(s, steps);
      EnterFresh(s, w, names[0], steps[0], steps[1..]);
      EnterEdges(s, w, names[0], steps[0]) by { FreshRef(s, steps[0]); }
      EnterFids(s, w, names[0], steps[0]);
      var s1 := Enter(s, w, names[0], steps[0]);
      WalkLoopReaches(s1, x, names[1..], steps[1..], qids + [q]);
      var s' := WalkLoop(s, w, names, steps, qids).0;
      PathKept(s1.kids, s'.kids, n, [names[0]]);
      FromConcat(s'.kids, n, [names[0]], names[1..]);
      QidsMore(steps, qids);
      var p := PathOf(s.path, s.what[w].file);
      assert p + [names[0]] + names[1..] == p + names;
    }
  }

  lemma NoSteps(kids: Kids, n: PathNode)
    ensures From(kids, n, []) == n
  {
  }

  lemma QidsMore(steps: seq<WalkStep>, qids: seq<nat>)
    requires steps != [] && steps[0].answer.Granted?
    ensures qids + [steps[0].answer.qid] + QidsOf(steps[1..]) == qids + QidsOf(steps)
  {
  }

  lemma SettledFids(s: Store, r: FidRef, key: Key, x: FidRef)
    ensures var s' := Put(Put(Insert(s, key, x), x), r);
            s'.fids == s.fids[key := x] && s'.kids == s.kids && s'.what == s.what && s'.path == s.path
  {
    PutSame(Put(Insert(s, key, x), x), r);
    PutSame(Insert(s, key, x), x);
    var s1 := Install(IncRef(s, x), key, x);
    if key in s.fids { PutSame(s1, s.fids[key]); }
    hide Put;
  }

  lemma PutSame(s: Store, r: FidRef)
    ensures var s' := Put(s, r); s' == s.(count := s'.count, closes := s'.closes, names := s'.names)
  {
  }

  /**
   * A Twalk that succeeds binds the new fid, and no other, to a reference whose node is found by following the names
   * from the old fid's node, whose file holds the old path followed by the names, and answers one QID per name.
   */
  lemma WalkReaches(s: Store, key: Key, newKey: Key, names: seq<string>, steps: seq<WalkStep>, clone: WalkStep)
    requires |steps| == |names| > 0 && Inv(s, multiset{}) && FreshSteps(s, steps)
    requires Walk(s, key, newKey, names, steps, clone).1.Done?
    ensures var (s', reply) := Walk(s, key, newKey, names, steps, clone);
            && key in s.fids && s.fids[key] in s.what && newKey in s'.fids
            && s'.fids == s.fids[newKey := s'.fids[newKey]]
            && var r, x := s.fids[key], s'.fids[newKey];
               && x in s'.what && x !in s.what && reply.qids == QidsOf(steps) && |reply.qids| == |names|
               && From(s'.kids, s.what[r].node, names) == s'.what[x].node
               && PathOf(s'.path, s'.what[x].file) == PathOf(s.path, s.what[r].file) + names
  {
    hide Inv, Put, WalkLoop, FreshSteps, CloneOf, Insert, From, PathOf;
    var r := s.fids[key];
    Lookup(s, key);
    var s0 := IncRef(IncRef(s, r), r);
    SameFresh(s, s0, steps, clone);
    WalkLoopReaches(s0, r, names, steps, []);
    assert steps + [] == steps;
    WalkLoopGrows(s0, r, names, steps, [], []);
    var (s1, o) := WalkLoop(s0, r, names, steps, []);
    LastFresh(s, steps);
    SettledFids(s1, r, newKey, o.ref);
    assert [] + QidsOf(steps) == QidsOf(steps);
  }

  lemma LastFresh(s: Store, steps: seq<WalkStep>)
    requires steps != [] && FreshSteps(s, steps)
    ensures steps[|steps| - 1].ref !in s.what
  {
    hide FreshFile;
    assert FreshStep(s, steps[|steps| - 1]);
  }

  /** A Tlcreate that succeeds moves the directory's fid, and no other, to a new open file at the name below the
      directory. */
  lemma CreateReaches(s: Store, key: Key, name: string, step: WalkStep)
    requires Inv(s, multiset{}) && FreshStep(s, step) && Create(s, key, name, step).1.Done?
    ensures var (s', reply) := Create(s, key, name, step);
            && key in s.fids && s.fids[key] in s.what && s'.fids == s.fids[key := step.ref] && step.ref in s'.what
            && step.ref in s'.isOpen
            && var r := s.fids[key];
               && From(s'.kids, s.what[r].node, [name]) == s'.what[step.ref].node && !s'.what[step.ref].dir
               && PathOf(s'.path, s'.what[step.ref].file) == PathOf(s.path, s.what[r].file) + [name]
  {
    hide Inv, Put, Enter, From, PathOf, FreshFile;
    var r := s.fids[key];
    Lookup(s, key);
    var s0 := IncRef(IncRef(s, r), r);
    var made := step.(answer := Granted(step.answer.qid, false));
    EnterEdges(s0, r, name, made);
    EnterFids(s0, r, name, made);
    EnterKind(s0, r, name, made);
    var s1 := Enter(s0, r, name, made);
    var s2 := Install(s1.(isOpen := s1.isOpen + {step.ref}), key, step.ref);
    PutSame(s2, r);
    PutSame(Put(s2, r), r);
  }

  lemma EnterKind(s: Store, w: FidRef, name: string, step: WalkStep)
    requires Sound(s, w)
    ensures var s1 := Enter(s, w, name, step);
            step.ref in s1.what && s1.what[step.ref].dir == (step.answer.Granted? && step.answer.isDir)
  {
  }
}
