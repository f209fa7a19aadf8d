/** When each request succeeds, what it then does, and what it answers otherwise, told from the state it finds. */
module Outcomes {
  import opened Options
  import opened Objects
  import opened Forest
  import opened Bookkeeping
  import opened Reshape
  import opened Handlers
  import opened Safety
  import opened Walks
  import opened Consequences
  import opened Moves
  import FidAgreement

  // ---- holds that come and go ------------------------------------------------------------------

  /** A lookup whose hold is dropped again. */
  lemma Held(s: Store, key: Key)
    requires Inv(s, multiset{}) && key in s.fids
    ensures var r := s.fids[key]; Sound(s, r) && Cnt(s.count, r) > 0 && Put(IncRef(s, r), r) == s
  {
    hide Inv, Put;
    FidLive(s, multiset{}, key);
    IncPut(s, multiset{}, s.fids[key]);
  }

  lemma Held2(s: Store, r: FidRef, t: FidRef)
    requires Inv(s, multiset{}) && r in s.what && t in s.what && Cnt(s.count, r) > 0 && Cnt(s.count, t) > 0
    ensures Put(Put(IncRef(IncRef(s, r), t), t), r) == s
  {
    hide Inv, Put;
    IncRefKeeps(s, multiset{}, r);
    IncPut(IncRef(s, r), multiset{} + multiset{r}, t);
    IncPut(s, multiset{}, r);
  }

  /** A fid that goes while its reference is held. */
  lemma ClearHeld(s: Store, key: Key)
    requires Inv(s, multiset{}) && key in s.fids
    ensures var r := s.fids[key]; Put(Clear(IncRef(s, r), key), r) == Clear(s, key)
  {
    hide Inv, Put;
    var r := s.fids[key];
    FidLive(s, multiset{}, key);
    UnbindKeeps(s, multiset{}, key);
    IncPut(Unbind(s, key), multiset{} + multiset{r}, r);
    assert Unbind(IncRef(s, r), key) == IncRef(Unbind(s, key), r);
  }

  lemma MarkInc(s: Store, r: FidRef, n: PathNode, name: string)
    requires n in s.kids
    ensures Mark(IncRef(s, r), n, name) == IncRef(Mark(s, n, name), r)
  {
  }

  // ---- open ----------------------------------------------------------------------------------------

  ghost predicate MayOpen(s: Store, key: Key, readOnly: bool, canOpen: bool, answer: Answer)
  {
    && key in s.fids && s.fids[key] in s.what
    && var r := s.fids[key];
       && s.what[r].node !in s.deleted && r !in s.isOpen && canOpen && (s.what[r].dir ==> readOnly) && answer.Granted?
  }

  /** An open that may be is, and marks the reference open. */
  lemma OpenDone(s: Store, key: Key, readOnly: bool, canOpen: bool, answer: Answer)
    requires Inv(s, multiset{}) && MayOpen(s, key, readOnly, canOpen, answer)
    ensures Open(s, key, readOnly, canOpen, answer) == (s.(isOpen := s.isOpen + {s.fids[key]}), Done([answer.qid]))
  {
    hide Inv, Put;
    var r := s.fids[key];
    Held(s, key);
    OpenedKeeps(s, multiset{}, r);
    IncPut(s.(isOpen := s.isOpen + {r}), multiset{}, r);
    assert IncRef(s, r).(isOpen := s.isOpen + {r}) == IncRef(s.(isOpen := s.isOpen + {r}), r);
  }

  /** One that may not changes nothing, and answers for the first guard that fails. */
  lemma OpenFails(s: Store, key: Key, readOnly: bool, canOpen: bool, answer: Answer)
    requires Inv(s, multiset{}) && !MayOpen(s, key, readOnly, canOpen, answer)
    ensures Open(s, key, readOnly, canOpen, answer)
         == (s, Fail(if key !in s.fids || s.fids[key] !in s.what then EBADF
                     else if s.what[s.fids[key]].node in s.deleted || s.fids[key] in s.isOpen || !canOpen then EINVAL
                     else if s.what[s.fids[key]].dir && !readOnly then EISDIR
                     else answer.errno))
  {
    hide Inv, Put;
    if key in s.fids { Held(s, key); }
  }

  /** A fid is opened once. */
  lemma OpenTwice(s: Store, key: Key, readOnly: bool, canOpen: bool, answer: Answer, readOnly': bool, canOpen': bool,
                  answer': Answer)
    requires Inv(s, multiset{}) && MayOpen(s, key, readOnly, canOpen, answer)
    ensures var s' := Open(s, key, readOnly, canOpen, answer).0;
            Open(s', key, readOnly', canOpen', answer') == (s', Fail(EINVAL))
  {
    hide Inv, Open;
    var s' := Open(s, key, readOnly, canOpen, answer).0;
    OpenDone(s, key, readOnly, canOpen, answer);
    OpenedKeeps(s, multiset{}, s.fids[key]);
    OpenFails(s', key, readOnly', canOpen', answer');
  }

  // ---- walk ----------------------------------------------------------------------------------------

  /** What stops a walk from a reference: a start that is no directory or deleted, a refusal, or an element before
      the last that is no directory. */
  function WalkErrno(dir: bool, gone: bool, answers: seq<Answer>): Option<nat>
    decreases |answers|
  {
    if answers == [] then None
    else if !dir then Some(EINVAL)
    else if gone then Some(ENOENT)
    else
      match answers[0]
      case Refused(e) => Some(e)
      case Granted(_, isDir) => WalkErrno(isDir, false, answers[1..])
  }

  function AnswersOf(steps: seq<WalkStep>): (answers: seq<Answer>)
    ensures |answers| == |steps| && forall i | 0 <= i < |steps| :: answers[i] == steps[i].answer
  {
    seq(|steps|, i requires 0 <= i < |steps| => steps[i].answer)
  }

  /** Nothing stops it exactly when all elements are granted and all but the last are directories. */
  lemma {:induction false} NothingStops(dir: bool, gone: bool, answers: seq<Answer>)
    requires answers != []
    ensures WalkErrno(dir, gone, answers) == None <==>
              && dir && !gone && (forall i | 0 <= i < |answers| :: answers[i].Granted?)
              && (forall i | 0 <= i < |answers| - 1 :: answers[i].Granted? && answers[i].isDir)
    decreases |answers|
  {
    var rest := answers[1..];
    if rest == [] {
      assert forall i | 0 <= i < |answers| :: answers[i] == answers[0];
    } else if answers[0].Granted? {
      NothingStops(answers[0].isDir, false, rest);
      assert forall i | 0 <= i < |rest| :: answers[i + 1] == rest[i];
      if dir && !gone {
        if WalkErrno(dir, gone, answers) == None {
          forall i | 0 <= i < |answers| ensures answers[i].Granted? { if i > 0 { assert rest[i - 1].Granted?; } }
          forall i | 0 <= i < |answers| - 1 ensures answers[i].Granted? && answers[i].isDir {
            if i > 0 { assert rest[i - 1].Granted? && rest[i - 1].isDir; }
          }
        }
      }
    }
  }

  lemma EnterLives(s: Store, held: multiset<FidRef>, w: FidRef, name: string, step: WalkStep)
    requires Inv(s, held) && w in held && Sound(s, w) && s.what[w].dir && s.what[w].node !in s.deleted
    requires FreshStep(s, step)
    ensures var s1 := Enter(s, w, name, step);
            && Sound(s1, step.ref) && s1.what[step.ref].node !in s1.deleted && s1.isOpen == s.isOpen
            && s1.what[step.ref].dir == (step.answer.Granted? && step.answer.isDir)
  {
    hide Inv, Enter, FreshFile, From;
    var s1, n := Enter(s, w, name, step), s.what[w].node;
    EnterKeeps(s, held, w, name, step);
    EnterEdges(s, w, name, step);
    EnterKind(s, w, name, step);
    EnterShape(s, w, name, step);
    EnterOpen(s, w, name, step);
    assert step.ref in held + multiset{step.ref} - multiset{w} by { OtherRef(held, w, step.ref, s); }
    SoundHeld(s1, held + multiset{step.ref} - multiset{w}, step.ref);
    ChildLives(s1, held + multiset{step.ref} - multiset{w}, n, name, s1.what[step.ref].node);
  }

  lemma OtherRef(held: multiset<FidRef>, w: FidRef, x: FidRef, s: Store)
    requires w in s.what && x !in s.what
    ensures x in held + multiset{x} - multiset{w}
  {
  }

  lemma EnterOpen(s: Store, w: FidRef, name: string, step: WalkStep)
    requires Sound(s, w)
    ensures Enter(s, w, name, step).isOpen == s.isOpen
  {
    GrowHangs(s, s.what[w].node, name, step.node);
    hide Grow;
  }

  lemma ChildLives(s: Store, held: multiset<FidRef>, n: PathNode, name: string, c: PathNode)
    requires Inv(s, held) && From(s.kids, n, [name]) == c && n !in s.deleted
    ensures c !in s.deleted
  {
    hide Known, Registered, Present, Lineage, Grounded, Counted, ClosedOnce, Sharing, Paths, Tree;
    assert From(s.kids, n, [name]) == Step(s.kids, From(s.kids, n, []), name) by { assert [name][..0] == []; }
    EdgeLive(s.root, s.kids, s.deleted, n, name, c);
  }

  /** The loop of doWalk stops where and as the answers say. */
  lemma {:induction false} WalkLoopEnds(s: Store, held: multiset<FidRef>, w: FidRef, names: seq<string>,
                                        steps: seq<WalkStep>, qids: seq<nat>)
    requires |steps| == |names| && Inv(s, held) && w in held && FreshSteps(s, steps) && Sound(s, w)
    ensures var o := WalkLoop(s, w, names, steps, qids).1;
            match WalkErrno(s.what[w].dir, s.what[w].node in s.deleted, AnswersOf(steps))
            case None => o.Reached?
            case Some(e) => o == Stopped(e)
    decreases |names|
  {
    hide Inv, Put, Enter, FreshSteps, FreshStep;
    if names != [] && s.what[w].dir && s.what[w].node !in s.deleted && steps[0].answer.Granted? {
      var x := steps[0].ref;
      assert steps == [steps[0]] + steps[1..] && AnswersOf(steps)[1..] == AnswersOf(steps[1..]);
      HeadFresh(s, steps);
      FreshRef(s, steps[0]);
      NotFiledFresh(s, held, x, s.what[w].node);
      EnterKeeps(s, held, w, names[0], steps[0]);
      EnterFresh(s, w, names[0], steps[0], steps[1..]);
      EnterLives(s, held, w, names[0], steps[0]);
      OtherRef(held, w, x, s);
      WalkLoopEnds(Enter(s, w, names[0], steps[0]), held + multiset{x} - multiset{w}, x, names[1..], steps[1..],
                   qids + [steps[0].answer.qid]);
    }
  }

  lemma DoWalkEnds(s: Store, held: multiset<FidRef>, r: FidRef, names: seq<string>, steps: seq<WalkStep>,
                   clone: WalkStep)
    requires |steps| == |names| > 0 && Inv(s, held) && r in held && FreshSteps(s, steps) && Sound(s, r)
    ensures var (s', o) := DoWalk(s, r, names, steps, clone);
            if exists i :: 0 <= i < |names| && !SafeName(names[i]) then s' == s && o == Stopped(EINVAL)
            else
              match WalkErrno(s.what[r].dir, s.what[r].node in s.deleted, AnswersOf(steps))
              case None => o.Reached?
              case Some(e) => o == Stopped(e)
  {
    hide Inv, WalkLoop, FreshSteps;
    if !(exists i :: 0 <= i < |names| && !SafeName(names[i])) {
      SoundHeld(s, held, r);
      IncRefKeeps(s, held, r);
      SameFresh(s, IncRef(s, r), steps, clone);
      WalkLoopEnds(IncRef(s, r), held + multiset{r}, r, names, steps, []);
    }
  }

  ghost predicate AllSafe(names: seq<string>)
  {
    forall i | 0 <= i < |names| :: SafeName(names[i])
  }

  /** A fid may not be walked onto itself once it is open. */
  ghost predicate MayWalk(s: Store, key: Key, newKey: Key)
  {
    key in s.fids && s.fids[key] in s.what && !(s.fids[key] in s.isOpen && key == newKey)
  }

  /** A walk of safe names that nothing stops succeeds, with the QIDs granted, and `WalkReaches` says where it leads;
      the new reference is a directory if its answer says so, and not open. */
  lemma WalkDone(s: Store, key: Key, newKey: Key, names: seq<string>, steps: seq<WalkStep>, clone: WalkStep)
    requires |steps| == |names| > 0 && Inv(s, multiset{}) && FreshSteps(s, steps) && MayWalk(s, key, newKey)
    requires AllSafe(names)
    requires var r := s.fids[key]; WalkErrno(s.what[r].dir, s.what[r].node in s.deleted, AnswersOf(steps)) == None
    ensures Walk(s, key, newKey, names, steps, clone).1 == Done(QidsOf(steps))
    ensures var s' := Walk(s, key, newKey, names, steps, clone).0;
            && newKey in s'.fids && s'.fids[newKey] in s'.what && s'.isOpen == s.isOpen && s'.fids[newKey] !in s'.isOpen
            && var last := steps[|steps| - 1].answer; s'.what[s'.fids[newKey]].dir == (last.Granted? && last.isDir)
  {
    hide Inv, Put, DoWalk, FreshSteps, Insert, QidsOf;
    var r := s.fids[key];
    Lookup(s, key);
    SameFresh(s, IncRef(s, r), steps, clone);
    DoWalkEnds(IncRef(s, r), multiset{r}, r, names, steps, clone);
    WalkReaches(s, key, newKey, names, steps, clone);
    WalkKindOf(s, key, newKey, names, steps, clone);
  }

  lemma WalkKindOf(s: Store, key: Key, newKey: Key, names: seq<string>, steps: seq<WalkStep>, clone: WalkStep)
    requires |steps| == |names| > 0 && Inv(s, multiset{}) && FreshSteps(s, steps)
    requires Walk(s, key, newKey, names, steps, clone).1.Done?
    ensures var s' := Walk(s, key, newKey, names, steps, clone).0;
            && newKey in s'.fids && s'.fids[newKey] in s'.what && s'.isOpen == s.isOpen && s'.fids[newKey] !in s'.isOpen
            && var last := steps[|steps| - 1].answer; s'.what[s'.fids[newKey]].dir == (last.Granted? && last.isDir)
  {
    hide Inv, Put, WalkLoop, FreshSteps, CloneOf, Insert;
    var r := s.fids[key];
    Lookup(s, key);
    var s0 := IncRef(IncRef(s, r), r);
    SameFresh(s, s0, steps, clone);
    assert steps + [] == steps;
    WalkLoopGrows(s0, r, names, steps, [], []);
    WalkLoopKinds(s0, r, names, steps, []);
    var (s1, o) := WalkLoop(s0, r, names, steps, []);
    LastNew(s, steps);
    SettledFids(s1, r, newKey, o.ref);
    SettledOpen(s1, r, newKey, o.ref);
  }

  lemma LastNew(s: Store, steps: seq<WalkStep>)
    requires steps != [] && FreshSteps(s, steps)
    ensures steps[|steps| - 1].ref !in s.what && steps[|steps| - 1].ref !in s.isOpen
  {
    hide FreshFile;
    assert FreshStep(s, steps[|steps| - 1]);
  }

  lemma SettledOpen(s: Store, r: FidRef, key: Key, x: FidRef)
    ensures Put(Put(Insert(s, key, x), x), r).isOpen == s.isOpen
  {
    PutSame(Put(Insert(s, key, x), x), r);
    PutSame(Insert(s, key, x), x);
    if key in s.fids { PutSame(Install(IncRef(s, x), key, x), s.fids[key]); }
    hide Put;
  }

  lemma {:induction false} WalkLoopKinds(s: Store, w: FidRef, names: seq<string>, steps: seq<WalkStep>, qids: seq<nat>)
    requires |steps| == |names| > 0 && WalkLoop(s, w, names, steps, qids).1.Reached?
    ensures var (s', o) := WalkLoop(s, w, names, steps, qids);
            var last := steps[|steps| - 1].answer;
            s'.isOpen == s.isOpen && o.ref in s'.what && s'.what[o.ref].dir == (last.Granted? && last.isDir)
    decreases |names|
  {
    hide Put, Enter, At;
    EnterOpen(s, w, names[0], steps[0]);
    EnterKind(s, w, names[0], steps[0]);
    if |names| > 1 {
      WalkLoopKinds(Enter(s, w, names[0], steps[0]), steps[0].ref, names[1..], steps[1..],
          qids + [steps[0].answer.qid]);
    } else {
      assert names[1..] == [] && steps[1..] == [];
      var s1 := Enter(s, w, names[0], steps[0]);
      var q := qids + [steps[0].answer.qid];
      assert WalkLoop(s1, steps[0].ref, [], [], q) == (s1, Reached(steps[0].ref, q));
    }
  }

  /** Any other walk of names fails, unnoticed. */
  lemma WalkFails(s: Store, key: Key, newKey: Key, names: seq<string>, steps: seq<WalkStep>, clone: WalkStep)
    requires |steps| == |names| > 0 && Inv(s, multiset{}) && FreshSteps(s, steps)
    requires !(MayWalk(s, key, newKey) && AllSafe(names)
               && (var r := s.fids[key];
                   WalkErrno(s.what[r].dir, s.what[r].node in s.deleted, AnswersOf(steps)) == None))
    ensures var (s', reply) := Walk(s, key, newKey, names, steps, clone);
            && Unnoticed(s, s') && (!MayWalk(s, key, newKey) || !AllSafe(names) ==> s' == s)
            && reply == Fail(if key !in s.fids then EBADF
                             else if !MayWalk(s, key, newKey) then EBUSY
                             else if !AllSafe(names) then EINVAL
                             else
                               var r := s.fids[key];
                               WalkErrno(s.what[r].dir, s.what[r].node in s.deleted, AnswersOf(steps)).value)
  {
    hide Inv, Put, DoWalk, FreshSteps, Insert, Unnoticed;
    if key in s.fids {
      var r := s.fids[key];
      Held(s, key);
      Lookup(s, key);
      SameFresh(s, IncRef(s, r), steps, clone);
      DoWalkEnds(IncRef(s, r), multiset{r}, r, names, steps, clone);
    }
    FailedWalkInvisible(s, key, newKey, names, steps, clone);
  }

  // ---- clone -----------------------------------------------------------------------------------------

  /** A granted walk of no names: the new fid, and no other, is bound to a new reference that is what the old one is,
      beside it, with a file of its own that holds the same path. */
  lemma CloneDone(s: Store, key: Key, newKey: Key, clone: WalkStep)
    requires Inv(s, multiset{}) && FreshStep(s, clone) && MayWalk(s, key, newKey) && clone.answer.Granted?
    ensures var (s', reply) := Walk(s, key, newKey, [], [], clone);
            var r, x := s.fids[key], clone.ref;
            && reply == Done([]) && s'.fids == s.fids[newKey := x] && x in s'.what && s'.kids == s.kids
            && s'.what[x] == Ref(s.what[r].node, clone.file, s.what[r].dir) && Par(s'.parent, x) == Par(s.parent, r)
            && PathOf(s'.path, clone.file) == PathOf(s.path, s.what[r].file) && s'.isOpen == s.isOpen && x !in s'.isOpen
    ensures var s' := Walk(s, key, newKey, [], [], clone).0;
            NamedAlike(s, s.fids[key], s', clone.ref)
  {
    hide Inv, Put, CloneOf, Insert, FreshFile, NamedAlike, Nowhere;
    var r, x := s.fids[key], clone.ref;
    Lookup(s, key);
    var s0 := IncRef(s, r);
    SameFresh(s, s0, [], clone);
    CloneKeeps(s0, multiset{r}, r, clone);
    CloneIs(s0, r, clone);
    var s1 := CloneOf(s0, r, clone).0;
    SettledFids(s1, r, newKey, x);
    SettledOpen(s1, r, newKey, x);
    SettledParents(s1, r, newKey, x);
    Settle(s1, r, newKey, x);
    var s' := Put(Put(Insert(s1, newKey, x), x), r);
    if Par(s.parent, r) == null || s.what[r].node in s.deleted {
      NowhereNew(s, x);
      StillNowhere(s1, r, newKey, x);
      UnnamedAlike(s, r, s', x);
    } else {
      Beside(s, key, s', newKey, x);
    }
  }

  /** Registered with the same parent under the same name, unless deleted or without a parent. */
  ghost predicate NamedAlike(s: Store, r: FidRef, s': Store, x: FidRef)
    requires r in s.what
  {
    var p := Par(s.parent, r);
    if p == null || s.what[r].node in s.deleted then forall n | n in s'.names :: x !in s'.names[n]
    else
      && p in s.what && r in At(s.names, s.what[p].node) && x in At(s'.names, s.what[p].node)
      && At(s'.names, s.what[p].node)[x] == At(s.names, s.what[p].node)[r]
  }

  lemma CloneIs(s: Store, r: FidRef, clone: WalkStep)
    requires clone.answer.Granted? && !CloneOf(s, r, clone).1.Crashed? && r in s.what && clone.ref !in s.what
    ensures var (s1, o) := CloneOf(s, r, clone);
            && o == Reached(clone.ref, []) && s1.fids == s.fids && s1.kids == s.kids && s1.isOpen == s.isOpen
            && s1.deleted == s.deleted && s1.root == s.root
            && s1.what == s.what[clone.ref := Ref(s.what[r].node, clone.file, s.what[r].dir)]
            && Par(s1.parent, clone.ref) == Par(s.parent, r)
            && PathOf(s1.path, clone.file) == PathOf(s.path, s.what[r].file)
            && (Par(s.parent, r) == null || s.what[r].node in s.deleted ==> s1.names == s.names)
  {
    hide At, Enrol;
    var p := Par(s.parent, r);
    if p == null || (Sound(s, p) && s.what[r].node in s.deleted) {
      assert CloneOf(s, r, clone).1 == Reached(clone.ref, []);
    }
  }

  lemma SettledParents(s: Store, r: FidRef, key: Key, x: FidRef)
    ensures var s' := Put(Put(Insert(s, key, x), x), r);
            s'.parent == s.parent && s'.deleted == s.deleted && s'.root == s.root
  {
    PutSame(Put(Insert(s, key, x), x), r);
    PutSame(Insert(s, key, x), x);
    if key in s.fids { PutSame(Install(IncRef(s, x), key, x), s.fids[key]); }
    hide Put;
  }

  /** Two references of one node with one parent have one name. */
  lemma Beside(s: Store, key: Key, s': Store, newKey: Key, x: FidRef)
    requires Inv(s, multiset{}) && Inv(s', multiset{}) && key in s.fids && newKey in s'.fids && s'.fids[newKey] == x
    requires var r := s.fids[key];
             && r in s.what && x in s'.what && s'.what[x].node == s.what[r].node
             && Par(s'.parent, x) == Par(s.parent, r)
             && s'.kids == s.kids && s'.deleted == s.deleted && s'.root == s.root
             && (forall y | y in s.what :: y in s'.what && s'.what[y] == s.what[y])
             && Par(s.parent, r) != null && s.what[r].node !in s.deleted
    ensures NamedAlike(s, s.fids[key], s', x)
  {
    hide Inv, Hangs, Reaches;
    var r := s.fids[key];
    var p := Par(s.parent, r);
    FidLive(s, multiset{}, key);
    FidLive(s', multiset{}, newKey);
    ParentAbove(s, multiset{}, r);
    ParentAbove(s', multiset{}, x);
    var n := s.what[p].node;
    OneName(s, n, At(s.names, n)[r], At(s'.names, n)[x], s.what[r].node);
  }

  lemma OneName(s: Store, n: PathNode, a: string, b: string, c: PathNode)
    requires Inv(s, multiset{}) && n in s.kids && Hangs(s.kids, n, a, c) && Hangs(s.kids, n, b, c)
    ensures a == b
  {
    hide Known, Registered, Present, Lineage, Grounded, Counted, ClosedOnce, Sharing, Paths;
  }

  ghost predicate Nowhere(names: Names, x: FidRef)
  {
    forall n | n in names :: x !in names[n]
  }

  lemma NowhereNew(s: Store, x: FidRef)
    requires Inv(s, multiset{}) && x !in s.what
    ensures Nowhere(s.names, x)
  {
    hide Inv;
    forall n | n in s.names ensures x !in s.names[n] { NotFiledFresh(s, multiset{}, x, n); }
  }

  lemma {:induction false} DecRefNowhere(s: Store, r: FidRef, k: nat, x: FidRef)
    requires Up(s.parent, r, k) == null && Nowhere(s.names, x)
    ensures Nowhere(DecRef(s, r, k).names, x)
    decreases k
  {
    if r in s.what {
      DecRefStep(s, r, k);
      ForgetNowhere(s.names, s.what, s.parent, r, x);
      hide Forget, Nowhere;
      if Cnt(s.count, r) == 1 && Par(s.parent, r) != null { DecRefNowhere(Die(s, r), Par(s.parent, r), k - 1, x); }
    }
  }

  lemma ForgetNowhere(names: Names, what: Refs, parent: Parents, r: FidRef, x: FidRef)
    requires Nowhere(names, x)
    ensures Nowhere(Forget(names, what, parent, r), x)
  {
  }

  lemma PutNowhere(s: Store, r: FidRef, x: FidRef)
    requires Nowhere(s.names, x)
    ensures Nowhere(Put(s, r).names, x)
  {
    hide DecRef, Nowhere;
    if Ends(s.parent, r) { DecRefNowhere(s, r, Height(s.parent, r), x); }
  }

  lemma StillNowhere(s: Store, r: FidRef, key: Key, x: FidRef)
    requires Nowhere(s.names, x)
    ensures Nowhere(Put(Put(Insert(s, key, x), x), r).names, x)
  {
    hide Put, Nowhere;
    if key in s.fids { PutNowhere(Install(IncRef(s, x), key, x), s.fids[key], x); }
    PutNowhere(Insert(s, key, x), x, x);
    PutNowhere(Put(Insert(s, key, x), x), r, x);
  }

  lemma UnnamedAlike(s: Store, r: FidRef, s': Store, x: FidRef)
    requires r in s.what && (Par(s.parent, r) == null || s.what[r].node in s.deleted) && Nowhere(s'.names, x)
    ensures NamedAlike(s, r, s', x)
  {
  }

  lemma CloneFails(s: Store, key: Key, newKey: Key, clone: WalkStep)
    requires Inv(s, multiset{}) && !(MayWalk(s, key, newKey) && clone.answer.Granted?)
    ensures Walk(s, key, newKey, [], [], clone)
         == (s, Fail(if key !in s.fids then EBADF else if !MayWalk(s, key, newKey) then EBUSY
                     else clone.answer.errno))
  {
    hide Inv, Put;
    if key in s.fids { Held(s, key); }
  }

  // ---- attach ----------------------------------------------------------------------------------------

  /** The transient reference to the root. */
  ghost function Rooted(s: Store, root: WalkStep): Store
  {
    Spawn(s, root.ref, Ref(s.root, root.file, root.answer.Granted? && root.answer.isDir), null, s.names,
        s.path[root.file := []])
  }

  lemma RootedKeeps(s: Store, root: WalkStep)
    requires Inv(s, multiset{}) && FreshStep(s, root) && root.answer.Granted?
    ensures var s0 := Rooted(s, root);
            && Inv(s0, multiset{root.ref}) && Sound(s0, root.ref) && s.root !in s0.deleted && s0.isOpen == s.isOpen
            && s0.what[root.ref] == Ref(s.root, root.file, root.answer.isDir) && PathOf(s0.path, root.file) == []
  {
    hide Inv, FreshFile;
    NewRootKeeps(s, multiset{}, root.ref, root.file, root.answer.isDir);
    assert multiset{} + multiset{root.ref} == multiset{root.ref};
    SoundHeld(Rooted(s, root), multiset{root.ref}, root.ref);
    RootLives(s);
  }

  lemma RootLives(s: Store)
    requires Inv(s, multiset{})
    ensures s.root !in s.deleted && s.root in s.kids
  {
    hide Known, Registered, Present, Lineage, Grounded, Counted, ClosedOnce, Sharing, Paths;
    assert From(s.kids, s.root, []) == s.root;
  }

  /** Attaching to the root binds the key, and no other, to a new reference to it. */
  lemma AttachRootDone(s: Store, key: Key, root: WalkStep)
    requires Inv(s, multiset{}) && FreshStep(s, root) && root.answer.Granted?
    ensures var (s', reply) := Handlers.Attach(s, key, root, [], []);
            && reply == Done([root.answer.qid]) && s'.fids == s.fids[key := root.ref] && root.ref in s'.what
            && s'.what[root.ref] == Ref(s.root, root.file, root.answer.isDir) && Par(s'.parent, root.ref) == null
            && PathOf(s'.path, root.file) == [] && s'.isOpen == s.isOpen && root.ref !in s'.isOpen && s'.kids == s.kids
  {
    hide Put, FreshFile, Insert, Inv;
    BoundTo(Rooted(s, root), key, root.ref);
  }

  /** What InsertFID and the drop of the transient hold leave alone. */
  lemma BoundTo(s: Store, key: Key, x: FidRef)
    ensures var s' := Put(Insert(s, key, x), x);
            && s'.fids == s.fids[key := x] && s'.what == s.what && s'.kids == s.kids && s'.parent == s.parent
            && s'.path == s.path && s'.isOpen == s.isOpen
  {
    hide Put;
    PutSame(Insert(s, key, x), x);
    if key in s.fids { PutSame(Install(IncRef(s, x), key, x), s.fids[key]); }
  }

  /** Attaching below it, with safe names that nothing stops, binds the key, and no other, to a new reference to the
      node that the names lead to from the root; its file holds the names. */
  lemma AttachDone(s: Store, key: Key, root: WalkStep, names: seq<string>, steps: seq<WalkStep>)
    requires |steps| == |names| > 0 && Inv(s, multiset{}) && FreshSteps(s, [root] + steps) && root.answer.Granted?
    requires AllSafe(names) && WalkErrno(root.answer.isDir, false, AnswersOf(steps)) == None
    ensures var (s', reply) := Handlers.Attach(s, key, root, names, steps);
            && reply == Done([root.answer.qid]) && key in s'.fids && s'.fids == s.fids[key := s'.fids[key]]
            && var x, last := s'.fids[key], steps[|steps| - 1].answer;
               && x in s'.what && x !in s.what && From(s'.kids, s.root, names) == s'.what[x].node
               && PathOf(s'.path, s'.what[x].file) == names && s'.isOpen == s.isOpen && x !in s'.isOpen
               && s'.what[x].dir == (last.Granted? && last.isDir)
  {
    hide Inv, Put, WalkLoop, FreshSteps, FreshFile, Insert, Spawn, From, PathOf, FreshStep;
    var r, s0 := root.ref, Rooted(s, root);
    FirstOf(s, root, steps);
    RootedKeeps(s, root);
    RootFresh(s, root, steps);
    RootedSame(s, root);
    DoWalkEnds(s0, multiset{r}, r, names, steps, root);
    var s00 := IncRef(s0, r);
    SameFresh(s0, s00, steps, root);
    WalkLoopReaches(s00, r, names, steps, []);
    WalkLoopKinds(s00, r, names, steps, []);
    assert steps + [] == steps;
    WalkLoopGrows(s00, r, names, steps, [], []);
    LastNew(s0, steps);
    var (s1, o) := WalkLoop(s00, r, names, steps, []);
    SettledFids(s1, r, key, o.ref);
    SettledOpen(s1, r, key, o.ref);
    assert [] + names == names;
  }

  lemma FirstOf(s: Store, root: WalkStep, steps: seq<WalkStep>)
    requires FreshSteps(s, [root] + steps)
    ensures FreshStep(s, root)
  {
    hide FreshStep;
    assert ([root] + steps)[0] == root;
  }

  lemma RootedSame(s: Store, root: WalkStep)
    ensures var s0 := Rooted(s, root);
            s0.fids == s.fids && s0.kids == s.kids && s0.deleted == s.deleted && s0.root == s.root
            && forall y | y in s.what :: y in s0.what
  {
  }

  /** Any other attach fails, unnoticed. */
  lemma AttachFails(s: Store, key: Key, root: WalkStep, names: seq<string>, steps: seq<WalkStep>)
    requires |steps| == |names| && Inv(s, multiset{}) && FreshSteps(s, [root] + steps)
    requires root.answer.Granted? ==>
               names != [] && !(AllSafe(names) && WalkErrno(root.answer.isDir, false, AnswersOf(steps)) == None)
    ensures var (s', reply) := Handlers.Attach(s, key, root, names, steps);
            && Unnoticed(s, s') && (root.answer.Refused? ==> s' == s)
            && reply == Fail(if root.answer.Refused? then root.answer.errno
                             else if !AllSafe(names) then EINVAL
                             else WalkErrno(root.answer.isDir, false, AnswersOf(steps)).value)
  {
    hide Inv, Put, DoWalk, FreshSteps, FreshFile, Insert, Spawn, FreshStep, Unnoticed;
    UnnoticedRefl(s);
    if root.answer.Granted? {
      var r, s0 := root.ref, Rooted(s, root);
      FirstOf(s, root, steps);
      RootedKeeps(s, root);
      RootFresh(s, root, steps);
      RootedSame(s, root);
      DoWalkEnds(s0, multiset{r}, r, names, steps, root);
      var s1 := DoWalk(s0, r, names, steps, root).0;
      DoWalkUnnoticed(s0, r, names, steps, root);
      UnnoticedPut(s0, s1, multiset{r}, r);
      RootedDies(s, root);
      UnnoticedTrans(s, Put(s0, r), Put(s1, r));
    }
  }

  lemma DoWalkUnnoticed(s: Store, r: FidRef, names: seq<string>, steps: seq<WalkStep>, clone: WalkStep)
    requires |steps| == |names| > 0 && Inv(s, multiset{r}) && FreshSteps(s, steps) && Sound(s, r)
    requires DoWalk(s, r, names, steps, clone).1.Stopped?
    ensures Unnoticed(s, DoWalk(s, r, names, steps, clone).0)
  {
    hide Inv, Put, WalkLoop, FreshSteps, Unnoticed;
    UnnoticedRefl(s);
    if AllSafe(names) {
      SoundHeld(s, multiset{r}, r);
      IncRefKeeps(s, multiset{r}, r);
      IncPut(s, multiset{r}, r);
      SameFresh(s, IncRef(s, r), steps, clone);
      WalkLoopFails(IncRef(s, r), multiset{r} + multiset{r}, r, names, steps, []);
    }
  }

  /** The transient root goes as it came. */
  lemma RootedDies(s: Store, root: WalkStep)
    requires Inv(s, multiset{}) && FreshStep(s, root) && root.answer.Granted?
    ensures Unnoticed(s, Put(Rooted(s, root), root.ref))
  {
    hide Inv;
    var s0, r := Rooted(s, root), root.ref;
    assert Up(s0.parent, r, 1) == null;
    PutIs(s0, r, 1);
    DecRefStep(s0, r, 1);
    DiesAlone(s, root);
  }

  lemma DiesAlone(s: Store, root: WalkStep)
    requires FreshStep(s, root)
    ensures root.ref in Rooted(s, root).what && Unnoticed(s, Die(Rooted(s, root), root.ref))
  {
    var d := Die(Rooted(s, root), root.ref);
    assert SameRefs(s, d);
    assert DeadExtras(s, d);
    assert SameNodes(s.kids, s.names, d.kids, d.names);
  }

  // ---- create ----------------------------------------------------------------------------------------

  /** What Tlcreate and Tunlinkat ask of a fid: bound to an undeleted directory that is not open. */
  ghost predicate Directory(s: Store, key: Key)
  {
    && key in s.fids && s.fids[key] in s.what
    && s.what[s.fids[key]].node !in s.deleted && s.what[s.fids[key]].dir && s.fids[key] !in s.isOpen
  }

  /** A granted create of a safe name succeeds with the QID granted; `CreateReaches` says what it leaves. */
  lemma CreateDone(s: Store, key: Key, name: string, step: WalkStep)
    requires Inv(s, multiset{}) && FreshStep(s, step) && SafeName(name) && Directory(s, key) && step.answer.Granted?
    ensures Create(s, key, name, step).1 == Done([step.answer.qid])
    ensures Par(Create(s, key, name, step).0.parent, step.ref) == s.fids[key]
  {
    hide Inv, Put, Enter, FreshFile;
    var r := s.fids[key];
    Held(s, key);
    NotFiledFresh(s, multiset{}, step.ref, s.what[r].node);
    var made := step.(answer := Granted(step.answer.qid, false));
    EnteredRef(IncRef(IncRef(s, r), r), r, name, made);
    var s1 := Enter(IncRef(IncRef(s, r), r), r, name, made);
    var s2 := Install(s1.(isOpen := s1.isOpen + {step.ref}), key, step.ref);
    PutSame(s2, r);
    PutSame(Put(s2, r), r);
  }

  lemma CreateFails(s: Store, key: Key, name: string, step: WalkStep)
    requires Inv(s, multiset{}) && !(SafeName(name) && Directory(s, key) && step.answer.Granted?)
    ensures Create(s, key, name, step)
         == (s, Fail(if !SafeName(name) then EINVAL else if key !in s.fids then EBADF
                     else if !Directory(s, key) then EINVAL else step.answer.errno))
  {
    hide Inv, Put, Enter;
    if key in s.fids { Held(s, key); }
  }

  // ---- unlink and remove -----------------------------------------------------------------------------

  lemma GrowHeld(s: Store, key: Key, name: string, node: PathNode)
    requires Inv(s, multiset{}) && Directory(s, key) && node !in s.kids
    ensures var r := s.fids[key];
            && Sound(s, r) && Inv(Grow(s, s.what[r].node, name, node), multiset{})
            && Put(Grow(IncRef(s, r), s.what[r].node, name, node), r) == Grow(s, s.what[r].node, name, node)
            && s.what[r].node in Grow(s, s.what[r].node, name, node).kids
            && Grow(s, s.what[r].node, name, node).deleted == s.deleted
            && Grow(s, s.what[r].node, name, node).what == s.what
  {
    hide Inv, Put, Grow;
    var r := s.fids[key];
    var n := s.what[r].node;
    Held(s, key);
    GrowKeeps(s, multiset{}, n, name, node);
    GrowHangs(s, n, name, node);
    GrowInc(s, n, name, node, r);
    IncPut(Grow(s, n, name, node), multiset{}, r);
  }

  /** A granted unlink of a safe name cuts it and deletes what hung there; the node is made first if there was none. */
  lemma UnlinkDone(s: Store, key: Key, name: string, answer: Answer, node: PathNode)
    requires Inv(s, multiset{}) && node !in s.kids && SafeName(name) && Directory(s, key) && answer.Granted?
    ensures s.what[s.fids[key]].node in s.kids
    ensures var s1 := Grow(s, s.what[s.fids[key]].node, name, node);
            && s.what[s.fids[key]].node in s1.kids
            && Unlink(s, key, name, answer, node) == (Mark(s1, s.what[s.fids[key]].node, name), Done([]))
  {
    hide Inv, Put, Grow, Mark;
    var r := s.fids[key];
    var n := s.what[r].node;
    GrowHeld(s, key, name, node);
    var s1 := Grow(s, n, name, node);
    GrowHangs(s, n, name, node);
    GrowInc(s, n, name, node, r);
    FidLive(s, multiset{}, key);
    MarkInc(s1, r, n, name);
    MarkKeeps(s1, multiset{}, n, name);
    MarkShape(s1, n, name);
    IncPut(Mark(s1, n, name), multiset{}, r);
  }

  lemma UnlinkFails(s: Store, key: Key, name: string, answer: Answer, node: PathNode)
    requires Inv(s, multiset{}) && node !in s.kids && !(SafeName(name) && Directory(s, key) && answer.Granted?)
    ensures var (s', reply) := Unlink(s, key, name, answer, node);
            && reply == Fail(if !SafeName(name) then EINVAL else if key !in s.fids then EBADF
                             else if !Directory(s, key) then EINVAL else answer.errno)
            && if SafeName(name) && Directory(s, key)
               then s.what[s.fids[key]].node in s.kids && s' == Grow(s, s.what[s.fids[key]].node, name, node)
               else s' == s
  {
    hide Inv, Put, Grow, Mark;
    if key in s.fids {
      Held(s, key);
      if Directory(s, key) { GrowHeld(s, key, name, node); }
    }
  }

  /** What Tremove asks: an undeleted reference with a parent. */
  ghost predicate Removable(s: Store, key: Key)
  {
    && key in s.fids && s.fids[key] in s.what && s.what[s.fids[key]].node !in s.deleted
    && Par(s.parent, s.fids[key]) != null
  }

  /** A granted remove deletes the fid's own entry, and clears the fid. */
  lemma RemoveDone(s: Store, key: Key, answer: Answer)
    requires Inv(s, multiset{}) && Removable(s, key) && answer.Granted?
    ensures var r := s.fids[key];
            var p := Par(s.parent, r);
            && Sound(s, p) && r in At(s.names, s.what[p].node)
            && var n := s.what[p].node;
               && Hangs(s.kids, n, At(s.names, n)[r], s.what[r].node)
               && Remove(s, key, answer) == (Clear(Mark(s, n, At(s.names, n)[r]), key), Done([]))
  {
    hide Inv, Put, Mark, Clear, Hangs;
    var r := s.fids[key];
    var p := Par(s.parent, r);
    Held(s, key);
    ParentAbove(s, multiset{}, r);
    var n, name := s.what[p].node, At(s.names, s.what[p].node)[r];
    MarkInc(s, r, n, name);
    MarkKeeps(s, multiset{}, n, name);
    MarkShape(s, n, name);
    ClearHeld(Mark(s, n, name), key);
  }

  /** Any other remove of a bound fid clears it all the same, and does nothing else. */
  lemma RemoveFails(s: Store, key: Key, answer: Answer)
    requires Inv(s, multiset{}) && !(Removable(s, key) && answer.Granted?)
    ensures Remove(s, key, answer)
         == (Clear(s, key), Fail(if key !in s.fids then EBADF else if !Removable(s, key) then EINVAL else answer.errno))
  {
    hide Inv, Put, Mark;
    if key in s.fids {
      Held(s, key);
      ClearHeld(s, key);
      if Removable(s, key) { ParentAbove(s, multiset{}, s.fids[key]); }
    }
  }

  /** A clunk of a bound fid clears it, and answers what became of its pending attribute; any other is refused. */
  lemma ClunkEnds(s: Store, key: Key, xattr: Answer)
    requires Inv(s, multiset{})
    ensures Clunk(s, key, xattr)
         == (Clear(s, key), if key !in s.fids then Fail(EBADF) else if xattr.Refused? then Fail(xattr.errno)
           else Done([]))
  {
    hide Inv, Put;
    if key in s.fids { Held(s, key); }
  }

  /** The end of a connection unbinds its fids, and no others. */
  lemma {:induction false} StopClears(s: Store, keys: seq<Key>)
    ensures Stop(s, keys).fids == map k | k in s.fids && k !in keys :: s.fids[k]
    decreases |keys|
  {
    hide Clear;
    if keys != [] {
      var front, last := keys[..|keys| - 1], keys[|keys| - 1];
      StopClears(s, front);
      FidAgreement.ClearFids(Stop(s, front), last);
      assert keys == front + [last];
    }
  }

  // ---- the walk to an attribute -----------------------------------------------------------------------

  /** A granted walk to an attribute binds the new fid, and no other, to a new reference with the old one's node and
      file, which is no directory, has no parent and is not open. */
  lemma XattrWalkDone(s: Store, key: Key, newKey: Key, answer: Answer, x: FidRef)
    requires Inv(s, multiset{}) && x !in s.what && x !in s.isOpen && key in s.fids && s.fids[key] in s.what
    requires s.what[s.fids[key]].node !in s.deleted && answer.Granted?
    ensures var (s', reply) := XattrWalk(s, key, newKey, answer, x);
            var r := s.fids[key];
            && reply == Done([]) && s'.fids == s.fids[newKey := x] && s'.kids == s.kids && s'.path == s.path
            && s'.what == s.what[x := Ref(s.what[r].node, s.what[r].file, false)] && Par(s'.parent, x) == null
            && s'.isOpen == s.isOpen
  {
    hide Inv, Put;
    var r := s.fids[key];
    Held(s, key);
    FidAgreement.XattrWalkBinds(s, key, newKey, answer, x);
    var s1 := Install(Spawn(IncRef(s, r), x, Ref(s.what[r].node, s.what[r].file, false), null, s.names, s.path), newKey,
          x);
    PutSame(s1, r);
    if newKey in s.fids {
      PutSame(s1, s.fids[newKey]);
      PutSame(Put(s1, s.fids[newKey]), r);
    }
  }

  lemma XattrWalkFails(s: Store, key: Key, newKey: Key, answer: Answer, x: FidRef)
    requires Inv(s, multiset{})
    requires key in s.fids && s.fids[key] in s.what ==> s.what[s.fids[key]].node in s.deleted || answer.Refused?
    ensures XattrWalk(s, key, newKey, answer, x)
         == (s, Fail(if key !in s.fids || s.fids[key] !in s.what then EBADF
                     else if s.what[s.fids[key]].node in s.deleted then EINVAL else answer.errno))
  {
    hide Inv, Put;
    if key in s.fids { Held(s, key); }
  }

  // ---- rename ------------------------------------------------------------------------------------------

  /** Both fids are bound to undeleted directories, and the source is not open. */
  ghost predicate Directories(s: Store, key: Key, tkey: Key)
  {
    && Directory(s, key) && s.what[s.fids[key]].node in s.kids && tkey in s.fids && Sound(s, s.fids[tkey])
    && s.what[s.fids[tkey]].node !in s.deleted && s.what[s.fids[tkey]].dir
  }

  ghost predicate SameEntry(s: Store, key: Key, oldName: string, tkey: Key, newName: string)
    requires Directories(s, key, tkey)
  {
    s.what[s.fids[key]].node == s.what[s.fids[tkey]].node && oldName == newName
  }

  /** A granted, legal Trenameat of safe names succeeds: an entry that has a node moves as `HasMoved` says, and an
      entry that nobody ever walked to only takes the place of what had the new name. */
  lemma RenameAtDone(s: Store, key: Key, oldName: string, tkey: Key, newName: string, answer: Answer,
                     order: seq<FidRef>)
    requires Inv(s, multiset{}) && Directories(s, key, tkey) && SafeName(oldName) && SafeName(newName)
    requires answer.Granted?
    requires Lists(order, Movers(s.names, s.what[s.fids[key]].node, oldName))
    requires !SameEntry(s, key, oldName, tkey, newName)
    requires var n, tn := s.what[s.fids[key]].node, s.what[s.fids[tkey]].node;
             !Illegal(s, n, oldName, tn, newName)
    ensures var (s', reply) := RenameAt(s, key, oldName, tkey, newName, answer, order);
            var n, t := s.what[s.fids[key]].node, s.fids[tkey];
            && reply == Done([])
            && if oldName in s.kids[n] then HasMoved(s, s', n, oldName, t, newName)
               else s' == Mark(s, s.what[t].node, newName)
  {
    hide Inv, Put, RenameChild, Lists, Illegal, HasMoved, Movers, Mark;
    var r, t := s.fids[key], s.fids[tkey];
    var n, tn := s.what[r].node, s.what[t].node;
    Lookup2(s, key, tkey);
    var s0 := IncRef(IncRef(s, r), t);
    SameLegal(s, s0, n, oldName, tn, newName);
    RenameChildKeeps(s0, multiset{r, t}, n, oldName, t, newName, order);
    if oldName in s.kids[n] {
      RenameAtMoves(s, key, oldName, tkey, newName, answer, order);
    } else {
      NothingToMove(s0, n, oldName, t, newName, order);
      Held(s, key);
      Held(s, tkey);
      MarkInc(IncRef(s, r), t, tn, newName);
      MarkInc(s, r, tn, newName);
      MarkKeeps(s, multiset{}, tn, newName);
      MarkShape(s, tn, newName);
      Held2(Mark(s, tn, newName), r, t);
    }
  }

  lemma NothingToMove(s: Store, f: PathNode, oldName: string, t: FidRef, newName: string, order: seq<FidRef>)
    requires f in s.kids && Sound(s, t) && oldName !in s.kids[f]
    ensures RenameChild(s, f, oldName, t, newName, order) == (Mark(s, s.what[t].node, newName), true)
  {
    hide Graft, PutAll, PathTo, Below;
  }

  /** A name renamed to itself is left alone, whatever the backing file would say. */
  lemma RenameAtSame(s: Store, key: Key, oldName: string, tkey: Key, newName: string, answer: Answer,
                     order: seq<FidRef>)
    requires Inv(s, multiset{}) && Directories(s, key, tkey) && SafeName(oldName)
    requires SameEntry(s, key, oldName, tkey, newName)
    ensures RenameAt(s, key, oldName, tkey, newName, answer, order) == (s, Done([]))
  {
    hide Inv, Put, RenameChild, Illegal;
    Held(s, key);
    Held(s, tkey);
    Held2(s, s.fids[key], s.fids[tkey]);
  }

  /** Any other Trenameat fails and changes nothing. */
  lemma RenameAtFails(s: Store, key: Key, oldName: string, tkey: Key, newName: string, answer: Answer,
                      order: seq<FidRef>)
    requires Inv(s, multiset{})
    requires SafeName(oldName) && SafeName(newName) && Directories(s, key, tkey) ==>
               && !SameEntry(s, key, oldName, tkey, newName)
               && (var n, tn := s.what[s.fids[key]].node, s.what[s.fids[tkey]].node;
                   answer.Refused? || Illegal(s, n, oldName, tn, newName))
    ensures RenameAt(s, key, oldName, tkey, newName, answer, order)
         == (s, Fail(if !SafeName(oldName) || !SafeName(newName) then EINVAL
                     else if key !in s.fids || tkey !in s.fids then EBADF
                     else if !Directories(s, key, tkey) then EINVAL
                     else if answer.Refused? then answer.errno else EINVAL))
  {
    hide Inv, Put, RenameChild, Illegal;
    if key in s.fids && tkey in s.fids {
      Held(s, key);
      Held(s, tkey);
      Held2(s, s.fids[key], s.fids[tkey]);
    }
  }

  /** What Trename asks: an undeleted reference with a parent, and an undeleted directory to go to. */
  ghost predicate MayMove(s: Store, key: Key, tkey: Key)
  {
    && Removable(s, key) && tkey in s.fids && s.fids[tkey] in s.what
    && s.what[s.fids[tkey]].node !in s.deleted && s.what[s.fids[tkey]].dir
  }

  /** The fid's node and the name it hangs at. */
  lemma OwnEntry(s: Store, key: Key)
    requires Inv(s, multiset{}) && Removable(s, key)
    ensures var r := s.fids[key];
            var p := Par(s.parent, r);
            && Sound(s, p) && s.what[p].node !in s.deleted && r in At(s.names, s.what[p].node)
            && Hangs(s.kids, s.what[p].node, At(s.names, s.what[p].node)[r], s.what[r].node)
  {
    hide Inv, Hangs, Reaches;
    FidLive(s, multiset{}, key);
    ParentAbove(s, multiset{}, s.fids[key]);
  }

  /** A granted, legal Trename to a safe name succeeds, and the fid's own entry moves as `HasMoved` says. */
  lemma RenameDone(s: Store, key: Key, tkey: Key, newName: string, answer: Answer, order: seq<FidRef>)
    requires Inv(s, multiset{}) && MayMove(s, key, tkey) && SafeName(newName) && answer.Granted?
    requires RenameOrder(s, key, order)
    requires !Hangs(s.kids, s.what[s.fids[tkey]].node, newName, s.what[s.fids[key]].node)
    requires var r := s.fids[key];
             var p := Par(s.parent, r);
             && p in s.what && s.what[p].node in s.kids && s.what[s.fids[tkey]].node in s.kids
             && r in At(s.names, s.what[p].node)
             && !Illegal(s, s.what[p].node, At(s.names, s.what[p].node)[r], s.what[s.fids[tkey]].node, newName)
    ensures var (s', reply) := Rename(s, key, tkey, newName, answer, order);
            var r := s.fids[key];
            var n := s.what[Par(s.parent, r)].node;
            var oldName := At(s.names, n)[r];
            && reply == Done([]) && oldName in s.kids[n] && s.kids[n][oldName] == s.what[r].node
            && HasMoved(s, s', n, oldName, s.fids[tkey], newName)
  {
    hide Inv, Put, RenameChild, Lists, Illegal, HasMoved, Movers;
    var r, t := s.fids[key], s.fids[tkey];
    OwnEntry(s, key);
    Lookup2(s, key, tkey);
    var n := s.what[Par(s.parent, r)].node;
    var oldName := At(s.names, n)[r];
    var s0 := IncRef(IncRef(s, r), t);
    SameLegal(s, s0, n, oldName, s.what[t].node, newName);
    RenameChildKeeps(s0, multiset{r, t}, n, oldName, t, newName, order);
    RenameMoves(s, key, tkey, newName, answer, order);
  }

  /** A fid that is already where it is to go is left alone. */
  lemma RenameSame(s: Store, key: Key, tkey: Key, newName: string, answer: Answer, order: seq<FidRef>)
    requires Inv(s, multiset{}) && MayMove(s, key, tkey) && SafeName(newName)
    requires s.what[s.fids[tkey]].node in s.kids
    requires Hangs(s.kids, s.what[s.fids[tkey]].node, newName, s.what[s.fids[key]].node)
    ensures Rename(s, key, tkey, newName, answer, order) == (s, Done([]))
  {
    hide Inv, Put, RenameChild, Illegal;
    var r, t := s.fids[key], s.fids[tkey];
    OwnEntry(s, key);
    Held(s, key);
    Held(s, tkey);
    Held2(s, r, t);
    var n := s.what[Par(s.parent, r)].node;
    SameEdge(s, n, At(s.names, n)[r], s.what[t].node, newName);
  }

  /** Any other Trename fails and changes nothing. */
  lemma RenameFails(s: Store, key: Key, tkey: Key, newName: string, answer: Answer, order: seq<FidRef>)
    requires Inv(s, multiset{})
    requires SafeName(newName) && MayMove(s, key, tkey) ==>
               && !Hangs(s.kids, s.what[s.fids[tkey]].node, newName, s.what[s.fids[key]].node)
               && (var r := s.fids[key];
                   var p := Par(s.parent, r);
                   || answer.Refused?
                   || (&& p in s.what && s.what[p].node in s.kids && s.what[s.fids[tkey]].node in s.kids
                       && r in At(s.names, s.what[p].node)
                       && Illegal(s, s.what[p].node, At(s.names, s.what[p].node)[r], s.what[s.fids[tkey]].node,
                            newName)))
    ensures Rename(s, key, tkey, newName, answer, order)
         == (s, Fail(if !SafeName(newName) then EINVAL
                     else if key !in s.fids || tkey !in s.fids then EBADF
                     else if !MayMove(s, key, tkey) then EINVAL
                     else if answer.Refused? then answer.errno else EINVAL))
  {
    hide Inv, Put, RenameChild, Illegal;
    if key in s.fids && tkey in s.fids {
      Held(s, key);
      Held(s, tkey);
      Held2(s, s.fids[key], s.fids[tkey]);
      if Removable(s, key) { OwnEntry(s, key); }
    }
  }

  // ---- names that no request takes ---------------------------------------------------------------------

  /** The names that would lead out of a directory or are none. */
  predicate Leading(name: string)
  {
    name == "" || name == "." || name == ".." || exists i :: 0 <= i < |name| && name[i] == '/'
  }

  /** None of them gets through, and nothing changes. */
  lemma LeadingRefused(s: Store, key: Key, key2: Key, name: string, other: string, step: WalkStep, answer: Answer,
                       node: PathNode, order: seq<FidRef>)
    requires Inv(s, multiset{}) && Leading(name)
    ensures Create(s, key, name, step) == (s, Fail(EINVAL))
    ensures Unlink(s, key, name, answer, node) == (s, Fail(EINVAL))
    ensures RenameAt(s, key, name, key2, other, answer, order) == (s, Fail(EINVAL))
    ensures RenameAt(s, key, other, key2, name, answer, order) == (s, Fail(EINVAL))
    ensures Rename(s, key, key2, name, answer, order) == (s, Fail(EINVAL))
  {
    hide Inv;
    Refuses(name);
  }

  lemma Refuses(name: string)
    ensures Leading(name) <==> !SafeName(name)
  {
  }

  /** Nor as an element of a walk or an attach. */
  lemma LeadingStops(s: Store, key: Key, newKey: Key, names: seq<string>, steps: seq<WalkStep>, step: WalkStep, i: nat)
    requires |steps| == |names| && Inv(s, multiset{}) && FreshSteps(s, [step] + steps) && i < |names|
    requires Leading(names[i])
    ensures var (s', reply) := Walk(s, key, newKey, names, steps, step);
            s' == s && reply
                == Fail(if key !in s.fids then EBADF else if !MayWalk(s, key, newKey) then EBUSY else EINVAL)
    ensures var (s', reply) := Handlers.Attach(s, key, step, names, steps);
            Unnoticed(s, s') && reply == Fail(if step.answer.Refused? then step.answer.errno else EINVAL)
  {
    hide Inv, Walk, Handlers.Attach, FreshSteps, Unnoticed;
    Refuses(names[i]);
    assert !AllSafe(names);
    TailFresh(s, step, steps);
    WalkFails(s, key, newKey, names, steps, step);
    AttachFails(s, key, step, names, steps);
  }

  lemma TailFresh(s: Store, step: WalkStep, steps: seq<WalkStep>)
    requires FreshSteps(s, [step] + steps)
    ensures FreshSteps(s, steps)
  {
    hide FreshStep;
    var all := [step] + steps;
    assert forall i | 0 <= i < |steps| :: all[i + 1] == steps[i];
    forall i | 0 <= i < |steps| ensures FreshStep(s, steps[i]) { assert FreshStep(s, all[i + 1]); }
    forall i, j | 0 <= i < j < |steps|
      ensures steps[i].ref != steps[j].ref && steps[i].node != steps[j].node && steps[i].file != steps[j].file
    {
      assert all[i + 1].ref != all[j + 1].ref && all[i + 1].node != all[j + 1].node
             && all[i + 1].file != all[j + 1].file;
    }
  }
}
