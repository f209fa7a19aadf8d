/** One client's fid pool against one server's fid table, over every interleaving of requests and replies. */
module FidAgreement {
  import opened Options
  import opened Pools
  import Objects
  import Bookkeeping
  import Reshape
  import Handlers
  import Safety

  const NOFID := 0xFFFF_FFFF

  /** The life of a fid the client took from its pool. */
  datatype Phase =
    | Asking         // a walk, attach or xattrwalk naming it is under way
    | Granted        // the server bound it; the reply is on its way
    | Denied         // the server refused; the reply is on its way
    | Open           // the client has a file
    | Closing        // the file is closed on the client's side; a clunk or remove is under way
    | Clunked(ok: bool)  // the server unbound it; the reply is on its way
    | Lost(sent: bool)   // the clunk failed, or no tag was left to send it with: the client gives the fid up
    | Freed          // back in the pool

  datatype Slot = Slot(fid: nat, phase: Phase)

  /** `table` is the server's: it maps a bound fid to the slot it was bound for. */
  datatype State = State(pool: Ids, slots: seq<Slot>, table: map<nat, nat>)

  function Init(): State
  {
    State(Ids([], 1, NOFID), [], map[])
  }

  datatype Step =
    | Ask                        // the client takes a fid
    | Serve(i: nat, ok: bool)    // the server handles the request that is to bind it
    | Learn(i: nat)              // the client gets that reply
    | Withdraw(i: nat)           // no tag was left to send that request with
    | Close(i: nat)
    | Abandon(i: nat)            // the file is closed, but no tag was left to send the clunk or remove with
    | Clunk(i: nat, ok: bool)    // the server handles the clunk or remove: the fid goes, whatever the answer
    | Done(i: nat)               // the client gets that reply

  predicate Enabled(s: State, step: Step)
  {
    if step.Ask? then Take(s.pool).Some?
    else
    step.i < |s.slots| &&
    var p := s.slots[step.i].phase;
    match step
    case Serve(_, _) => p.Asking?
    case Learn(_) => p.Granted? || p.Denied?
    case Withdraw(_) => p.Asking?
    case Close(_) => p.Open?
    case Abandon(_) => p.Open?
    case Clunk(_, ok) => p.Closing? && s.slots[step.i].fid in s.table
    case Done(_) => p.Clunked?
  }

  function Set(s: State, i: nat, p: Phase): State
    requires i < |s.slots|
  {
    s.(slots := s.slots[i := s.slots[i].(phase := p)])
  }

  function Apply(s: State, step: Step): State
    requires Enabled(s, step)
  {
    match step
    case Ask => s.(pool := Taken(s.pool), slots := s.slots + [Slot(Take(s.pool).value, Asking)])
    case Serve(i, ok) => if ok then Set(s, i, Granted).(table := s.table[s.slots[i].fid := i]) else Set(s, i, Denied)
    case Learn(i) =>
      if s.slots[i].phase.Granted? then Set(s, i, Open)
      else Set(s, i, Freed).(pool := Pools.Returned(s.pool, s.slots[i].fid))
    case Withdraw(i) => Set(s, i, Freed).(pool := Pools.Returned(s.pool, s.slots[i].fid))
    case Close(i) => Set(s, i, Closing)
    case Abandon(i) => Set(s, i, Lost(false))
    case Clunk(i, ok) => Set(s, i, Clunked(ok)).(table := s.table - {s.slots[i].fid})
    case Done(i) =>
      if s.slots[i].phase.ok then Set(s, i, Freed).(pool := Pools.Returned(s.pool, s.slots[i].fid))
      else Set(s, i, Lost(true))
  }

  // ---- the invariant -------------------------------------------------------------------------

  predicate Binds(p: Phase)
  {
    p.Granted? || p.Open? || p.Closing? || p == Lost(false)
  }

  ghost function Used(slots: seq<Slot>): set<nat>
  {
    set i | 0 <= i < |slots| && !slots[i].phase.Freed? :: slots[i].fid
  }

  ghost predicate PoolSound(s: State)
  {
    && Apart(s.pool, 1, Used(s.slots)) && s.pool.limit == NOFID
    && (forall i, j | 0 <= i < j < |s.slots| && !s.slots[i].phase.Freed? && !s.slots[j].phase.Freed? ::
          s.slots[i].fid != s.slots[j].fid)
  }

  /** The table binds exactly the fids that are granted, open, closing or abandoned, each to its own slot. */
  ghost predicate TableSound(s: State)
  {
    && (forall i | 0 <= i < |s.slots| && Binds(s.slots[i].phase) ::
          s.slots[i].fid in s.table && s.table[s.slots[i].fid] == i)
    && (forall f | f in s.table ::
          s.table[f] < |s.slots| && s.slots[s.table[f]].fid == f && Binds(s.slots[s.table[f]].phase))
  }

  ghost predicate Inv(s: State)
  {
    PoolSound(s) && TableSound(s)
  }

  lemma UsedMore(slots: seq<Slot>, slot: Slot)
    requires !slot.phase.Freed?
    ensures Used(slots + [slot]) == Used(slots) + {slot.fid}
    ensures forall i | 0 <= i < |slots| && !slots[i].phase.Freed? :: slots[i].fid in Used(slots)
  {
    var all := slots + [slot];
    forall f | f in Used(all) ensures f in Used(slots) + {slot.fid} {
      var i :| 0 <= i < |all| && !all[i].phase.Freed? && all[i].fid == f;
      if i < |slots| { assert slots[i].fid == f; }
    }
    forall f | f in Used(slots) + {slot.fid} ensures f in Used(all) {
      if f in Used(slots) {
        var i :| 0 <= i < |slots| && !slots[i].phase.Freed? && slots[i].fid == f;
        assert all[i].fid == f;
      } else {
        assert all[|slots|].fid == f;
      }
    }
  }

  lemma UsedSet(slots: seq<Slot>, i: nat, p: Phase)
    requires i < |slots| && !slots[i].phase.Freed?
    requires forall i, j | 0 <= i < j < |slots| && !slots[i].phase.Freed? && !slots[j].phase.Freed? ::
               slots[i].fid != slots[j].fid
    ensures slots[i].fid in Used(slots)
    ensures Used(slots[i := slots[i].(phase := p)]) == if p.Freed? then Used(slots) - {slots[i].fid} else Used(slots)
  {
    var all := slots[i := slots[i].(phase := p)];
    forall f | f in Used(all) ensures f in Used(slots) && (p.Freed? ==> f != slots[i].fid) {
      var j :| 0 <= j < |all| && !all[j].phase.Freed? && all[j].fid == f;
      assert slots[j].fid == f;
    }
    forall f | f in Used(slots) && (p.Freed? ==> f != slots[i].fid) ensures f in Used(all) {
      var j :| 0 <= j < |slots| && !slots[j].phase.Freed? && slots[j].fid == f;
      assert all[j].fid == f;
    }
  }

  lemma PoolKept(s: State, step: Step)
    requires Inv(s) && Enabled(s, step)
    ensures PoolSound(Apply(s, step))
  {
    hide Apart, TableSound;
    var s' := Apply(s, step);
    if step.Ask? {
      TakeApart(s.pool, 1, Used(s.slots));
      UsedMore(s.slots, s'.slots[|s.slots|]);
    } else {
      UsedSet(s.slots, step.i, s'.slots[step.i].phase);
      if s'.slots[step.i].phase.Freed? { ReturnApart(s.pool, 1, Used(s.slots), s.slots[step.i].fid); }
    }
  }

  lemma AskMoves(s: State)
    requires Enabled(s, Ask)
    ensures var s' := Apply(s, Ask);
            && s'.table == s.table && |s'.slots| == |s.slots| + 1 && !Binds(s'.slots[|s.slots|].phase)
            && forall j | 0 <= j < |s.slots| :: s'.slots[j] == s.slots[j]
  {
  }

  lemma SlotUsed(s: State, step: Step)
    requires Enabled(s, step) && !step.Ask?
    ensures step.i < |s.slots| && !s.slots[step.i].phase.Freed?
  {
  }

  /** A step touches one slot, and the table at most at its fid. */
  lemma SlotMoves(s: State, step: Step)
    requires Inv(s) && Enabled(s, step) && !step.Ask?
    ensures var s', i := Apply(s, step), step.i;
            && i < |s.slots| == |s'.slots| && (forall j | 0 <= j < |s.slots| && j != i :: s'.slots[j] == s.slots[j])
            && s'.slots[i].fid == s.slots[i].fid && (Binds(s'.slots[i].phase) <==> s.slots[i].fid in s'.table)
            && (s.slots[i].fid in s'.table ==> s'.table[s.slots[i].fid] == i)
            && (forall f | f in s'.table && f != s.slots[i].fid :: f in s.table && s'.table[f] == s.table[f])
            && (forall f | f in s.table && f != s.slots[i].fid :: f in s'.table)
  {
    hide PoolSound, Taken, Take;
    SlotUsed(s, step);
    OwnFid(s, step.i);
  }

  lemma TableKept(s: State, step: Step)
    requires Inv(s) && Enabled(s, step)
    ensures TableSound(Apply(s, step))
  {
    hide PoolSound, Apply, Enabled;
    if step.Ask? {
      AskMoves(s);
    } else {
      SlotMoves(s, step);
      OwnFid(s, step.i) by { SlotUsed(s, step); }
    }
  }

  /** Nobody else uses the fid of a slot that is not freed. */
  lemma OwnFid(s: State, i: nat)
    requires Inv(s) && i < |s.slots| && !s.slots[i].phase.Freed?
    ensures forall j | 0 <= j < |s.slots| && j != i && !s.slots[j].phase.Freed? :: s.slots[j].fid != s.slots[i].fid
    ensures s.slots[i].fid in s.table ==> s.table[s.slots[i].fid] == i
  {
    hide Apart, Used;
  }

  lemma StepKeeps(s: State, step: Step)
    requires Inv(s) && Enabled(s, step)
    ensures Inv(Apply(s, step))
  {
    hide PoolSound, TableSound, Apply, Enabled;
    PoolKept(s, step);
    TableKept(s, step);
  }

  ghost predicate Run(s: State, steps: seq<Step>, s': State)
    decreases |steps|
  {
    if steps == [] then s == s'
    else Enabled(s, steps[0]) && Run(Apply(s, steps[0]), steps[1..], s')
  }

  lemma {:induction false} RunKeeps(s: State, steps: seq<Step>, s': State)
    requires Inv(s) && Run(s, steps, s')
    ensures Inv(s')
    decreases |steps|
  {
    hide Inv, Enabled, Apply;
    if steps != [] {
      StepKeeps(s, steps[0]);
      RunKeeps(Apply(s, steps[0]), steps[1..], s');
    }
  }

  lemma InitInv()
    ensures Inv(Init())
  {
  }

  /** In every reachable state. */
  lemma Guarantees(steps: seq<Step>, s: State)
    requires Run(Init(), steps, s)
    // open files hold distinct fids, each bound at the server, to that very file
    ensures forall i | 0 <= i < |s.slots| && s.slots[i].phase.Open? ::
              1 <= s.slots[i].fid < NOFID && s.slots[i].fid in s.table && s.table[s.slots[i].fid] == i
    ensures forall i, j | 0 <= i < j < |s.slots| && s.slots[i].phase.Open? && s.slots[j].phase.Open? ::
              s.slots[i].fid != s.slots[j].fid
    // what the pool can hand out is not bound, so binding it displaces nothing
    ensures forall f | f in s.pool.cache || f >= s.pool.start :: f !in s.table
    ensures forall i | 0 <= i < |s.slots| && s.slots[i].phase.Asking? :: s.slots[i].fid !in s.table
    // a clunk always finds its fid bound
    ensures forall i, ok | 0 <= i < |s.slots| && s.slots[i].phase.Closing? :: Enabled(s, Clunk(i, ok))
    // a lost fid cannot be handed out again, and it is still bound exactly when its clunk was never sent
    ensures forall i | 0 <= i < |s.slots| && s.slots[i].phase.Lost? ::
              && s.slots[i].fid !in s.pool.cache && s.slots[i].fid < s.pool.start
              && (s.slots[i].fid in s.table <==> !s.slots[i].phase.sent)
    // fid 0, the one the client's Lock sends, is never bound
    ensures 0 !in s.table
  {
    hide Apart, Used;
    InitInv();
    RunKeeps(Init(), steps, s);
    UsedFids(s);
    PoolFids(s);
  }

  /** Nor is it ever: what is lost stays lost. */
  lemma {:induction false} LostForGood(s: State, steps: seq<Step>, s': State, i: nat)
    requires Inv(s) && Run(s, steps, s') && i < |s.slots| && s.slots[i].phase.Lost?
    ensures Inv(s') && i < |s'.slots| && s'.slots[i] == s.slots[i]
    ensures forall j | 0 <= j < |s'.slots| && j != i && !s'.slots[j].phase.Freed? :: s'.slots[j].fid != s.slots[i].fid
    decreases |steps|
  {
    hide Inv;
    if steps == [] {
      OwnFid(s, i);
    } else {
      StepKeeps(s, steps[0]);
      LostForGood(Apply(s, steps[0]), steps[1..], s', i);
    }
  }

  /** A file opened and closed while every tag is taken: its fid stays bound at the server for good. */
  lemma AbandonedStaysBound()
    ensures var steps := [Ask, Serve(0, true), Learn(0), Abandon(0)];
            exists s :: Run(Init(), steps, s) && |s.slots| == 1 && s.slots[0] == Slot(1, Lost(false)) && 1 in s.table
  {
    hide Run;
    var s1 := Apply(Init(), Ask);
    var s2 := Apply(s1, Serve(0, true));
    var s3 := Apply(s2, Learn(0));
    var s4 := Apply(s3, Abandon(0));
    var t3 := [Abandon(0)];
    var t2 := [Learn(0)] + t3;
    var t1 := [Serve(0, true)] + t2;
    var t0 := [Ask] + t1;
    assert t0[1..] == t1 && t1[1..] == t2 && t2[1..] == t3 && t3[1..] == [];
    RunStep(s4, [], s4);
    RunStep(s3, t3, s4);
    RunStep(s2, t2, s4);
    RunStep(s1, t1, s4);
    RunStep(Init(), t0, s4);
    assert t0 == [Ask, Serve(0, true), Learn(0), Abandon(0)];
  }

  lemma RunStep(s: State, steps: seq<Step>, s': State)
    ensures Run(s, steps, s') <==>
              if steps == [] then s == s' else Enabled(s, steps[0]) && Run(Apply(s, steps[0]), steps[1..], s')
  {
    hide Enabled, Apply;
  }

  lemma UsedFids(s: State)
    requires Inv(s)
    ensures forall i | 0 <= i < |s.slots| && !s.slots[i].phase.Freed? :: s.slots[i].fid in Used(s.slots)
    ensures forall f | f in s.table :: f in Used(s.slots)
  {
    hide Apart;
    forall f | f in s.table ensures f in Used(s.slots) { assert s.slots[s.table[f]].fid == f; }
  }

  lemma PoolFids(s: State)
    requires Inv(s)
    ensures forall f | f in Used(s.slots) :: 1 <= f < NOFID && f < s.pool.start && f !in s.pool.cache
  {
    hide Used, TableSound;
  }

  // ---- what the server's handlers do to its table ------------------------------------------------

  lemma PutFids(s: Bookkeeping.Store, r: Objects.FidRef)
    ensures Handlers.Put(s, r).fids == s.fids
  {
  }

  /** A walk that succeeds binds its new fid and changes no other; one that fails changes nothing. */
  lemma WalkBinds(s: Bookkeeping.Store, key: Bookkeeping.Key, newKey: Bookkeeping.Key, names: seq<string>,
                  steps: seq<Handlers.WalkStep>, clone: Handlers.WalkStep)
    requires |steps| == |names|
    ensures var (s', reply) := Handlers.Walk(s, key, newKey, names, steps, clone);
            && (reply.Done? ==> newKey in s'.fids && s'.fids == s.fids[newKey := s'.fids[newKey]])
            && (reply.Fail? ==> s'.fids == s.fids)
  {
    hide Handlers.Put, Handlers.WalkLoop, Handlers.CloneOf;
    if key in s.fids {
      var r := s.fids[key];
      var s0 := Bookkeeping.IncRef(s, r);
      PutFids(s0, r);
      var (s1, w) := Handlers.DoWalk(s0, r, names, steps, clone);
      DoWalkFids(s0, r, names, steps, clone);
      PutFids(s1, r);
      if w.Reached? {
        var s2 := Handlers.Insert(s1, newKey, w.ref);
        InsertBinds(s1, newKey, w.ref);
        PutFids(s2, w.ref);
        PutFids(Handlers.Put(s2, w.ref), r);
      }
    }
  }

  /** The same for an attach. */
  lemma AttachBinds(s: Bookkeeping.Store, key: Bookkeeping.Key, root: Handlers.WalkStep, names: seq<string>,
                    steps: seq<Handlers.WalkStep>)
    requires |steps| == |names|
    ensures var (s', reply) := Handlers.Attach(s, key, root, names, steps);
            && (reply.Done? ==> key in s'.fids && s'.fids == s.fids[key := s'.fids[key]])
            && (reply.Fail? ==> s'.fids == s.fids)
  {
    hide Handlers.Put, Handlers.WalkLoop, Handlers.CloneOf, Handlers.Insert, Bookkeeping.Spawn;
    if root.answer.Granted? {
      var w, path := Bookkeeping.Ref(s.root, root.file, root.answer.isDir), s.path[root.file := []];
      var s0 := Bookkeeping.Spawn(s, root.ref, w, null, s.names, path);
      Safety.SpawnFids(s, root.ref, w, null, s.names, path);
      InsertBinds(s0, key, root.ref);
      PutFids(Handlers.Insert(s0, key, root.ref), root.ref);
      var (s1, o) := Handlers.DoWalk(s0, root.ref, names, steps, root);
      DoWalkFids(s0, root.ref, names, steps, root);
      PutFids(s1, root.ref);
      if o.Reached? {
        var s2 := Handlers.Insert(s1, key, o.ref);
        InsertBinds(s1, key, o.ref);
        PutFids(s2, o.ref);
        PutFids(Handlers.Put(s2, o.ref), root.ref);
      }
    }
  }

  /** And for the walk to an extended attribute. */
  lemma XattrWalkBinds(s: Bookkeeping.Store, key: Bookkeeping.Key, newKey: Bookkeeping.Key, answer: Handlers.Answer,
                       x: Objects.FidRef)
    ensures var (s', reply) := Handlers.XattrWalk(s, key, newKey, answer, x);
            && (reply.Done? ==> s'.fids == s.fids[newKey := x])
            && (reply.Fail? ==> s'.fids == s.fids)
  {
    hide Handlers.Put, Bookkeeping.Spawn;
    if key in s.fids && Handlers.Sound(s, s.fids[key]) {
      var r := s.fids[key];
      var s0 := Bookkeeping.IncRef(s, r);
      PutFids(s0, r);
      var w := Bookkeeping.Ref(s.what[r].node, s.what[r].file, false);
      Safety.SpawnFids(s0, x, w, null, s.names, s.path);
      var s1 := Bookkeeping.Install(Bookkeeping.Spawn(s0, x, w, null, s.names, s.path), newKey, x);
      PutFids(s1, r);
      if newKey in s.fids {
        PutFids(s1, s.fids[newKey]);
        PutFids(Handlers.Put(s1, s.fids[newKey]), r);
      }
    }
  }

  lemma InsertBinds(s: Bookkeeping.Store, key: Bookkeeping.Key, r: Objects.FidRef)
    ensures Handlers.Insert(s, key, r).fids == s.fids[key := r]
  {
    hide Handlers.Put;
    if key in s.fids { PutFids(Bookkeeping.Install(Bookkeeping.IncRef(s, r), key, r), s.fids[key]); }
  }

  lemma DoWalkFids(s: Bookkeeping.Store, r: Objects.FidRef, names: seq<string>, steps: seq<Handlers.WalkStep>,
                   clone: Handlers.WalkStep)
    requires |steps| == |names|
    ensures Handlers.DoWalk(s, r, names, steps, clone).0.fids == s.fids
  {
    hide Handlers.WalkLoop;
    WalkLoopFids(Bookkeeping.IncRef(s, r), r, names, steps, []);
  }

  lemma {:induction false} WalkLoopFids(s: Bookkeeping.Store, w: Objects.FidRef, names: seq<string>,
                                        steps: seq<Handlers.WalkStep>, qids: seq<nat>)
    requires |steps| == |names|
    ensures Handlers.WalkLoop(s, w, names, steps, qids).0.fids == s.fids
    decreases |names|
  {
    hide Handlers.Put, Handlers.Enter;
    PutFids(s, w);
    if names != [] && Handlers.Sound(s, w) {
      EnterFids(s, w, names[0], steps[0]);
      WalkLoopFids(Handlers.Enter(s, w, names[0], steps[0]), steps[0].ref, names[1..], steps[1..],
                   if steps[0].answer.Granted? then qids + [steps[0].answer.qid] else qids);
    }
  }

  lemma EnterFids(s: Bookkeeping.Store, w: Objects.FidRef, name: string, step: Handlers.WalkStep)
    requires Handlers.Sound(s, w)
    ensures Handlers.Enter(s, w, name, step).fids == s.fids
  {
  }

  /** A clunk of a bound fid unbinds it, whatever it answers. */
  lemma ClunkUnbinds(s: Bookkeeping.Store, key: Bookkeeping.Key, xattr: Handlers.Answer)
    ensures Handlers.Clunk(s, key, xattr).0.fids == s.fids - {key}
  {
    hide Handlers.Put;
    if key in s.fids {
      var r := s.fids[key];
      PutFids(Bookkeeping.IncRef(s, r), r);
      var s1 := Handlers.Put(Bookkeeping.IncRef(s, r), r);
      PutFids(Bookkeeping.Unbind(s1, key), r);
    }
  }

  /** So does a remove, whether or not the file could be removed. */
  lemma RemoveUnbinds(s: Bookkeeping.Store, key: Bookkeeping.Key, answer: Handlers.Answer)
    ensures var (s', reply) := Handlers.Remove(s, key, answer); !reply.Panic? ==> s'.fids == s.fids - {key}
  {
    hide Handlers.Put, Reshape.Mark;
    if key in s.fids && Handlers.Sound(s, s.fids[key]) {
      var r := s.fids[key];
      var s0 := Bookkeeping.IncRef(s, r);
      var p := Bookkeeping.Par(s.parent, r);
      ClearFids(s0, key);
      PutFids(Handlers.Clear(s0, key), r);
      if p != null && Handlers.Sound(s, p) && r in Bookkeeping.At(s.names, s.what[p].node) {
        var s1 := Reshape.Mark(s0, s.what[p].node, Bookkeeping.At(s.names, s.what[p].node)[r]);
        MarkFids(s0, s.what[p].node, Bookkeeping.At(s.names, s.what[p].node)[r]);
        ClearFids(s1, key);
        PutFids(Handlers.Clear(s1, key), r);
      }
    }
  }

  lemma MarkFids(s: Bookkeeping.Store, n: Objects.PathNode, name: string)
    requires n in s.kids
    ensures Reshape.Mark(s, n, name).fids == s.fids
  {
  }

  lemma ClearFids(s: Bookkeeping.Store, key: Bookkeeping.Key)
    ensures Handlers.Clear(s, key).fids == s.fids - {key}
  {
    hide Handlers.Put;
    if key in s.fids { PutFids(Bookkeeping.Unbind(s, key), s.fids[key]); }
  }
}
