/** The server's locking discipline: one rename lock, and one operation lock per path node, both read-write locks
    whose waiting writers hold back new readers. */
module Locks {

  datatype Mode = R | W

  datatype Lock = Rename | Node(n: nat)

  datatype Req = Req(lock: Lock, mode: Mode)

  /** safelyRead, safelyWrite, tunlinkat (which goes on to lock the child), and safelyGlobal. */
  datatype Kind = ReadOp(n: nat) | WriteOp(n: nat) | UnlinkOp(n: nat) | GlobalOp

  /** An announced writer has queued for its lock and keeps new readers out. */
  datatype Phase = Acquiring | Announced | Running | Releasing

  /** The first `got` locks of `plan` are held. */
  datatype Thread = Thread(kind: Kind, plan: seq<Req>, got: nat, phase: Phase)

  /** `depth` is a node's distance from the root. */
  datatype State = State(threads: seq<Thread>, depth: nat -> nat)

  function Plan(kind: Kind): seq<Req>
  {
    match kind
    case ReadOp(n) => [Req(Rename, R), Req(Node(n), R)]
    case WriteOp(n) => [Req(Rename, R), Req(Node(n), W)]
    case UnlinkOp(n) => [Req(Rename, R), Req(Node(n), W)]
    case GlobalOp => [Req(Rename, W)]
  }

  predicate Holds(t: Thread, l: Lock, m: Mode)
  {
    exists i :: 0 <= i < t.got && i < |t.plan| && t.plan[i] == Req(l, m)
  }

  predicate Wants(t: Thread)
  {
    (t.phase.Acquiring? || t.phase.Announced?) && t.got < |t.plan|
  }

  /** Queued as a writer for `l`, or having it. */
  predicate Claims(t: Thread, l: Lock)
  {
    Holds(t, l, W) || (t.phase.Announced? && t.got < |t.plan| && t.plan[t.got] == Req(l, W))
  }

  // ---- steps -----------------------------------------------------------------------------------

  datatype Step =
    | Begin(kind: Kind)
    | Announce(t: nat)
    | Acquire(t: nat)
    | Descend(t: nat, c: nat)
    | Finish(t: nat)
    | Release(t: nat)
    | Move(t: nat, depth: nat -> nat)   // a global operation may move subtrees

  predicate Enabled(s: State, step: Step)
  {
    step.Begin? ||
    (step.t < |s.threads| &&
     var t := s.threads[step.t];
     match step
     case Announce(i) =>
       t.phase.Acquiring? && t.got < |t.plan| && t.plan[t.got].mode.W?
       && forall j | 0 <= j < |s.threads| && j != i :: !Claims(s.threads[j], t.plan[t.got].lock)
     case Acquire(i) =>
       Wants(t) &&
       var l := t.plan[t.got].lock;
       if t.plan[t.got].mode.R? then
         forall j | 0 <= j < |s.threads| && j != i :: !Claims(s.threads[j], l)
       else
         t.phase.Announced? && forall j | 0 <= j < |s.threads| && j != i ::
             !Holds(s.threads[j], l, R) && !Holds(s.threads[j], l, W)
     case Descend(_, c) =>
       t.phase.Running? && t.kind.UnlinkOp? && |t.plan| == 2 && s.depth(c) == s.depth(t.kind.n) + 1
     case Finish(_) => t.phase.Running?
     case Release(_) => t.phase.Releasing? && t.got > 0
     case Move(_, _) => t.phase.Running? && t.kind.GlobalOp?)
  }

  function Set(s: State, i: nat, t: Thread): State
    requires i < |s.threads|
  {
    s.(threads := s.threads[i := t])
  }

  function Apply(s: State, step: Step): State
    requires Enabled(s, step)
  {
    match step
    case Begin(kind) => s.(threads := s.threads + [Thread(kind, Plan(kind), 0, Acquiring)])
    case Announce(i) => Set(s, i, s.threads[i].(phase := Announced))
    case Acquire(i) =>
      var t := s.threads[i];
      Set(s, i, t.(got := t.got + 1, phase := if t.got + 1 == |t.plan| then Running else Acquiring))
    case Descend(i, c) =>
      var t := s.threads[i];
      Set(s, i, t.(plan := t.plan + [Req(Node(c), W)], phase := Acquiring))
    case Finish(i) => Set(s, i, s.threads[i].(phase := Releasing))
    case Release(i) => Set(s, i, s.threads[i].(got := s.threads[i].got - 1))
    case Move(_, d) => s.(depth := d)
  }

  // ---- the invariant --------------------------------------------------------------------------------

  function Level(depth: nat -> nat, l: Lock): nat
  {
    match l
    case Rename => 0
    case Node(n) => 1 + depth(n)
  }

  /** A plan starts as its kind says; an unlink may have added the child. */
  predicate Planned(t: Thread)
  {
    && t.got <= |t.plan| && (t.phase.Running? ==> t.got == |t.plan|)
    && (t.phase.Announced? ==> t.got < |t.plan| && t.plan[t.got].mode.W?)
    && (t.phase.Acquiring? ==> t.got < |t.plan|)
    && (t.plan == Plan(t.kind)
        || (t.kind.UnlinkOp? && |t.plan| == 3 && t.plan[..2] == Plan(t.kind) && t.plan[2].lock.Node?
          && t.plan[2].mode.W?
            && (t.phase.Releasing? || t.got >= 2)))
  }

  /** Locks are taken from the root downwards. */
  ghost predicate Downwards(depth: nat -> nat, t: Thread)
  {
    t.got > 0 ==> forall i, j | 0 <= i < j < |t.plan| :: Level(depth, t.plan[i].lock) < Level(depth, t.plan[j].lock)
  }

  ghost predicate Exclusive(s: State)
  {
    forall i, j, l | 0 <= i < |s.threads| && 0 <= j < |s.threads| && i != j && Holds(s.threads[i], l, W) ::
      !Holds(s.threads[j], l, R) && !Claims(s.threads[j], l)
  }

  ghost predicate OneClaim(s: State)
  {
    forall i, j, l | 0 <= i < |s.threads| && 0 <= j < |s.threads| && i != j && Claims(s.threads[i], l) ::
        !Claims(s.threads[j], l)
  }

  ghost predicate Inv(s: State)
  {
    && (forall i | 0 <= i < |s.threads| :: Planned(s.threads[i]) && Downwards(s.depth, s.threads[i]))
    && Exclusive(s) && OneClaim(s)
  }

  // ---- what a step changes about holding and claiming -------------------------------------------------

  lemma Gains(t: Thread, l: Lock, m: Mode)
    requires t.got < |t.plan|
    ensures Holds(t.(got := t.got + 1, phase := Running), l, m) <==> Holds(t, l, m) || t.plan[t.got] == Req(l, m)
    ensures Holds(t.(got := t.got + 1, phase := Acquiring), l, m) <==> Holds(t, l, m) || t.plan[t.got] == Req(l, m)
  {
    if Holds(t, l, m) {
      var i :| 0 <= i < t.got && i < |t.plan| && t.plan[i] == Req(l, m);
      assert t.(got := t.got + 1, phase := Running).plan[i] == Req(l, m);
    }
    if t.plan[t.got] == Req(l, m) {
      assert t.(got := t.got + 1, phase := Running).plan[t.got] == Req(l, m);
    }
  }

  /** What thread `i` may newly hold or claim after a step: the lock it acquired or announced. */
  lemma NoOtherGain(s: State, step: Step, i: nat, l: Lock)
    requires Inv(s) && Enabled(s, step) && i < |Apply(s, step).threads|
    ensures var t' := Apply(s, step).threads[i];
            if i == |s.threads| then !Holds(t', l, R) && !Claims(t', l)
            else
              var t := s.threads[i];
              && (Holds(t', l, R) ==>
                    Holds(t, l, R) || (step == Acquire(i) && t.got < |t.plan| && t.plan[t.got] == Req(l, R)))
              && (Holds(t', l, W) ==>
                    Holds(t, l, W) || (step == Acquire(i) && t.got < |t.plan| && t.plan[t.got] == Req(l, W)))
              && (Claims(t', l) ==>
                    Claims(t, l) || (step == Announce(i) && t.got < |t.plan| && t.plan[t.got] == Req(l, W)))
  {
    hide Exclusive, OneClaim, Downwards;
    var s' := Apply(s, step);
    if i < |s.threads| {
      assert Planned(s.threads[i]);
      var t := s.threads[i];
      if step == Acquire(i) {
        Gains(t, l, R);
        Gains(t, l, W);
      } else if step.Begin? || i != step.t {
        assert s'.threads[i] == t;
      } else if step.Descend? {
        assert forall k | 0 <= k < t.got :: s'.threads[i].plan[k] == t.plan[k];
      }
    }
  }

  lemma ExclusiveKept(s: State, step: Step)
    requires Inv(s) && Enabled(s, step)
    ensures Exclusive(Apply(s, step)) && OneClaim(Apply(s, step))
  {
    hide Downwards, Planned, Holds;
    var s' := Apply(s, step);
    forall i, j, l | 0 <= i < |s'.threads| && 0 <= j < |s'.threads| && i != j && Claims(s'.threads[i], l)
      ensures !Claims(s'.threads[j], l) && (Holds(s'.threads[i], l, W) ==> !Holds(s'.threads[j], l, R))
    {
      NoOtherGain(s, step, i, l);
      NoOtherGain(s, step, j, l);
    }
  }

  lemma PlansKept(s: State, step: Step)
    requires Inv(s) && Enabled(s, step)
    ensures forall i | 0 <= i < |Apply(s, step).threads| ::
              Planned(Apply(s, step).threads[i]) && Downwards(Apply(s, step).depth, Apply(s, step).threads[i])
  {
    hide Exclusive, OneClaim;
    var s' := Apply(s, step);
    if step.Move? {
      forall i | 0 <= i < |s.threads| ensures Downwards(s'.depth, s.threads[i]) {
        if i != step.t { Excluded(s, step.t, i); }
      }
    }
  }

  lemma RenameFirst(t: Thread)
    requires Planned(t) && t.got > 0
    ensures t.plan[0].lock == Rename && (t.plan[0].mode == W <==> t.kind.GlobalOp?) && Holds(t, Rename, t.plan[0].mode)
  {
    assert t.plan[0] == Plan(t.kind)[0];
  }

  /** A running global operation has everyone else out. */
  lemma Excluded(s: State, i: nat, j: nat)
    requires Inv(s) && i < |s.threads| && j < |s.threads| && i != j && s.threads[i].phase.Running?
    requires s.threads[i].kind.GlobalOp?
    ensures s.threads[j].got == 0
  {
    hide Downwards, OneClaim, Holds;
    assert Planned(s.threads[i]) && Planned(s.threads[j]);
    RenameFirst(s.threads[i]);
    if s.threads[j].got > 0 { RenameFirst(s.threads[j]); }
  }

  lemma StepKeeps(s: State, step: Step)
    requires Inv(s) && Enabled(s, step)
    ensures Inv(Apply(s, step))
  {
    hide Apply, Enabled, Planned, Downwards, Exclusive, OneClaim;
    ExclusiveKept(s, step);
    PlansKept(s, step);
  }

  // ---- whole runs --------------------------------------------------------------------------------------

  ghost predicate Run(s: State, steps: seq<Step>, s': State)
    decreases |steps|
  {
    if steps == [] then s == s'
    else Enabled(s, steps[0]) && Run(Apply(s, steps[0]), steps[1..], s')
  }

  lemma {:induction false} RunKeeps(s: State, steps: seq<Step>, s': State)
    requires Inv(s) && Run(s, steps, s')
    ensures Inv(s')
    decreases |steps|
  {
    hide Inv, Enabled, Apply;
    if steps != [] {
      StepKeeps(s, steps[0]);
      RunKeeps(Apply(s, steps[0]), steps[1..], s');
    }
  }

  lemma InitInv(depth: nat -> nat)
    ensures Inv(State([], depth))
  {
  }

  /** The node an operation's guarantee is about. */
  predicate On(t: Thread, n: nat)
  {
    t.phase.Running? && !t.kind.GlobalOp? && (t.kind.n == n || (|t.plan| == 3 && t.plan[2].lock == Node(n)))
  }

  lemma OnHolds(t: Thread, n: nat)
    requires Planned(t) && On(t, n)
    ensures Holds(t, Node(n), R) || Holds(t, Node(n), W)
    ensures !t.kind.ReadOp? ==> Holds(t, Node(n), W)
  {
    if t.kind.n == n {
      assert t.plan[1] == Plan(t.kind)[1];
    } else {
      assert t.plan[2] == Req(Node(n), W);
    }
  }

  /** The guarantees documented for backing files, in every reachable state: a global operation runs alone, and an
      operation that writes a node (or unlinks it) excludes every other one on that node. */
  lemma Guarantees(steps: seq<Step>, depth: nat -> nat, s: State, i: nat, j: nat, n: nat)
    requires Run(State([], depth), steps, s) && i < |s.threads| && j < |s.threads| && i != j
    ensures s.threads[i].phase.Running? && s.threads[i].kind.GlobalOp? ==>
              s.threads[j].got == 0 && !s.threads[j].phase.Running?
    ensures On(s.threads[i], n) && !s.threads[i].kind.ReadOp? ==> !On(s.threads[j], n)
  {
    hide Downwards, OneClaim, Holds, On;
    InitInv(depth);
    RunKeeps(State([], depth), steps, s);
    assert Planned(s.threads[i]) && Planned(s.threads[j]);
    if s.threads[i].phase.Running? && s.threads[i].kind.GlobalOp? { Excluded(s, i, j); PlanSome(s.threads[j]); }
    if On(s.threads[i], n) && !s.threads[i].kind.ReadOp? && On(s.threads[j], n) {
      OnHolds(s.threads[i], n);
      OnHolds(s.threads[j], n);
    }
  }

  lemma PlanSome(t: Thread)
    requires Planned(t)
    ensures |t.plan| > 0
  {
  }

  // ---- nobody waits in a circle -----------------------------------------------------------------------------

  ghost function Highest(depth: nat -> nat, plan: seq<Req>): (h: nat)
    ensures forall i | 0 <= i < |plan| :: Level(depth, plan[i].lock) <= h
  {
    if plan == [] then 0
    else
      var rest := Highest(depth, plan[..|plan| - 1]);
      var l := Level(depth, plan[|plan| - 1].lock);
      if rest < l then l else rest
  }

  ghost function Top(depth: nat -> nat, threads: seq<Thread>): (h: nat)
    ensures forall i, k | 0 <= i < |threads| && 0 <= k < |threads[i].plan| :: Level(depth, threads[i].plan[k].lock) <= h
  {
    if threads == [] then 0
    else
      var rest := Top(depth, threads[..|threads| - 1]);
      var l := Highest(depth, threads[|threads| - 1].plan);
      if rest < l then l else rest
  }

  ghost predicate Movable(s: State)
  {
    exists step: Step :: !step.Begin? && !step.Move? && Enabled(s, step)
  }

  /** Whoever holds a lock can move or waits for a deeper one. */
  lemma HolderGoesDeeper(s: State, h: nat, l: Lock, m: Mode)
    requires Inv(s) && h < |s.threads| && Holds(s.threads[h], l, m)
    ensures Movable(s)
            || (Wants(s.threads[h]) && Level(s.depth, s.threads[h].plan[s.threads[h].got].lock) > Level(s.depth, l))
  {
    hide Exclusive, OneClaim;
    var t := s.threads[h];
    assert Planned(t) && Downwards(s.depth, t);
    var i :| 0 <= i < t.got && i < |t.plan| && t.plan[i] == Req(l, m);
    if t.phase.Running? {
      assert Enabled(s, Finish(h));
    } else if t.phase.Releasing? {
      assert Enabled(s, Release(h));
    }
  }

  /** Follow the wait from a thread to one that can move: each turn of the path leads deeper into the tree. */
  lemma {:induction false} Unblocked(s: State, i: nat)
    requires Inv(s) && i < |s.threads| && Wants(s.threads[i])
    ensures Movable(s)
    decreases Top(s.depth, s.threads) - Level(s.depth, s.threads[i].plan[s.threads[i].got].lock)
  {
    hide Inv, Holds, Claims, Level, Top;
    var t := s.threads[i];
    var l := t.plan[t.got].lock;
    if h, m :| 0 <= h < |s.threads| && Holds(s.threads[h], l, m) {
      HolderGoesDeeper(s, h, l, m);
      if !Movable(s) {
        BelowTop(s, h);
        Unblocked(s, h);
      }
    } else {
      FreeLock(s, i, l);
    }
  }

  lemma BelowTop(s: State, h: nat)
    requires h < |s.threads| && Wants(s.threads[h])
    ensures Level(s.depth, s.threads[h].plan[s.threads[h].got].lock) <= Top(s.depth, s.threads)
  {
  }

  /** A lock that nobody holds can be had by the writer queued for it, or else by whoever asks. */
  lemma FreeLock(s: State, i: nat, l: Lock)
    requires Inv(s) && i < |s.threads| && Wants(s.threads[i]) && s.threads[i].plan[s.threads[i].got].lock == l
    requires forall h, m | 0 <= h < |s.threads| :: !Holds(s.threads[h], l, m)
    ensures Movable(s)
  {
    hide Exclusive, OneClaim, Downwards, Holds, Planned;
    if j :| 0 <= j < |s.threads| && Claims(s.threads[j], l) {
      assert s.threads[j].phase.Announced? && s.threads[j].plan[s.threads[j].got] == Req(l, W);
      assert Enabled(s, Acquire(j));
    } else if s.threads[i].plan[s.threads[i].got].mode.R? {
      assert Enabled(s, Acquire(i));
    } else if s.threads[i].phase.Acquiring? {
      assert Enabled(s, Announce(i));
    } else {
      assert Enabled(s, Acquire(i));
    }
  }

  /** As long as an operation is unfinished, some lock can be taken or released: the wait-for relation has no cycle. */
  lemma NotStuck(s: State, i: nat)
    requires Inv(s) && i < |s.threads| && !(s.threads[i].phase.Releasing? && s.threads[i].got == 0)
    ensures Movable(s)
  {
    hide Exclusive, OneClaim, Downwards;
    var t := s.threads[i];
    assert Planned(t);
    if t.phase.Running? {
      assert Enabled(s, Finish(i));
    } else if t.phase.Releasing? {
      assert Enabled(s, Release(i));
    } else {
      Unblocked(s, i);
    }
  }
}
