/** The goroutines of one server connection: whoever receives a request makes sure that another one is ready to
    receive the next. */
module Receivers {
  import opened Options

  /** What recv delivers short of a connection error. */
  datatype Incoming = Request(tag: nat) | Malformed

  /** Where a goroutine is in handleRequests and handleRequest. */
  datatype Pc =
    | Fresh                  // at the top of handleRequests
    | Entered                // counted in pendingWg
    | Idle                   // counted in recvIdle, waiting for recvMu
    | Locked                 // has recvMu
    | Checking               // no longer counted in recvIdle
    | Reading                // in recv
    | Got(m: Incoming)       // recv returned; recvIdle still to be looked at
    | Staffed(m: Incoming)   // another receiver is on its way; recvMu still held
    | Out(m: Incoming)       // recvMu released
    | Handling(tag: nat)
    | Sending
    | Leaving(again: bool)   // about to leave handleRequest
    | Exiting                // left handleRequests
    | Gone
    | Stopping               // the connection's own goroutine, in stop
    | Stopped                // past pendingWg.Wait

  /** Goroutine 0 is the connection's own; the others were spawned. */
  datatype Server = Server(gs: seq<Pc>, lock: Option<nat>, idle: int, shutdown: bool, tags: set<nat>, wg: int)

  function Init(): Server
  {
    Server([Fresh], None, 0, false, {}, 0)
  }

  datatype Step =
    | Enter(g: nat) | Queue(g: nat) | Lock(g: nat) | Deduct(g: nat) | Quit(g: nat) | Read(g: nat) | Fail(g: nat)
    | Arrive(g: nat, m: Incoming) | Staff(g: nat) | Unlock(g: nat) | Refuse(g: nat) | Start(g: nat) | Finish(g: nat)
    | Sent(g: nat) | Leave(g: nat) | Exit(g: nat) | Pass(g: nat)

  predicate Enabled(s: Server, step: Step)
  {
    step.g < |s.gs| &&
    var pc := s.gs[step.g];
    match step
    case Enter(_) => pc.Fresh?
    case Queue(_) => pc.Entered?
    case Lock(_) => pc.Idle? && s.lock.None?
    case Deduct(_) => pc.Locked?
    case Quit(_) => pc.Checking? && s.shutdown
    case Read(_) => pc.Checking? && !s.shutdown
    case Fail(_) => pc.Reading?
    case Arrive(_, _) => pc.Reading?
    case Staff(_) => pc.Got?
    case Unlock(_) => pc.Staffed?
    case Refuse(_) => pc.Out? && pc.m.Malformed?
    case Start(_) => pc.Out? && pc.m.Request?
    case Finish(_) => pc.Handling? && pc.tag in s.tags
    case Sent(_) => pc.Sending?
    case Leave(_) => pc.Leaving?
    case Exit(_) => pc.Exiting?
    case Pass(_) => pc.Stopping? && s.wg == 0
  }

  function To(s: Server, g: nat, pc: Pc): Server
    requires g < |s.gs|
  {
    s.(gs := s.gs[g := pc])
  }

  function Apply(s: Server, step: Step): Server
    requires Enabled(s, step)
  {
    var g := step.g;
    match step
    case Enter(_) => To(s, g, Entered).(wg := s.wg + 1)
    case Queue(_) => To(s, g, Idle).(idle := s.idle + 1)
    case Lock(_) => To(s, g, Locked).(lock := Some(g))
    case Deduct(_) => To(s, g, Checking).(idle := s.idle - 1)
    case Quit(_) => To(s, g, Leaving(false)).(lock := None)
    case Read(_) => To(s, g, Reading)
    case Fail(_) => To(s, g, Leaving(false)).(shutdown := true, lock := None)
    case Arrive(_, m) => To(s, g, Got(m))
    case Staff(_) =>
      var s1 := To(s, g, Staffed(s.gs[g].m));
      if s.idle == 0 then s1.(gs := s1.gs + [Fresh], wg := s.wg + 1) else s1
    case Unlock(_) => To(s, g, Out(s.gs[g].m)).(lock := None)
    case Refuse(_) => To(s, g, Sending)
    case Start(_) =>
      var t := s.gs[g].m.tag;
      if t in s.tags then To(s, g, Leaving(true)) else To(s, g, Handling(t)).(tags := s.tags + {t})
    case Finish(_) => To(s, g, Sending).(tags := s.tags - {s.gs[g].tag})
    case Sent(_) => To(s, g, Leaving(true))
    case Leave(_) => To(s, g, if s.gs[g].again then Fresh else Exiting).(wg := s.wg - 1)
    case Exit(_) => if g == 0 then To(s, g, Stopping) else To(s, g, Gone).(wg := s.wg - 1)
    case Pass(_) => To(s, g, Stopped)
  }

  // ---- the invariant -------------------------------------------------------------------------

  predicate HoldsLock(pc: Pc)
  {
    pc.Locked? || pc.Checking? || pc.Reading? || pc.Got? || pc.Staffed?
  }

  /** Waiting for the receive lock, on the way to it, or holding it with the next receiver still to be arranged. */
  predicate Heading(pc: Pc)
  {
    pc.Fresh? || pc.Entered? || pc.Idle? || pc.Locked? || pc.Checking? || pc.Reading? || pc.Got?
  }

  function IdleOf(pc: Pc): nat
  {
    if pc.Idle? || pc.Locked? then 1 else 0
  }

  predicate InRequest(pc: Pc)
  {
    !pc.Fresh? && !pc.Exiting? && !pc.Gone? && !pc.Stopping? && !pc.Stopped?
  }

  /** What goroutine `g` contributes to pendingWg. */
  function WgOf(g: nat, pc: Pc): nat
  {
    (if g > 0 && !pc.Gone? then 1 else 0) + (if InRequest(pc) then 1 else 0)
  }

  function IdleSum(gs: seq<Pc>): nat
  {
    if gs == [] then 0 else IdleSum(gs[..|gs| - 1]) + IdleOf(gs[|gs| - 1])
  }

  function WgSum(gs: seq<Pc>): nat
  {
    if gs == [] then 0 else WgSum(gs[..|gs| - 1]) + WgOf(|gs| - 1, gs[|gs| - 1])
  }

  ghost predicate LockSound(s: Server)
  {
    && (s.lock.Some? ==> s.lock.value < |s.gs|)
    && (forall g | 0 <= g < |s.gs| :: HoldsLock(s.gs[g]) <==> s.lock == Some(g))
  }

  ghost predicate TagsSound(s: Server)
  {
    && (forall g | 0 <= g < |s.gs| && s.gs[g].Handling? :: s.gs[g].tag in s.tags)
    && (forall t | t in s.tags :: exists g :: 0 <= g < |s.gs| && s.gs[g] == Handling(t))
    && (forall g, h | 0 <= g < h < |s.gs| && s.gs[g].Handling? && s.gs[h].Handling? :: s.gs[g].tag != s.gs[h].tag)
  }

  ghost predicate Manned(s: Server)
  {
    exists g :: 0 <= g < |s.gs| && Heading(s.gs[g])
  }

  ghost predicate ShutdownSound(s: Server)
  {
    && (!s.shutdown ==> Manned(s))
    && (forall g | 0 <= g < |s.gs|
        && (s.gs[g] == Leaving(false) || s.gs[g].Exiting? || s.gs[g].Gone? || s.gs[g].Stopping? || s.gs[g].Stopped?) ::
              s.shutdown)
    && (s.shutdown ==> forall g | 0 <= g < |s.gs| :: !s.gs[g].Reading? && !s.gs[g].Got? && !s.gs[g].Staffed?)
  }

  ghost predicate MainSound(s: Server)
  {
    && |s.gs| > 0 && !s.gs[0].Gone?
    && (forall g | 0 < g < |s.gs| :: !s.gs[g].Stopping? && !s.gs[g].Stopped?)
    && (s.gs[0].Stopped? ==> forall g | 0 < g < |s.gs| :: s.gs[g].Gone?)
  }

  ghost predicate Inv(s: Server)
  {
    && LockSound(s) && TagsSound(s) && ShutdownSound(s) && MainSound(s)
    && s.idle == IdleSum(s.gs) && s.wg == WgSum(s.gs)
  }

  // ---- sums ---------------------------------------------------------------------------------------

  lemma {:induction false} SumsSet(gs: seq<Pc>, g: nat, pc: Pc)
    requires g < |gs|
    ensures IdleSum(gs[g := pc]) + IdleOf(gs[g]) == IdleSum(gs) + IdleOf(pc)
    ensures WgSum(gs[g := pc]) + WgOf(g, gs[g]) == WgSum(gs) + WgOf(g, pc)
  {
    hide IdleOf, WgOf;
    var front := gs[..|gs| - 1];
    if g < |gs| - 1 {
      SumsSet(front, g, pc);
      assert gs[g := pc][..|gs| - 1] == front[g := pc];
    } else {
      assert gs[g := pc][..|gs| - 1] == front;
    }
  }

  lemma SumsMore(gs: seq<Pc>, pc: Pc)
    ensures IdleSum(gs + [pc]) == IdleSum(gs) + IdleOf(pc) && WgSum(gs + [pc]) == WgSum(gs) + WgOf(|gs|, pc)
  {
    assert (gs + [pc])[..|gs|] == gs;
  }

  /** A positive count has someone behind it, and a zero one nobody. */
  lemma {:induction false} SomeIdle(gs: seq<Pc>)
    requires IdleSum(gs) > 0
    ensures exists g :: 0 <= g < |gs| && (gs[g].Idle? || gs[g].Locked?)
  {
    var front := gs[..|gs| - 1];
    if IdleOf(gs[|gs| - 1]) == 0 {
      SomeIdle(front);
      var g :| 0 <= g < |front| && (front[g].Idle? || front[g].Locked?);
      assert gs[g] == front[g];
    }
  }

  lemma {:induction false} NobodyLeft(gs: seq<Pc>, g: nat)
    requires WgSum(gs) == 0 && g < |gs|
    ensures WgOf(g, gs[g]) == 0
  {
    if g < |gs| - 1 { NobodyLeft(gs[..|gs| - 1], g); }
  }

  // ---- every step keeps the invariant -------------------------------------------------------------

  lemma SumsKept(s: Server, step: Step)
    requires Inv(s) && Enabled(s, step)
    ensures Apply(s, step).idle == IdleSum(Apply(s, step).gs) && Apply(s, step).wg == WgSum(Apply(s, step).gs)
  {
    hide LockSound, TagsSound, ShutdownSound, IdleSum, WgSum;
    var s', g := Apply(s, step), step.g;
    SumsSet(s.gs, g, s'.gs[g]);
    if step.Staff? && s.idle == 0 { SumsMore(s.gs[g := s'.gs[g]], Fresh); }
  }

  lemma LockKept(s: Server, step: Step)
    requires Inv(s) && Enabled(s, step)
    ensures LockSound(Apply(s, step))
  {
    hide TagsSound, ShutdownSound, MainSound, IdleSum, WgSum, Apply, Enabled, HoldsLock;
    Others(s, step);
    LockMoves(s, step);
  }

  /** A step moves one goroutine and starts at most one. */
  lemma Others(s: Server, step: Step)
    requires Enabled(s, step)
    ensures var s', g := Apply(s, step), step.g;
            && g < |s.gs| <= |s'.gs| && (forall h | 0 <= h < |s.gs| && h != g :: s'.gs[h] == s.gs[h])
            && (forall h | |s.gs| <= h < |s'.gs| :: s'.gs[h].Fresh? && !HoldsLock(s'.gs[h]))
  {
  }

  lemma LockMoves(s: Server, step: Step)
    requires Inv(s) && Enabled(s, step)
    ensures var s', g := Apply(s, step), step.g;
            && g < |s'.gs| && (HoldsLock(s'.gs[g]) ==> s'.lock == Some(g) && s.lock in {None, Some(g)})
            && (!HoldsLock(s'.gs[g]) ==> s'.lock == if s.lock == Some(g) then None else s.lock)
  {
    hide TagsSound, ShutdownSound, MainSound, IdleSum, WgSum;
    assert HoldsLock(s.gs[step.g]) <==> s.lock == Some(step.g);
  }

  lemma TagsKept(s: Server, step: Step)
    requires Inv(s) && Enabled(s, step)
    ensures TagsSound(Apply(s, step))
  {
    hide LockSound, ShutdownSound, MainSound, IdleSum, WgSum;
    var s', g := Apply(s, step), step.g;
    forall t | t in s'.tags ensures exists h :: 0 <= h < |s'.gs| && s'.gs[h] == Handling(t) {
      if t in s.tags {
        var h :| 0 <= h < |s.gs| && s.gs[h] == Handling(t);
        assert s'.gs[h] == Handling(t);
      } else {
        assert s'.gs[g] == Handling(t);
      }
    }
  }

  lemma ShutdownKept(s: Server, step: Step)
    requires Inv(s) && Enabled(s, step)
    ensures ShutdownSound(Apply(s, step))
  {
    hide TagsSound, LockSound, MainSound, IdleSum, WgSum, Apply, Enabled, Heading, HoldsLock;
    Others(s, step);
    ShutdownMoves(s, step);
    var s', g := Apply(s, step), step.g;
    if !s'.shutdown {
      if step.Staff? {
        StaffMans(s, g);
      } else {
        var h :| 0 <= h < |s.gs| && Heading(s.gs[h]);
        assert Heading(s'.gs[h]);
      }
    }
  }

  /** The shutdown flag goes up with the receive lock held, so nobody else is then in recv. */
  lemma ShutdownMoves(s: Server, step: Step)
    requires Inv(s) && Enabled(s, step)
    ensures var s', g := Apply(s, step), step.g;
            var pc := s'.gs[g];
            && (pc == Leaving(false) || pc.Exiting? || pc.Gone? || pc.Stopping? || pc.Stopped? ==> s'.shutdown)
            && (s.shutdown ==> s'.shutdown) && (s'.shutdown ==> !pc.Reading? && !pc.Got? && !pc.Staffed?)
            && (s'.shutdown && !s.shutdown ==>
                  forall h | 0 <= h < |s.gs| && h != g ::
                    !HoldsLock(s.gs[h]) && !s.gs[h].Reading? && !s.gs[h].Got? && !s.gs[h].Staffed?)
            && (!s'.shutdown && !step.Staff? && Heading(s.gs[g]) ==> Heading(pc))
  {
    hide TagsSound, MainSound, IdleSum, WgSum;
    if step.Fail? { assert HoldsLock(s.gs[step.g]); }
  }

  lemma StaffMans(s: Server, g: nat)
    requires Inv(s) && Enabled(s, Staff(g))
    ensures Manned(Apply(s, Staff(g)))
  {
    hide TagsSound, ShutdownSound, MainSound, WgSum;
    var s' := Apply(s, Staff(g));
    if s.idle == 0 {
      assert Heading(s'.gs[|s.gs|]);
    } else {
      SomeIdle(s.gs);
      var h :| 0 <= h < |s.gs| && (s.gs[h].Idle? || s.gs[h].Locked?);
      assert Heading(s'.gs[h]);
    }
  }

  lemma MainMoves(s: Server, step: Step)
    requires Inv(s) && Enabled(s, step)
    ensures var s', g := Apply(s, step), step.g;
            && g < |s'.gs| && (g > 0 ==> !s'.gs[g].Stopping? && !s'.gs[g].Stopped?) && (g == 0 ==> !s'.gs[g].Gone?)
            && !s.gs[g].Gone? && !s.gs[0].Stopped?
            && (s'.gs[0].Stopped? ==> forall h | 0 < h < |s'.gs| :: s'.gs[h].Gone?)
  {
    hide TagsSound, LockSound, ShutdownSound, IdleSum, WgSum, HoldsLock;
    if step.Pass? {
      forall g | 0 < g < |s.gs| ensures s.gs[g].Gone? { NobodyLeft(s.gs, g); }
    }
  }

  lemma MainKept(s: Server, step: Step)
    requires Inv(s) && Enabled(s, step)
    ensures MainSound(Apply(s, step))
  {
    hide TagsSound, LockSound, ShutdownSound, IdleSum, WgSum, HoldsLock, Apply, Enabled;
    Others(s, step);
    MainMoves(s, step);
  }

  lemma StepKeeps(s: Server, step: Step)
    requires Inv(s) && Enabled(s, step)
    ensures Inv(Apply(s, step))
  {
    hide LockSound, TagsSound, ShutdownSound, MainSound, IdleSum, WgSum, Apply, Enabled;
    LockKept(s, step);
    TagsKept(s, step);
    ShutdownKept(s, step);
    MainKept(s, step);
    SumsKept(s, step);
  }

  lemma InitInv()
    ensures Inv(Init())
  {
    var gs := [Fresh];
    assert gs[..0] == [];
    assert IdleSum(gs) == 0 && WgSum(gs) == 0;
    assert Heading(gs[0]);
  }

  // ---- whole runs ------------------------------------------------------------------------------------

  ghost predicate Run(s: Server, steps: seq<Step>, s': Server)
    decreases |steps|
  {
    if steps == [] then s == s'
    else Enabled(s, steps[0]) && Run(Apply(s, steps[0]), steps[1..], s')
  }

  lemma {:induction false} RunKeeps(s: Server, steps: seq<Step>, s': Server)
    requires Inv(s) && Run(s, steps, s')
    ensures Inv(s')
    decreases |steps|
  {
    hide Inv, Enabled, Apply;
    if steps != [] {
      StepKeeps(s, steps[0]);
      RunKeeps(Apply(s, steps[0]), steps[1..], s');
    }
  }

  /** In every reachable state. */
  lemma Guarantees(steps: seq<Step>, s: Server)
    requires Run(Init(), steps, s)
    // until shutdown someone is there to receive, whatever the handlers are doing
    ensures !s.shutdown ==> exists g :: 0 <= g < |s.gs| && Heading(s.gs[g])
    // one goroutine at most is between lock and unlock
    ensures forall g, h | 0 <= g < h < |s.gs| && HoldsLock(s.gs[g]) :: !HoldsLock(s.gs[h])
    // no two handlers run with the same tag, and ClearTag finds its tag
    ensures forall g, h | 0 <= g < h < |s.gs| && s.gs[g].Handling? && s.gs[h].Handling? :: s.gs[g].tag != s.gs[h].tag
    ensures forall g | 0 <= g < |s.gs| && s.gs[g].Handling? :: Enabled(s, Finish(g))
    // stop gets past its wait only when no handler runs and none can start
    ensures |s.gs| > 0 && (s.gs[0].Stopped? ==> forall g | 0 < g < |s.gs| :: s.gs[g].Gone?)
  {
    hide IdleSum, WgSum;
    InitInv();
    RunKeeps(Init(), steps, s);
  }

  /** After a connection error no goroutine reads again. */
  lemma {:induction false} NoReadAfterShutdown(s: Server, steps: seq<Step>, s': Server)
    requires Inv(s) && s.shutdown && Run(s, steps, s')
    ensures s'.shutdown && forall i | 0 <= i < |steps| :: !steps[i].Read? && !steps[i].Arrive? && !steps[i].Fail?
    decreases |steps|
  {
    hide LockSound, TagsSound, MainSound, IdleSum, WgSum;
    if steps != [] {
      StepKeeps(s, steps[0]);
      NoReadAfterShutdown(Apply(s, steps[0]), steps[1..], s');
      forall i | 0 <= i < |steps| ensures !steps[i].Read? && !steps[i].Arrive? && !steps[i].Fail? {
        if i > 0 { assert steps[i] == steps[1..][i - 1]; }
      }
    }
  }

  /** Until the connection's goroutine is past its wait, someone can move: no lock is waited for in vain. */
  lemma NotStuck(s: Server)
    requires Inv(s) && !s.gs[0].Stopped?
    ensures exists step: Step :: Enabled(s, step)
  {
    hide IdleSum, WgSum;
    if s.gs[0].Stopping? {
      if s.wg == 0 {
        assert Enabled(s, Pass(0));
      } else {
        var g := SomeoneLeft(s.gs);
        Moves(s, g);
      }
    } else {
      Moves(s, 0);
    }
  }

  lemma {:induction false} SomeoneLeft(gs: seq<Pc>) returns (g: nat)
    requires WgSum(gs) > 0
    ensures g < |gs| && WgOf(g, gs[g]) > 0
  {
    g := |gs| - 1;
    if WgOf(g, gs[g]) == 0 { g := SomeoneLeft(gs[..|gs| - 1]); }
  }

  lemma Moves(s: Server, g: nat)
    requires Inv(s) && g < |s.gs| && !s.gs[g].Gone? && !s.gs[g].Stopping? && !s.gs[g].Stopped?
    ensures exists step: Step :: Enabled(s, step)
  {
    hide ShutdownSound, MainSound, IdleSum, WgSum;
    var pc := s.gs[g];
    if pc.Idle? && s.lock.Some? {
      assert HoldsLock(s.gs[s.lock.value]);
      Steps(s, s.lock.value);
    } else {
      Steps(s, g);
    }
  }

  lemma Steps(s: Server, g: nat)
    requires Inv(s) && g < |s.gs| && !s.gs[g].Gone? && !s.gs[g].Stopping? && !s.gs[g].Stopped?
    requires (s.gs[g].Idle? ==> s.lock.None?)
    ensures exists step: Step :: Enabled(s, step)
  {
    hide ShutdownSound, MainSound, LockSound, IdleSum, WgSum;
    var step :=
      match s.gs[g]
      case Fresh => Enter(g)
      case Entered => Queue(g)
      case Idle => Lock(g)
      case Locked => Deduct(g)
      case Checking => if s.shutdown then Quit(g) else Read(g)
      case Reading => Fail(g)
      case Got(_) => Staff(g)
      case Staffed(_) => Unlock(g)
      case Out(m) => if m.Malformed? then Refuse(g) else Start(g)
      case Handling(_) => Finish(g)
      case Sending => Sent(g)
      case Leaving(_) => Leave(g)
      case _ => Exit(g);
    assert Enabled(s, step);
  }
}
