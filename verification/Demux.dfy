/** The client's demultiplexer: concurrent calls share one connection, one tag space and one token for the right to
    receive. */
module Demux {
  import opened Options
  import opened Pools

  const NOTAG := 65535
  const RLERROR := 7

  /** A message from the server; `call` remembers which request it answers. */
  datatype Reply = Reply(tag: nat, kind: nat, call: nat)

  /** Where a call is in sendRecv and waitAndRecv. */
  datatype Pc =
    | Tagged                // has a tag
    | Listed                // registered in pending
    | Waiting               // request sent; at the outer select
    | Holding               // won the token; about to check its own channel once more
    | Receiving             // in handleOne, before recv returns
    | Handing(r: Reply, to: nat)  // a reply in hand, its pending entry, which named `to`, removed
    | Returning             // signalled; the token still to be returned
    | Answered(r: Reply)    // left waitAndRecv
    | Over                  // tag returned

  /** What has become of a call's request; kept for the proof only. */
  datatype Stage = Unsent | Asked | OnWire | InHand | Signalled | Consumed

  datatype Call = Call(want: nat, tag: nat, pc: Pc, slot: Option<Reply>, stage: Stage)

  datatype Client = Client(tags: Ids, calls: seq<Call>, pending: map<nat, nat>, token: bool, replies: seq<Reply>)

  predicate Holder(pc: Pc)
  {
    pc.Holding? || pc.Receiving? || pc.Handing? || pc.Returning?
  }

  function Init(): Client
  {
    Client(Ids([], 1, NOTAG), [], map[], false, [])
  }

  // ---- steps --------------------------------------------------------------------------------

  datatype Step =
    | Begin(want: nat)
    | Register(c: nat)
    | Send(c: nat)
    | TakeDone(c: nat)
    | TakeToken(c: nat)
    | LeaveToken(c: nat)
    | GoReceive(c: nat)
    | Receive(c: nat)
    | Signal(c: nat)
    | Release(c: nat)
    | Return(c: nat)
    | Answer(c: nat, kind: nat)   // the server

  function Set(s: Client, c: nat, call: Call): Client
    requires c < |s.calls|
  {
    s.(calls := s.calls[c := call])
  }

  /** The lookup handleOne gives to recv: a pending tag, and the wanted type or an error. */
  predicate Accepts(s: Client, r: Reply)
  {
    r.tag in s.pending && s.pending[r.tag] < |s.calls|
      && (r.kind == RLERROR || r.kind == s.calls[s.pending[r.tag]].want)
  }

  predicate Enabled(s: Client, step: Step)
  {
    if step.Begin? then Take(s.tags).Some?
    else
      step.c < |s.calls| &&
      var call := s.calls[step.c];
      match step
      case Register(_) => call.pc.Tagged?
      case Send(_) => call.pc.Listed?
      case TakeDone(_) => call.pc.Waiting? && call.slot.Some?
      case TakeToken(_) => call.pc.Waiting? && !s.token
      case LeaveToken(_) => call.pc.Holding? && call.slot.Some?
      case GoReceive(_) => call.pc.Holding? && call.slot.None?
      case Receive(_) => call.pc.Receiving? && s.replies != [] && Accepts(s, s.replies[0])
      case Signal(_) => call.pc.Handing? && call.pc.to < |s.calls| && s.calls[call.pc.to].slot.None?
      case Release(_) => call.pc.Returning?
      case Return(_) => call.pc.Answered?
      case Answer(_, _) => call.stage.Asked?
  }

  function Apply(s: Client, step: Step): Client
    requires Enabled(s, step)
  {
    match step
    case Begin(want) =>
      s.(tags := Taken(s.tags), calls := s.calls + [Call(want, Take(s.tags).value, Tagged, None, Unsent)])
    case Register(c) =>
      Set(s, c, s.calls[c].(pc := Listed)).(pending := s.pending[s.calls[c].tag := c])
    case Send(c) =>
      Set(s, c, s.calls[c].(pc := Waiting, stage := Asked))
    case TakeDone(c) =>
      Set(s, c, s.calls[c].(pc := Answered(s.calls[c].slot.value), slot := None, stage := Consumed))
    case TakeToken(c) =>
      Set(s, c, s.calls[c].(pc := Holding)).(token := true)
    case LeaveToken(c) =>
      Set(s, c, s.calls[c].(pc := Answered(s.calls[c].slot.value), slot := None, stage := Consumed)).(token := false)
    case GoReceive(c) =>
      Set(s, c, s.calls[c].(pc := Receiving))
    case Receive(c) =>
      var r := s.replies[0];
      var d := s.pending[r.tag];
      var s1 := Set(s, c, s.calls[c].(pc := Handing(r, d)));
      Set(s1, d, s1.calls[d].(stage := InHand)).(pending := s.pending - {r.tag}, replies := s.replies[1..])
    case Signal(c) =>
      var Handing(r, d) := s.calls[c].pc;
      var s1 := Set(s, c, s.calls[c].(pc := Returning));
      Set(s1, d, s1.calls[d].(slot := Some(r), stage := Signalled))
    case Release(c) =>
      Set(s, c, s.calls[c].(pc := Waiting)).(token := false)
    case Return(c) =>
      Set(s, c, s.calls[c].(pc := Over)).(tags := Returned(s.tags, s.calls[c].tag))
    case Answer(c, kind) =>
      Set(s, c, s.calls[c].(stage := OnWire)).(replies := s.replies + [Reply(s.calls[c].tag, kind, c)])
  }

  // ---- the invariant ---------------------------------------------------------------------------

  ghost function Used(calls: seq<Call>): set<nat>
  {
    set i | 0 <= i < |calls| && !calls[i].pc.Over? :: calls[i].tag
  }

  /** The reply answers this call's own request, under its tag, with its type or an error. */
  predicate Right(calls: seq<Call>, r: Reply, c: nat)
    requires c < |calls|
  {
    r.call == c && r.tag == calls[c].tag && (r.kind == RLERROR || r.kind == calls[c].want)
  }

  predicate Unanswered(call: Call)
  {
    call.pc.Listed? || call.stage.Asked? || call.stage.OnWire?
  }

  predicate CallSound(s: Client, c: nat)
    requires c < |s.calls|
  {
    var call := s.calls[c];
    && (call.slot.Some? <==> call.stage.Signalled?)
    && (call.slot.Some? ==> Right(s.calls, call.slot.value, c) && !call.pc.Receiving?)
    && (Unanswered(call) ==> call.tag in s.pending && s.pending[call.tag] == c)
    && (match call.pc
        case Tagged => call.stage.Unsent? && call.tag !in s.pending
        case Listed => call.stage.Unsent?
        case Answered(r) => call.stage.Consumed? && Right(s.calls, r, c)
        case Over => call.stage.Consumed?
        case _ => !call.stage.Unsent? && !call.stage.Consumed?)
    && (call.pc.Handing? ==>
          call.pc.to < |s.calls| && s.calls[call.pc.to].stage.InHand? && Right(s.calls, call.pc.r, call.pc.to))
  }

  ghost predicate TagsSound(s: Client)
  {
    && Apart(s.tags, 1, Used(s.calls)) && s.tags.limit == NOTAG
    && (forall i, j | 0 <= i < j < |s.calls| && !s.calls[i].pc.Over? && !s.calls[j].pc.Over? ::
          s.calls[i].tag != s.calls[j].tag)
  }

  ghost predicate PendingSound(s: Client)
  {
    forall t | t in s.pending ::
        s.pending[t] < |s.calls| && s.calls[s.pending[t]].tag == t && Unanswered(s.calls[s.pending[t]])
  }

  /** One call at most has the token, and the channel is full exactly while one has. */
  ghost predicate TokenSound(s: Client)
  {
    && (forall i, j | 0 <= i < j < |s.calls| && Holder(s.calls[i].pc) :: !Holder(s.calls[j].pc))
    && (s.token <==> exists i :: 0 <= i < |s.calls| && Holder(s.calls[i].pc))
  }

  /** The replies on the wire answer distinct calls: those that were answered and not received yet. */
  ghost predicate WireSound(s: Client)
  {
    && (forall k | 0 <= k < |s.replies| ::
          var r := s.replies[k]; r.call < |s.calls| && s.calls[r.call].stage.OnWire? && r.tag == s.calls[r.call].tag)
    && (forall k, l | 0 <= k < l < |s.replies| :: s.replies[k].call != s.replies[l].call)
    && (forall c | 0 <= c < |s.calls| && s.calls[c].stage.OnWire? :: exists k ::
          0 <= k < |s.replies| && s.replies[k].call == c)
  }

  /** A call in hand is in the hands of the token's holder. */
  ghost predicate HandSound(s: Client)
  {
    forall c | 0 <= c < |s.calls| && s.calls[c].stage.InHand? ::
      exists h :: 0 <= h < |s.calls| && s.calls[h].pc.Handing? && s.calls[h].pc.to == c
  }

  ghost predicate Inv(s: Client)
  {
    && (forall c | 0 <= c < |s.calls| :: CallSound(s, c))
    && TagsSound(s) && PendingSound(s) && TokenSound(s) && WireSound(s) && HandSound(s)
  }

  lemma InitInv()
    ensures Inv(Init())
  {
  }

  /** The call a step hands a reply to. */
  function Other(s: Client, step: Step): nat
    requires Enabled(s, step) && !step.Begin?
  {
    if step.Receive? then s.pending[s.replies[0].tag]
    else if step.Signal? then s.calls[step.c].pc.to
    else step.c
  }

  lemma Involved(s: Client, step: Step)
    requires Inv(s) && Enabled(s, step) && !step.Begin?
    ensures CallSound(s, step.c) && Other(s, step) < |s.calls| && CallSound(s, Other(s, step))
    ensures |Apply(s, step).calls| == |s.calls|
    ensures forall i | 0 <= i < |s.calls| && i != step.c && i != Other(s, step) :: Apply(s, step).calls[i] == s.calls[i]
    ensures forall i | 0 <= i < |s.calls| ::
              Apply(s, step).calls[i].tag == s.calls[i].tag && Apply(s, step).calls[i].want == s.calls[i].want
  {
    hide TagsSound, PendingSound, TokenSound, WireSound, HandSound;
  }

  lemma SameUsed(a: seq<Call>, b: seq<Call>)
    requires |a| == |b| && forall i | 0 <= i < |a| :: a[i].tag == b[i].tag && a[i].pc.Over? == b[i].pc.Over?
    ensures Used(a) == Used(b)
  {
    forall t | t in Used(a) ensures t in Used(b) {
      var i :| 0 <= i < |a| && !a[i].pc.Over? && a[i].tag == t;
      assert b[i].tag == t;
    }
    forall t | t in Used(b) ensures t in Used(a) {
      var i :| 0 <= i < |b| && !b[i].pc.Over? && b[i].tag == t;
      assert a[i].tag == t;
    }
  }

  lemma TagsKept(s: Client, step: Step)
    requires Inv(s) && Enabled(s, step)
    ensures TagsSound(Apply(s, step))
  {
    hide PendingSound, TokenSound, WireSound, HandSound, Apart, CallSound;
    var s' := Apply(s, step);
    match step
    case Begin(_) =>
      TakeApart(s.tags, 1, Used(s.calls));
      UsedMore(s.calls, s'.calls[|s.calls|]);
    case Return(c) =>
      assert s.calls[c].tag in Used(s.calls);
      ReturnApart(s.tags, 1, Used(s.calls), s.calls[c].tag);
      UsedLess(s.calls, c);
    case _ =>
      Involved(s, step);
      SameUsed(s.calls, s'.calls);
  }

  lemma UsedMore(calls: seq<Call>, call: Call)
    requires !call.pc.Over?
    ensures Used(calls + [call]) == Used(calls) + {call.tag}
    ensures forall i | 0 <= i < |calls| && !calls[i].pc.Over? :: calls[i].tag in Used(calls)
  {
    var all := calls + [call];
    forall t | t in Used(all) ensures t in Used(calls) + {call.tag} {
      var i :| 0 <= i < |all| && !all[i].pc.Over? && all[i].tag == t;
      if i < |calls| { assert calls[i].tag == t; }
    }
    forall t | t in Used(calls) + {call.tag} ensures t in Used(all) {
      if t in Used(calls) {
        var i :| 0 <= i < |calls| && !calls[i].pc.Over? && calls[i].tag == t;
        assert all[i].tag == t;
      } else {
        assert all[|calls|].tag == t;
      }
    }
  }

  lemma UsedLess(calls: seq<Call>, c: nat)
    requires c < |calls| && !calls[c].pc.Over?
    requires forall i, j | 0 <= i < j < |calls| && !calls[i].pc.Over? && !calls[j].pc.Over? ::
               calls[i].tag != calls[j].tag
    ensures Used(calls[c := calls[c].(pc := Over)]) == Used(calls) - {calls[c].tag}
  {
    var all := calls[c := calls[c].(pc := Over)];
    forall t | t in Used(all) ensures t in Used(calls) - {calls[c].tag} {
      var i :| 0 <= i < |all| && !all[i].pc.Over? && all[i].tag == t;
      assert calls[i].tag == t && i != c;
    }
    forall t | t in Used(calls) - {calls[c].tag} ensures t in Used(all) {
      var i :| 0 <= i < |calls| && !calls[i].pc.Over? && calls[i].tag == t;
      assert all[i].tag == t;
    }
  }

  lemma PendingKept(s: Client, step: Step)
    requires Inv(s) && Enabled(s, step)
    ensures PendingSound(Apply(s, step))
  {
    hide TokenSound, HandSound, TagsSound, WireSound;
    if !step.Begin? { Involved(s, step); }
  }

  lemma TokenKept(s: Client, step: Step)
    requires Inv(s) && Enabled(s, step)
    ensures TokenSound(Apply(s, step))
  {
    hide PendingSound, WireSound, HandSound, TagsSound, CallSound;
    var s' := Apply(s, step);
    if step.Begin? {
      assert forall i | 0 <= i < |s.calls| :: s'.calls[i] == s.calls[i];
    } else {
      Involved(s, step);
      assert forall i | 0 <= i < |s.calls| && i != step.c :: Holder(s'.calls[i].pc) == Holder(s.calls[i].pc);
      if s.token {
        var h :| 0 <= h < |s.calls| && Holder(s.calls[h].pc);
        assert h != step.c ==> Holder(s'.calls[h].pc);
      }
      assert Holder(s'.calls[step.c].pc) ==> s'.token;
    }
  }

  /** A reply that is accepted goes to the call it answers. */
  lemma Matches(s: Client, c: nat)
    requires Inv(s) && Enabled(s, Receive(c))
    ensures s.pending[s.replies[0].tag] == s.replies[0].call && s.calls[s.replies[0].call].stage.OnWire?
  {
    hide TagsSound, PendingSound, TokenSound, HandSound;
    assert CallSound(s, s.replies[0].call);
  }

  lemma AnswerWire(s: Client, c: nat, kind: nat)
    requires Inv(s) && Enabled(s, Answer(c, kind))
    ensures WireSound(Apply(s, Answer(c, kind)))
  {
    hide TokenSound, HandSound, TagsSound, PendingSound;
    var s' := Apply(s, Answer(c, kind));
    forall d | 0 <= d < |s'.calls| && s'.calls[d].stage.OnWire?
      ensures exists k :: 0 <= k < |s'.replies| && s'.replies[k].call == d
    {
      if d == c {
        assert s'.replies[|s.replies|].call == d;
      } else {
        var k :| 0 <= k < |s.replies| && s.replies[k].call == d;
        assert s'.replies[k].call == d;
      }
    }
  }

  lemma ReceiveWire(s: Client, h: nat)
    requires Inv(s) && Enabled(s, Receive(h))
    ensures WireSound(Apply(s, Receive(h)))
  {
    hide TokenSound, HandSound, TagsSound, PendingSound, CallSound;
    var s' := Apply(s, Receive(h));
    Matches(s, h);
    forall d | 0 <= d < |s'.calls| && s'.calls[d].stage.OnWire?
      ensures exists k :: 0 <= k < |s'.replies| && s'.replies[k].call == d
    {
      var k :| 0 <= k < |s.replies| && s.replies[k].call == d;
      assert s'.replies[k - 1].call == d;
    }
  }

  lemma WireKept(s: Client, step: Step)
    requires Inv(s) && Enabled(s, step)
    ensures WireSound(Apply(s, step))
  {
    hide TokenSound, HandSound, TagsSound, PendingSound;
    if step.Answer? { AnswerWire(s, step.c, step.kind); }
    else if step.Receive? { ReceiveWire(s, step.c); }
    else if !step.Begin? { Involved(s, step); }
  }

  lemma HandKept(s: Client, step: Step)
    requires Inv(s) && Enabled(s, step)
    ensures HandSound(Apply(s, step))
  {
    hide PendingSound, WireSound, TagsSound;
    var s' := Apply(s, step);
    if !step.Begin? { Involved(s, step); }
    forall c | 0 <= c < |s'.calls| && s'.calls[c].stage.InHand?
      ensures exists h :: 0 <= h < |s'.calls| && s'.calls[h].pc.Handing? && s'.calls[h].pc.to == c
    {
      if step.Receive? && c == Other(s, step) {
        assert s'.calls[step.c].pc.to == c;
      } else {
        assert s.calls[c].stage.InHand?;
        var h :| 0 <= h < |s.calls| && s.calls[h].pc.Handing? && s.calls[h].pc.to == c;
        assert s'.calls[h].pc == s.calls[h].pc;
      }
    }
  }

  /** Two calls never have a reply in hand at once. */
  lemma OneHand(s: Client, c: nat, d: nat)
    requires Inv(s) && c < |s.calls| && d < |s.calls| && Holder(s.calls[c].pc) && Holder(s.calls[d].pc)
    ensures c == d
  {
    hide PendingSound, WireSound, TagsSound, HandSound, CallSound;
  }

  lemma BeginCall(s: Client, want: nat, c: nat)
    requires Inv(s) && Enabled(s, Begin(want)) && c < |Apply(s, Begin(want)).calls|
    ensures CallSound(Apply(s, Begin(want)), c)
  {
    hide HandSound, TokenSound, WireSound, TagsSound, PendingSound;
    if c < |s.calls| { assert CallSound(s, c); } else { NewTag(s); }
  }

  lemma ReceiveCall(s: Client, h: nat, c: nat)
    requires Inv(s) && Enabled(s, Receive(h)) && c < |s.calls|
    ensures c < |Apply(s, Receive(h)).calls| && CallSound(Apply(s, Receive(h)), c)
  {
    hide HandSound, TokenSound, TagsSound;
    assert CallSound(s, c);
    Matches(s, h);
    assert CallSound(s, s.replies[0].call);
    if s.calls[c].pc.Handing? { OneHand(s, c, h); }
  }

  lemma SignalCall(s: Client, h: nat, c: nat)
    requires Inv(s) && Enabled(s, Signal(h)) && c < |s.calls|
    ensures c < |Apply(s, Signal(h)).calls| && CallSound(Apply(s, Signal(h)), c)
  {
    hide HandSound, TokenSound, TagsSound, WireSound, PendingSound;
    assert CallSound(s, c) && CallSound(s, h);
    if Holder(s.calls[c].pc) { OneHand(s, c, h); }
  }

  /** The steps that change one call only, itself no reply's target. */
  lemma OwnCall(s: Client, step: Step, c: nat)
    requires Inv(s) && Enabled(s, step) && !step.Begin? && !step.Receive? && !step.Signal? && !step.Register?
    requires c < |s.calls|
    ensures c < |Apply(s, step).calls| && CallSound(Apply(s, step), c)
  {
    hide HandSound, TokenSound, TagsSound, WireSound, PendingSound;
    assert CallSound(s, c) && CallSound(s, step.c);
  }

  lemma RegisterCall(s: Client, d: nat, c: nat)
    requires Inv(s) && Enabled(s, Register(d)) && c < |s.calls|
    ensures c < |Apply(s, Register(d)).calls| && CallSound(Apply(s, Register(d)), c)
  {
    hide HandSound, TokenSound, WireSound, PendingSound, Apart;
    assert CallSound(s, c) && CallSound(s, d);
  }

  lemma CallKept(s: Client, step: Step, c: nat)
    requires Inv(s) && Enabled(s, step) && c < |Apply(s, step).calls|
    ensures CallSound(Apply(s, step), c)
  {
    hide Inv, CallSound, Enabled;
    if !step.Begin? { Involved(s, step); }
    if step.Begin? { BeginCall(s, step.want, c); }
    else if step.Receive? { ReceiveCall(s, step.c, c); }
    else if step.Signal? { SignalCall(s, step.c, c); }
    else if step.Register? { RegisterCall(s, step.c, c); }
    else { OwnCall(s, step, c); }
  }

  lemma NewTag(s: Client)
    requires Inv(s) && Take(s.tags).Some?
    ensures Take(s.tags).value !in s.pending
  {
    hide HandSound, TokenSound, WireSound;
    forall t | t in s.pending ensures t in Used(s.calls) {
      assert CallSound(s, s.pending[t]);
    }
    TakeApart(s.tags, 1, Used(s.calls));
  }

  lemma StepKeeps(s: Client, step: Step)
    requires Inv(s) && Enabled(s, step)
    ensures Inv(Apply(s, step))
  {
    hide CallSound, TagsSound, PendingSound, TokenSound, WireSound, HandSound, Apply, Enabled;
    TagsKept(s, step);
    PendingKept(s, step);
    TokenKept(s, step);
    WireKept(s, step);
    HandKept(s, step);
    forall c | 0 <= c < |Apply(s, step).calls| ensures CallSound(Apply(s, step), c) { CallKept(s, step, c); }
  }

  // ---- whole runs ---------------------------------------------------------------------------

  ghost predicate Run(s: Client, steps: seq<Step>, s': Client)
    decreases |steps|
  {
    if steps == [] then s == s'
    else Enabled(s, steps[0]) && Run(Apply(s, steps[0]), steps[1..], s')
  }

  lemma {:induction false} RunKeeps(s: Client, steps: seq<Step>, s': Client)
    requires Inv(s) && Run(s, steps, s')
    ensures Inv(s')
    decreases |steps|
  {
    hide Inv, Enabled, Apply;
    if steps != [] {
      StepKeeps(s, steps[0]);
      RunKeeps(Apply(s, steps[0]), steps[1..], s');
    }
  }

  /** What callers rely on, in every state a run can reach. */
  lemma Guarantees(steps: seq<Step>, s: Client)
    requires Run(Init(), steps, s)
    // outstanding tags are distinct, nonzero, and never NOTAG
    ensures forall i | 0 <= i < |s.calls| && !s.calls[i].pc.Over? :: 1 <= s.calls[i].tag < NOTAG
    ensures forall i, j | 0 <= i < j < |s.calls| && !s.calls[i].pc.Over? && !s.calls[j].pc.Over? ::
              s.calls[i].tag != s.calls[j].tag
    // one caller at most is receiving
    ensures forall i, j | 0 <= i < j < |s.calls| && Holder(s.calls[i].pc) :: !Holder(s.calls[j].pc)
    // a reply in hand finds its channel empty, so signalling never blocks
    ensures forall c | 0 <= c < |s.calls| && s.calls[c].pc.Handing? :: Enabled(s, Signal(c))
    // what a caller gets answers its own request, under its tag, with its type or an error
    ensures forall c | 0 <= c < |s.calls| && s.calls[c].pc.Answered? :: Right(s.calls, s.calls[c].pc.r, c)
    // a finished call leaves nothing behind: no entry in pending, nothing in its channel
    ensures forall c | 0 <= c < |s.calls| && s.calls[c].pc.Over? :: s.calls[c].slot.None? && c !in s.pending.Values
  {
    hide Inv, CallSound, Enabled, Right, Holder;
    InitInv();
    RunKeeps(Init(), steps, s);
    TagRules(s);
    OneReceiver(s);
    forall c | 0 <= c < |s.calls| && s.calls[c].pc.Handing? ensures Enabled(s, Signal(c)) { CallFacts(s, c); }
    forall c | 0 <= c < |s.calls|
      && s.calls[c].pc.Answered? ensures Right(s.calls, s.calls[c].pc.r, c) { CallFacts(s, c); }
    forall c | 0 <= c < |s.calls| && s.calls[c].pc.Over? ensures s.calls[c].slot.None?
      && c !in s.pending.Values { CallFacts(s, c); }
  }

  ghost predicate CallRules(s: Client, c: nat)
    requires c < |s.calls|
  {
    && (s.calls[c].pc.Handing? ==> Enabled(s, Signal(c)))
    && (s.calls[c].pc.Answered? ==> Right(s.calls, s.calls[c].pc.r, c))
    && (s.calls[c].pc.Over? ==> s.calls[c].slot.None? && c !in s.pending.Values)
  }

  lemma CallFacts(s: Client, c: nat)
    requires Inv(s) && c < |s.calls|
    ensures CallRules(s, c)
  {
    hide WireSound, HandSound, TokenSound, TagsSound;
    assert CallSound(s, c);
    if s.calls[c].pc.Handing? { assert CallSound(s, s.calls[c].pc.to); }
  }

  lemma TagRules(s: Client)
    requires Inv(s)
    ensures forall i | 0 <= i < |s.calls| && !s.calls[i].pc.Over? :: 1 <= s.calls[i].tag < NOTAG
    ensures forall i, j | 0 <= i < j < |s.calls| && !s.calls[i].pc.Over? && !s.calls[j].pc.Over? ::
              s.calls[i].tag != s.calls[j].tag
  {
    hide WireSound, HandSound, TokenSound, PendingSound, CallSound;
    forall i | 0 <= i < |s.calls| && !s.calls[i].pc.Over? ensures 1 <= s.calls[i].tag < NOTAG {
      assert s.calls[i].tag in Used(s.calls);
    }
  }

  lemma OneReceiver(s: Client)
    requires Inv(s)
    ensures forall i, j | 0 <= i < j < |s.calls| && Holder(s.calls[i].pc) :: !Holder(s.calls[j].pc)
  {
    hide WireSound, HandSound, TagsSound, PendingSound, CallSound, Holder;
  }

  // ---- nobody is stuck --------------------------------------------------------------------------

  /** The reply at the head of the stream is one handleOne refuses: the run leaves the error-free ones. */
  predicate Refused(s: Client)
  {
    s.replies != [] && !Accepts(s, s.replies[0])
  }

  /** While some call is unfinished, a client step is possible, or the one receiver is waiting for a server that owes
      an answer. */
  lemma NotStuck(s: Client, c: nat)
    requires Inv(s) && c < |s.calls| && !s.calls[c].pc.Over? && !Refused(s)
    ensures exists step: Step :: !step.Begin? && Enabled(s, step)
  {
    hide TagsSound, PendingSound;
    assert CallSound(s, c);
    var call := s.calls[c];
    match call.pc
    case Tagged => assert Enabled(s, Register(c));
    case Listed => assert Enabled(s, Send(c));
    case Answered(_) => assert Enabled(s, Return(c));
    case Waiting =>
      if s.token {
        var h :| 0 <= h < |s.calls| && Holder(s.calls[h].pc);
        HolderMoves(s, h);
      } else {
        assert Enabled(s, TakeToken(c));
      }
    case Over => assert false;
    case _ => HolderMoves(s, c);
  }

  lemma HolderMoves(s: Client, h: nat)
    requires Inv(s) && h < |s.calls| && Holder(s.calls[h].pc) && !Refused(s)
    ensures exists step: Step :: !step.Begin? && Enabled(s, step)
  {
    hide TagsSound, PendingSound, TokenSound;
    assert CallSound(s, h);
    if s.calls[h].stage.InHand? {
      var g :| 0 <= g < |s.calls| && s.calls[g].pc.Handing? && s.calls[g].pc.to == h;
      OneHand(s, g, h);
    }
    if s.calls[h].pc.Holding? {
      assert Enabled(s, if s.calls[h].slot.Some? then LeaveToken(h) else GoReceive(h));
    } else if s.calls[h].pc.Handing? {
      assert CallSound(s, s.calls[h].pc.to);
      assert Enabled(s, Signal(h));
    } else if s.calls[h].pc.Returning? {
      assert Enabled(s, Release(h));
    } else if s.replies != [] {
      assert Enabled(s, Receive(h));
    } else {
      assert Enabled(s, Answer(h, RLERROR));
    }
  }

  // ---- and every run without new calls ends ----------------------------------------------------

  function StageRank(stage: Stage): nat
  {
    match stage
    case Unsent => 50
    case Asked => 40
    case OnWire => 30
    case InHand => 20
    case Signalled => 10
    case Consumed => 0
  }

  function PcRank(pc: Pc): nat
  {
    match pc
    case Tagged => 9
    case Listed => 8
    case Waiting => 7
    case Holding => 6
    case Receiving => 5
    case Handing(_, _) => 12
    case Returning => 13
    case Answered(_) => 1
    case Over => 0
  }

  function Rank(call: Call): nat
  {
    StageRank(call.stage) + PcRank(call.pc)
  }

  function Measure(calls: seq<Call>): nat
  {
    if calls == [] then 0 else Measure(calls[..|calls| - 1]) + Rank(calls[|calls| - 1])
  }

  lemma {:induction false} MeasureSet(calls: seq<Call>, c: nat, call: Call)
    requires c < |calls|
    ensures Measure(calls[c := call]) + Rank(calls[c]) == Measure(calls) + Rank(call)
  {
    hide Rank;
    var front := calls[..|calls| - 1];
    if c < |calls| - 1 {
      MeasureSet(front, c, call);
      assert calls[c := call][..|calls| - 1] == front[c := call];
    } else {
      assert calls[c := call][..|calls| - 1] == front;
    }
  }

  /** Every step but the start of a call brings the end nearer, whoever wins the token. */
  lemma StepDescends(s: Client, step: Step)
    requires Inv(s) && Enabled(s, step) && !step.Begin?
    ensures Measure(Apply(s, step).calls) < Measure(s.calls)
  {
    hide Measure, TagsSound, PendingSound, TokenSound, HandSound, WireSound;
    Involved(s, step);
    var s', c, d := Apply(s, step), step.c, Other(s, step);
    if step.Receive? {
      Matches(s, c);
      var mid := s.calls[c := s.calls[c].(pc := Handing(s.replies[0], d))];
      MeasureSet(s.calls, c, mid[c]);
      MeasureSet(mid, d, s'.calls[d]);
    } else if step.Signal? {
      var mid := s.calls[c := s.calls[c].(pc := Returning)];
      MeasureSet(s.calls, c, mid[c]);
      MeasureSet(mid, d, s'.calls[d]);
    } else {
      MeasureSet(s.calls, c, s'.calls[c]);
    }
  }

  /** Without new calls a run is no longer than the measure; where it cannot go on, every call is over or a reply was
      refused. */
  lemma {:induction false} RunsEnd(s: Client, steps: seq<Step>, s': Client)
    requires Inv(s) && Run(s, steps, s') && forall step | step in steps :: !step.Begin?
    ensures |steps| <= Measure(s.calls)
    ensures (forall step: Step | !step.Begin? :: !Enabled(s', step)) && !Refused(s') ==>
              forall c | 0 <= c < |s'.calls| :: s'.calls[c].pc.Over?
    decreases |steps|
  {
    hide Inv, Enabled, Apply, Measure, Refused;
    if steps == [] {
      forall c | 0 <= c < |s.calls| && !s.calls[c].pc.Over? && !Refused(s) ensures exists step: Step ::
          !step.Begin? && Enabled(s, step) {
        NotStuck(s, c);
      }
    } else {
      StepKeeps(s, steps[0]);
      StepDescends(s, steps[0]);
      RunsEnd(Apply(s, steps[0]), steps[1..], s');
    }
  }
}
