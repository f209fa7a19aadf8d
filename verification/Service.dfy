/** The server at work: whole runs of requests on its heap are runs of the model. */
module Service {
  import opened Objects
  import opened Forest
  import opened Bookkeeping
  import opened Reshape
  import opened Handlers
  import opened Safety
  import opened Runs
  import opened ServerHeap
  import Consequences
  import ServerHandlers
  import Versions
  import Outcomes
  import Attributes

  // ---- attach names ---------------------------------------------------------------------------

  /** The elements of an attach name: a leading slash is dropped, and nothing is left of the root. */
  function AttachNames(name: string): seq<string>
  {
    var n := if name != "" && name[0] == '/' then name[1..] else name;
    if n == "" then [] else Versions.Split(n, '/')
  }

  function Slashed(names: seq<string>): string
    requires names != []
  {
    if |names| == 1 then names[0] else names[0] + ['/'] + Slashed(names[1..])
  }

  /** Safe names, joined by slashes, with a leading one or without, come apart as they were. */
  lemma NamesBack(names: seq<string>)
    requires names != [] && forall n | n in names :: SafeName(n)
    ensures AttachNames(Slashed(names)) == names && AttachNames(['/'] + Slashed(names)) == names
  {
    assert SafeName(names[0]);
    SplitBack(names);
    assert Slashed(names)[0] == names[0][0];
    assert (['/'] + Slashed(names))[1..] == Slashed(names);
  }

  lemma {:induction false} SplitBack(names: seq<string>)
    requires names != [] && forall n | n in names :: SafeName(n)
    ensures Versions.Split(Slashed(names), '/') == names && Slashed(names) != ""
  {
    assert SafeName(names[0]);
    if |names| == 1 {
      Versions.SplitNone(names[0], '/');
    } else {
      SplitBack(names[1..]);
      Versions.SplitFirst(names[0], Slashed(names[1..]), '/');
      assert [names[0]] + names[1..] == names;
    }
  }

  /** The root is attached by no name or by a slash. */
  lemma RootNames()
    ensures AttachNames("") == [] && AttachNames("/") == []
  {
  }

  /** An empty element, as between two slashes, is kept, and makes the walk fail. */
  lemma EmptyElement(a: string, b: string)
    requires SafeName(a) && SafeName(b)
    ensures AttachNames(a + "//" + b) == [a, "", b] && !SafeName("")
  {
    Versions.SplitNone(b, '/');
    Versions.SplitFirst("", b, '/');
    Versions.SplitFirst(a, "" + ['/'] + b, '/');
    assert a + "//" + b == a + ['/'] + ("" + ['/'] + b);
    assert (a + "//" + b)[0] == a[0];
  }

  // ---- requests ---------------------------------------------------------------------------------

  /** A request, with the answers of the backing files. */
  datatype Request =
    | Tattach(key: Key, authenticated: bool, attachName: string, answer: Answer, answers: seq<Answer>)
    | Twalk(key: Key, newKey: Key, names: seq<string>, answers: seq<Answer>, answer: Answer)
    | Tlopen(key: Key, readOnly: bool, canOpen: bool, answer: Answer)
    | Tlcreate(key: Key, name: string, answer: Answer)
    | Tunlinkat(key: Key, name: string, answer: Answer)
    | Tremove(key: Key, answer: Answer)
    | Trename(key: Key, target: Key, newName: string, answer: Answer)
    | Trenameat(key: Key, oldName: string, target: Key, newName: string, answer: Answer)
    | Tclunk(key: Key, answer: Answer)
    | Txattrwalk(key: Key, newKey: Key, answer: Answer)
    | Closed(keys: seq<Key>)   // the end of a connection

  predicate Answerable(r: Request)
  {
    (r.Tattach? ==> |r.answers| == |AttachNames(r.attachName)|) && (r.Twalk? ==> |r.answers| == |r.names|)
  }

  /** The event is this request with these answers. */
  ghost predicate Describes(e: Event, r: Request)
  {
    match r
    case Tattach(key, authenticated, attachName, answer, answers) =>
      && e.Attaches? && e.key == key && e.names == AttachNames(attachName) && ServerHandlers.Answered(e.steps, answers)
      && e.root.answer == if authenticated then Refused(EINVAL) else answer
    case Twalk(key, newKey, names, answers, answer) =>
      && e.Walks? && e.key == key && e.newKey == newKey && e.names == names
      && ServerHandlers.Answered(e.steps, answers) && e.clone.answer == answer
    case Tlopen(key, readOnly, canOpen, answer) => e == Opens(key, readOnly, canOpen, answer)
    case Tlcreate(key, name, answer) => e.Creates? && e.key == key && e.name == name && e.step.answer == answer
    case Tunlinkat(key, name, answer) => e.Unlinks? && e == Unlinks(key, name, answer, e.node)
    case Tremove(key, answer) => e == Removes(key, answer)
    case Trename(key, target, newName, answer) => e.Renames? && e == Renames(key, target, newName, answer, e.order)
    case Trenameat(key, oldName, target, newName, answer) =>
      e.RenamesAt? && e == RenamesAt(key, oldName, target, newName, answer, e.order)
    case Tclunk(key, answer) => e == Clunks(key, answer)
    case Txattrwalk(key, newKey, answer) => e.XattrWalks? && e == XattrWalks(key, newKey, answer, e.ref)
    case Closed(keys) => e == Stops(keys)
  }

  /** One request on the heap is one allowed event of the model. */
  method Handle(sv: Server, r: Request) returns (reply: Reply, ghost e: Event)
    requires sv.Valid() && Inv(sv.View(), multiset{}) && Answerable(r)
    modifies sv, sv.nodes, sv.refs, sv.files
    ensures sv.Valid() && ServerHandlers.Grows(sv) && Inv(sv.View(), multiset{}) && Describes(e, r)
    ensures Allowed(old(sv.View()), e) && (sv.View(), reply) == Apply(old(sv.View()), e)
  {
    hide Inv, Server.Valid, Server.View, FreshSteps, FreshStep, RenameOrder, ServerHandlers.OrderedAt;
    hide ServerHandlers.Answered;
    hide Handlers.Attach, Handlers.Walk, Handlers.Open, Handlers.Create, Handlers.Unlink, Handlers.Remove;
    hide Handlers.Rename;
    hide Handlers.RenameAt, Handlers.Clunk, Handlers.XattrWalk, Handlers.Stop;
    match r {
      case Tattach(key, authenticated, attachName, answer, answers) =>
        ghost var root, steps;
        var names := AttachNames(attachName);
        // An authentication fid is refused before the backing file system is asked.
        var granted := if authenticated then Refused(EINVAL) else answer;
        reply, root, steps := ServerHandlers.Attach(sv, key, granted, names, answers);
        e := Attaches(key, root, names, steps);
      case Twalk(key, newKey, names, answers, answer) =>
        ghost var steps, clone;
        reply, steps, clone := ServerHandlers.Walk(sv, key, newKey, names, answers, answer);
        e := Walks(key, newKey, names, steps, clone);
      case Tlcreate(key, name, answer) =>
        ghost var step;
        reply, step := ServerHandlers.Create(sv, key, name, answer);
        e := Creates(key, name, step);
      case Tunlinkat(key, name, answer) =>
        ghost var node;
        reply, node := ServerHandlers.Unlink(sv, key, name, answer);
        e := Unlinks(key, name, answer, node);
      case Txattrwalk(key, newKey, answer) =>
        ghost var ref;
        reply, ref := ServerHandlers.XattrWalk(sv, key, newKey, answer);
        e := XattrWalks(key, newKey, answer, ref);
      case _ =>
        reply, e := HandleInPlace(sv, r);
        ServerHandlers.SameSets(sv);
    }
  }

  /** The requests that make no objects. */
  method HandleInPlace(sv: Server, r: Request) returns (reply: Reply, ghost e: Event)
    requires sv.Valid() && Inv(sv.View(), multiset{})
    requires !r.Tattach? && !r.Twalk? && !r.Tlcreate? && !r.Tunlinkat? && !r.Txattrwalk?
    modifies sv`fids, sv.nodes, sv.refs, sv.files
    ensures sv.Valid() && Inv(sv.View(), multiset{}) && Describes(e, r)
    ensures Allowed(old(sv.View()), e) && (sv.View(), reply) == Apply(old(sv.View()), e)
  {
    hide Inv, Server.Valid, Server.View, RenameOrder, Lists;
    hide Handlers.Open, Handlers.Remove, Handlers.Rename, Handlers.RenameAt, Handlers.Clunk, Handlers.Stop;
    match r {
      case Tlopen(key, readOnly, canOpen, answer) =>
        reply := ServerHandlers.Open(sv, key, readOnly, canOpen, answer);
        e := Opens(key, readOnly, canOpen, answer);
      case Tremove(key, answer) =>
        reply := ServerHandlers.Remove(sv, key, answer);
        e := Removes(key, answer);
      case Trename(key, target, newName, answer) =>
        ghost var order;
        reply, order := ServerHandlers.Rename(sv, key, target, newName, answer);
        e := Renames(key, target, newName, answer, order);
      case Trenameat(key, oldName, target, newName, answer) =>
        ghost var order;
        reply, order := ServerHandlers.RenameAt(sv, key, oldName, target, newName, answer);
        e := RenamesAt(key, oldName, target, newName, answer, order);
      case Tclunk(key, answer) =>
        reply := ServerHandlers.Clunk(sv, key, answer);
        e := Clunks(key, answer);
      case Closed(keys) =>
        ServerHandlers.Stop(sv, keys);
        reply, e := Done([]), Stops(keys);
    }
  }

  /** Tclunk with the pending attribute of the fid's reference: what is asked of the backing file, the reply, and the
      fid gone whatever became of it. */
  method ClunkAttribute(sv: Server, key: Key, attr: Attributes.Pending, backing: Answer)
      returns (reply: Reply, effect: Attributes.Effect)
    requires sv.Valid() && Inv(sv.View(), multiset{})
    modifies sv`fids, sv.refs`refs, sv.files`closes, sv.nodes`childRefs, sv.nodes`childRefNames
    ensures sv.Valid() && Inv(sv.View(), multiset{}) && sv.View() == Clear(old(sv.View()), key)
    ensures if key !in old(sv.View()).fids then reply == Fail(EBADF) && effect == Attributes.Nothing
            else
              && effect == Attributes.ClunkAttr(attr.op, attr.name, attr.size, attr.flags, attr.buf)
              && reply == if effect == Attributes.Rejected then Fail(EINVAL)
                          else if effect != Attributes.Nothing && backing.Refused? then Fail(backing.errno)
                          else Done([])
  {
    hide Inv, Server.Valid, Server.View, Handlers.Clunk, Clear, Attributes.ClunkAttr;
    ServerHandlers.TableRow(sv);
    effect := Attributes.Nothing;
    if key in sv.fids { effect := attr.Clunk(); }
    var answer := if effect == Attributes.Rejected then Refused(EINVAL)
                  else if effect == Attributes.Nothing then Granted(0, false) else backing;
    Outcomes.ClunkEnds(sv.View(), key, answer);
    reply := ServerHandlers.Clunk(sv, key, answer);
  }

  /** The replies are those of the model's run, event by event. */
  ghost predicate Replied(trace: seq<Store>, events: seq<Event>, rs: seq<Request>, replies: seq<Reply>)
  {
    && Run(trace, events) && |events| == |rs| == |replies|
    && forall i | 0 <= i < |rs| :: Describes(events[i], rs[i]) && replies[i] == Apply(trace[i], events[i]).1
  }

  lemma OneMore(trace: seq<Store>, events: seq<Event>, rs: seq<Request>, replies: seq<Reply>, r: Request, e: Event,
                s: Store, reply: Reply)
    requires Replied(trace, events, rs, replies) && Describes(e, r) && Allowed(trace[|rs|], e)
    requires Apply(trace[|rs|], e) == (s, reply)
    ensures Replied(trace + [s], events + [e], rs + [r], replies + [reply])
  {
    hide Describes, Allowed, Apply;
    var t, es, qs, ps := trace + [s], events + [e], rs + [r], replies + [reply];
    forall i | 0 <= i < |es| ensures Allowed(t[i], es[i]) && t[i + 1] == Apply(t[i], es[i]).0 && Describes(es[i], qs[i])
      && ps[i] == Apply(t[i], es[i]).1 {
      if i < |events| {
        assert t[i] == trace[i] && t[i + 1] == trace[i + 1] && es[i] == events[i] && qs[i] == rs[i]
               && ps[i] == replies[i];
      } else {
        assert t[i] == trace[|rs|] && es[i] == e && qs[i] == r && ps[i] == reply && t[i + 1] == s;
      }
    }
  }

  /** Any requests, one after the other, on a server in a sound state. */
  method Serve(sv: Server, rs: seq<Request>)
      returns (replies: seq<Reply>, ghost trace: seq<Store>, ghost events: seq<Event>)
    requires sv.Valid() && Inv(sv.View(), multiset{}) && forall r | r in rs :: Answerable(r)
    modifies sv, sv.nodes, sv.refs, sv.files
    ensures sv.Valid() && Inv(sv.View(), multiset{})
    ensures Replied(trace, events, rs, replies) && trace[0] == old(sv.View()) && trace[|rs|] == sv.View()
  {
    hide Inv, Server.Valid, Server.View, Replied, Describes, Allowed, Apply;
    replies, trace, events := [], [sv.View()], [];
    Nothing(sv.View());
    var i := 0;
    assert rs[..0] == [];
    while i < |rs|
      invariant 0 <= i <= |rs| && sv.Valid() && Inv(sv.View(), multiset{}) && ServerHandlers.Grows(sv)
      invariant |trace| == i + 1 && Replied(trace, events, rs[..i], replies) && trace[0] == old(sv.View())
      invariant trace[i] == sv.View()
    {
      assert Answerable(rs[i]);
      ghost var e;
      var reply;
      reply, e := Handle(sv, rs[i]);
      OneMore(trace, events, rs[..i], replies, rs[i], e, sv.View(), reply);
      assert rs[..i + 1] == rs[..i] + [rs[i]];
      replies, trace, events := replies + [reply], trace + [sv.View()], events + [e];
      i := i + 1;
    }
    assert rs[..|rs|] == rs;
  }

  lemma Nothing(s: Store)
    ensures Replied([s], [], [], [])
  {
  }

  /** A live, undeleted reference of the heap, made by anything but a walk to an attribute, and its file's path. */
  ghost predicate HoldsItsPath(sv: Server, f: FidRef)
    reads sv, sv.nodes, f, f.node, f.file
  {
    f.refs > 0 && !f.node.deleted && (f.parent != null || f.node == sv.root) ==>
        From(KidsOf(sv.nodes), sv.root, f.file.path) == f.node
  }

  /** A file of one reference is closed once that is dead, and not before. */
  ghost predicate ClosedInTime(sv: Server, f: FidRef)
    reads sv, sv.refs, f, f.file
  {
    (forall g | g in sv.refs && g != f :: g.file != f.file) ==> f.file.closes == if f.refs == 0 then 1 else 0
  }

  /** A server from its start: its heap goes through a run of the model, none of its replies is a panic, and in the
      end each backing file holds the path of its node and was closed if nobody refers to it any more; with no fid
      left, nobody does. */
  method Lifetime(rs: seq<Request>)
      returns (sv: Server, replies: seq<Reply>, ghost trace: seq<Store>, ghost events: seq<Event>)
    requires forall r | r in rs :: Answerable(r)
    ensures sv.Valid() && Replied(trace, events, rs, replies) && trace[0] == Initial(sv.root)
    ensures trace[|rs|] == sv.View()
    ensures forall i | 0 <= i < |replies| :: replies[i] != Panic
    ensures forall f | f in sv.refs :: HoldsItsPath(sv, f) && ClosedInTime(sv, f)
    ensures sv.fids == map[] ==> forall f | f in sv.refs :: f.refs == 0
  {
    hide Inv, Server.Valid, Server.View, Allowed, Apply, Describes;
    sv := new Server();
    InitialInv(sv.root);
    replies, trace, events := Serve(sv, rs);
    forall i | 0 <= i < |replies| ensures replies[i] != Panic { RunKeeps(sv.root, trace, events, i); }
    forall f | f in sv.refs ensures HoldsItsPath(sv, f) && ClosedInTime(sv, f) {
      PathHeld(sv, f);
      ClosedHeld(sv, f);
    }
    if sv.fids == map[] { AllDead(sv); }
  }

  lemma PathHeld(sv: Server, f: FidRef)
    requires sv.Valid() && Inv(sv.View(), multiset{}) && f in sv.refs
    ensures HoldsItsPath(sv, f)
  {
    hide Known, Tree, Registered, Present, Grounded, Counted, ClosedOnce, Sharing, From, Server.Valid, Server.View;
    ServerHandlers.Seen(sv, f);
    sv.Row(f);
    sv.Columns();
    if f.refs > 0 && !f.node.deleted && (f.parent != null || f.node == sv.root) { PathHolds(sv.View(), f); }
  }

  lemma ClosedHeld(sv: Server, f: FidRef)
    requires sv.Valid() && Inv(sv.View(), multiset{}) && f in sv.refs
    ensures ClosedInTime(sv, f)
  {
    hide Inv, Server.Valid, Server.View, Closes, Cnt;
    sv.Row(f);
    if forall g | g in sv.refs && g != f :: g.file != f.file {
      Others(sv, f);
      Consequences.ClosedWhenDead(sv.View(), multiset{}, f);
    }
  }

  lemma Others(sv: Server, f: FidRef)
    requires sv.Valid() && f in sv.refs && forall g | g in sv.refs && g != f :: g.file != f.file
    ensures f in sv.View().what && forall x | x in sv.View().what && x != f ::
              sv.View().what[x].file != sv.View().what[f].file
  {
  }

  lemma AllDead(sv: Server)
    requires sv.Valid() && Inv(sv.View(), multiset{}) && sv.fids == map[]
    ensures forall f | f in sv.refs :: f.refs == 0
  {
    hide Inv, Server.Valid, Server.View;
    ServerHandlers.TableRow(sv);
    Consequences.AllClosed(sv.View());
    forall f | f in sv.refs ensures f.refs == 0 { sv.Row(f); }
  }
}
