/** Whole runs of the server: any sequence of requests from any number of connections. */
module Runs {
  import opened Objects
  import opened Forest
  import opened Bookkeeping
  import opened Reshape
  import opened Handlers
  import opened Safety

  datatype Event =
    | Attaches(key: Key, root: WalkStep, names: seq<string>, steps: seq<WalkStep>)
    | Walks(key: Key, newKey: Key, names: seq<string>, steps: seq<WalkStep>, clone: WalkStep)
    | Opens(key: Key, readOnly: bool, canOpen: bool, answer: Answer)
    | Creates(key: Key, name: string, step: WalkStep)
    | Unlinks(key: Key, name: string, answer: Answer, node: PathNode)
    | Removes(key: Key, answer: Answer)
    | Renames(key: Key, target: Key, newName: string, answer: Answer, order: seq<FidRef>)
    | RenamesAt(key: Key, oldName: string, target: Key, newName: string, answer: Answer, order: seq<FidRef>)
    | Clunks(key: Key, answer: Answer)
    | XattrWalks(key: Key, newKey: Key, answer: Answer, ref: FidRef)
    | Stops(keys: seq<Key>)

  /** Allocation yields new objects, and a rename visits each reference it carries along once. */
  ghost predicate Allowed(s: Store, e: Event)
  {
    match e
    case Attaches(_, root, names, steps) => |steps| == |names| && FreshSteps(s, [root] + steps)
    case Walks(_, _, names, steps, clone) => |steps| == |names| && FreshSteps(s, steps) && FreshStep(s, clone)
    case Creates(_, _, step) => FreshStep(s, step)
    case Unlinks(_, _, _, node) => node !in s.kids
    case Renames(key, _, _, _, order) => RenameOrder(s, key, order)
    case RenamesAt(key, oldName, _, _, _, order) =>
      key in s.fids && Sound(s, s.fids[key]) ==> Lists(order, Movers(s.names, s.what[s.fids[key]].node, oldName))
    case XattrWalks(_, _, _, ref) => ref !in s.what && ref !in s.isOpen
    case _ => true
  }

  ghost function Apply(s: Store, e: Event): (Store, Reply)
    requires Allowed(s, e)
  {
    match e
    case Attaches(key, root, names, steps) => Handlers.Attach(s, key, root, names, steps)
    case Walks(key, newKey, names, steps, clone) => Walk(s, key, newKey, names, steps, clone)
    case Opens(key, readOnly, canOpen, answer) => Open(s, key, readOnly, canOpen, answer)
    case Creates(key, name, step) => Create(s, key, name, step)
    case Unlinks(key, name, answer, node) => Unlink(s, key, name, answer, node)
    case Removes(key, answer) => Remove(s, key, answer)
    case Renames(key, target, newName, answer, order) => Rename(s, key, target, newName, answer, order)
    case RenamesAt(key, oldName, target, newName, answer, order) => RenameAt(s, key, oldName, target, newName, answer,
        order)
    case Clunks(key, answer) => Clunk(s, key, answer)
    case XattrWalks(key, newKey, answer, ref) => XattrWalk(s, key, newKey, answer, ref)
    case Stops(keys) => (Stop(s, keys), Done([]))
  }

  /** A server with no attached client: one path node, the root. */
  ghost function Initial(root: PathNode): Store
  {
    Store(root, map[root := map[]], {}, map[root := map[]], map[], map[], map[], {}, map[], map[], map[])
  }

  /** The states of a run: every event is allowed where it happens and leads to the next state. */
  ghost predicate Run(trace: seq<Store>, events: seq<Event>)
  {
    && |trace| == |events| + 1
    && (forall i | 0 <= i < |events| :: Allowed(trace[i], events[i]) && trace[i + 1] == Apply(trace[i], events[i]).0)
  }

  lemma InitialInv(root: PathNode)
    ensures Inv(Initial(root), multiset{})
  {
    var s := Initial(root);
    forall p ensures From(s.kids, root, p) == if p == [] then root else null {
      BarrenPath(s.kids, root, p);
    }
    assert Reaches(s.kids, root, root) by { assert From(s.kids, root, []) == root; }
    assert Top(s.kids, root);
  }

  /** No request breaks the invariant, leaks a reference or panics. */
  lemma StepKeeps(s: Store, e: Event)
    requires Inv(s, multiset{}) && Allowed(s, e)
    ensures Inv(Apply(s, e).0, multiset{}) && Apply(s, e).1 != Panic
  {
    hide Inv, FreshSteps, FreshStep, Lists, RenameOrder, Walk, Open, Create, Unlink, Remove, Rename, RenameAt, Clunk;
    hide XattrWalk, Stop;
    hide Handlers.Attach;
    match e
    case Attaches(key, root, names, steps) => AttachKeeps(s, key, root, names, steps);
    case Walks(key, newKey, names, steps, clone) => WalkKeeps(s, key, newKey, names, steps, clone);
    case Opens(key, readOnly, canOpen, answer) => OpenKeeps(s, key, readOnly, canOpen, answer);
    case Creates(key, name, step) => CreateKeeps(s, key, name, step);
    case Unlinks(key, name, answer, node) => UnlinkKeeps(s, key, name, answer, node);
    case Removes(key, answer) => RemoveKeeps(s, key, answer);
    case Renames(key, target, newName, answer, order) => RenameKeeps(s, key, target, newName, answer, order);
    case RenamesAt(key, oldName, target, newName, answer, order) => RenameAtKeeps(s, key, oldName, target, newName,
        answer, order);
    case Clunks(key, answer) => ClunkKeeps(s, key, answer);
    case XattrWalks(key, newKey, answer, ref) => XattrWalkKeeps(s, key, newKey, answer, ref);
    case Stops(keys) => StopKeeps(s, keys);
  }

  /** In every run the invariant holds in every state and none of the "should not happen" panics happens. */
  lemma {:induction false} RunKeeps(root: PathNode, trace: seq<Store>, events: seq<Event>, i: nat)
    requires Run(trace, events) && trace[0] == Initial(root) && i <= |events|
    ensures Inv(trace[i], multiset{})
    ensures i < |events| ==> Apply(trace[i], events[i]).1 != Panic
    decreases i
  {
    hide Inv, Apply, Allowed;
    if i == 0 {
      InitialInv(root);
    } else {
      RunKeeps(root, trace, events, i - 1);
      StepKeeps(trace[i - 1], events[i - 1]);
    }
    if i < |events| { StepKeeps(trace[i], events[i]); }
  }
}
