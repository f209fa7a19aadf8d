/** The request handlers that move references and path nodes, each as one atomic step on the server's bookkeeping. */
module Handlers {
  import opened Objects
  import opened Forest
  import opened Bookkeeping
  import opened Reshape

  const ENOENT := 2
  const EBADF := 9
  const EBUSY := 16
  const EISDIR := 21
  const EINVAL := 22

  /** What the backing file system answers: an errno, or success. */
  datatype Answer = Refused(errno: nat) | Granted(qid: nat, isDir: bool)

  /** One element of a walk: the backing answer, and the objects allocated if it is granted. */
  datatype WalkStep = WalkStep(answer: Answer, ref: FidRef, file: File, node: PathNode)

  datatype Reply = Done(qids: seq<nat>) | Fail(errno: nat) | Panic

  datatype Walked = Reached(ref: FidRef, qids: seq<nat>) | Stopped(errno: nat) | Crashed

  predicate SafeName(name: string)
  {
    name != "" && '/' !in name && name != "." && name != ".."
  }

  // ---- pieces shared by the handlers ---------------------------------------

  /** DecRef, on a parent chain that ends. */
  ghost function Put(s: Store, r: FidRef): Store
  {
    if Ends(s.parent, r) then Drop(s, r) else s
  }

  /** InsertFID: the table takes its own reference and closes what the slot held. */
  ghost function Insert(s: Store, key: Key, r: FidRef): Store
  {
    var s1 := Install(IncRef(s, r), key, r);
    if key in s.fids then Put(s1, s.fids[key]) else s1
  }

  ghost predicate Sound(s: Store, r: FidRef)
  {
    r in s.what && s.what[r].node in s.kids
  }

  /** One granted walk element: the new reference takes over the walk's hold on `w`. */
  ghost function Enter(s: Store, w: FidRef, name: string, step: WalkStep): Store
    requires Sound(s, w)
  {
    var n := s.what[w].node;
    var s1 := Grow(s, n, name, step.node);
    var c := s1.kids[n][name];
    Spawn(s1, step.ref, Ref(c, step.file, step.answer.Granted? && step.answer.isDir), w,
          Enrol(s1.names, n, step.ref, name),
          s1.path[step.file := PathOf(s1.path, s1.what[w].file) + [name]])
  }

  /** The loop of doWalk: `w` is the reference reached so far, held by the walk. */
  ghost function WalkLoop(s: Store, w: FidRef, names: seq<string>, steps: seq<WalkStep>, qids: seq<nat>): (Store,
                          Walked)
    requires |steps| == |names|
    decreases |names|
  {
    if names == [] then (s, Reached(w, qids))
    else if !Sound(s, w) then (s, Crashed)
    else if !s.what[w].dir then (Put(s, w), Stopped(EINVAL))
    else if s.what[w].node in s.deleted then (Put(s, w), Stopped(ENOENT))
    else if steps[0].answer.Refused? then (Put(s, w), Stopped(steps[0].answer.errno))
    else if steps[0].ref in At(s.names, s.what[w].node) then (s, Crashed)
    else WalkLoop(Enter(s, w, names[0], steps[0]), steps[0].ref, names[1..], steps[1..], qids + [steps[0].answer.qid])
  }

  /** The clone branch of doWalk: no names. */
  ghost function CloneOf(s: Store, r: FidRef, step: WalkStep): (Store, Walked)
  {
    if step.answer.Refused? then (s, Stopped(step.answer.errno))
    else if !Sound(s, r) then (s, Crashed)
    else
      var w := Ref(s.what[r].node, step.file, s.what[r].dir);
      var path := s.path[step.file := PathOf(s.path, s.what[r].file)];
      var p := Par(s.parent, r);
      if p == null then (Spawn(s, step.ref, w, null, s.names, path), Reached(step.ref, []))
      else if !Sound(s, p) then (s, Crashed)
      else if w.node in s.deleted then (Spawn(IncRef(s, p), step.ref, w, p, s.names, path), Reached(step.ref, []))
      else if r !in At(s.names, s.what[p].node) || step.ref in At(s.names, s.what[p].node) then (s, Crashed)
      else (Spawn(IncRef(s, p), step.ref, w, p,
                  Enrol(s.names, s.what[p].node, step.ref, At(s.names, s.what[p].node)[r]), path),
            Reached(step.ref, []))
  }

  ghost function DoWalk(s: Store, r: FidRef, names: seq<string>, steps: seq<WalkStep>, clone: WalkStep): (Store, Walked)
    requires |steps| == |names|
  {
    if exists i :: 0 <= i < |names| && !SafeName(names[i]) then (s, Stopped(EINVAL))
    else if names == [] then CloneOf(s, r, clone)
    else WalkLoop(IncRef(s, r), r, names, steps, [])
  }

  // ---- the handlers ----------------------------------------------------------

  ghost function Walk(s: Store, key: Key, newKey: Key, names: seq<string>, steps: seq<WalkStep>,
                      clone: WalkStep): (Store, Reply)
    requires |steps| == |names|
  {
    if key !in s.fids then (s, Fail(EBADF))
    else
      var r := s.fids[key];
      var s0 := IncRef(s, r);
      if r in s.isOpen && key == newKey then (Put(s0, r), Fail(EBUSY))
      else
        var (s1, w) := DoWalk(s0, r, names, steps, clone);
        match w
        case Stopped(e) => (Put(s1, r), Fail(e))
        case Crashed => (s1, Panic)
        case Reached(x, qids) => (Put(Put(Insert(s1, newKey, x), x), r), Done(qids))
  }

  ghost function Attach(s: Store, key: Key, root: WalkStep, names: seq<string>, steps: seq<WalkStep>): (Store, Reply)
    requires |steps| == |names|
  {
    if root.answer.Refused? then (s, Fail(root.answer.errno))
    else
      var s0 := Spawn(s, root.ref, Ref(s.root, root.file, root.answer.isDir), null, s.names, s.path[root.file := []]);
      if names == [] then (Put(Insert(s0, key, root.ref), root.ref), Done([root.answer.qid]))
      else
        var (s1, w) := DoWalk(s0, root.ref, names, steps, root);
        match w
        case Stopped(e) => (Put(s1, root.ref), Fail(e))
        case Crashed => (s1, Panic)
        case Reached(x, _) => (Put(Put(Insert(s1, key, x), x), root.ref), Done([root.answer.qid]))
  }

  ghost function Open(s: Store, key: Key, readOnly: bool, canOpen: bool, answer: Answer): (Store, Reply)
  {
    if key !in s.fids then (s, Fail(EBADF))
    else
      var r := s.fids[key];
      var s0 := IncRef(s, r);
      if !Sound(s, r) then (s, Panic)
      else if s.what[r].node in s.deleted || r in s.isOpen || !canOpen then (Put(s0, r), Fail(EINVAL))
      else if s.what[r].dir && !readOnly then (Put(s0, r), Fail(EISDIR))
      else if answer.Refused? then (Put(s0, r), Fail(answer.errno))
      else (Put(s0.(isOpen := s0.isOpen + {r}), r), Done([answer.qid]))
  }

  ghost function Create(s: Store, key: Key, name: string, step: WalkStep): (Store, Reply)
  {
    if !SafeName(name) then (s, Fail(EINVAL))
    else if key !in s.fids then (s, Fail(EBADF))
    else
      var r := s.fids[key];
      var s0 := IncRef(s, r);
      if !Sound(s, r) then (s, Panic)
      else if s.what[r].node in s.deleted || !s.what[r].dir || r in s.isOpen then (Put(s0, r), Fail(EINVAL))
      else if step.answer.Refused? then (Put(s0, r), Fail(step.answer.errno))
      else if step.ref in At(s.names, s.what[r].node) then (s, Panic)
      else
        var s1 := Enter(IncRef(s0, r), r, name, step.(answer := Granted(step.answer.qid, false)));
        var s2 := Install(s1.(isOpen := s1.isOpen + {step.ref}), key, step.ref);
        (Put(Put(s2, r), r), Done([step.answer.qid]))
  }

  ghost function Unlink(s: Store, key: Key, name: string, answer: Answer, node: PathNode): (Store, Reply)
  {
    if !SafeName(name) then (s, Fail(EINVAL))
    else if key !in s.fids then (s, Fail(EBADF))
    else
      var r := s.fids[key];
      var s0 := IncRef(s, r);
      if !Sound(s, r) then (s, Panic)
      else if s.what[r].node in s.deleted || !s.what[r].dir || r in s.isOpen then (Put(s0, r), Fail(EINVAL))
      else
        var s1 := Grow(s0, s.what[r].node, name, node);
        if answer.Refused? then (Put(s1, r), Fail(answer.errno))
        else (Put(Mark(s1, s.what[r].node, name), r), Done([]))
  }

  ghost function Remove(s: Store, key: Key, answer: Answer): (Store, Reply)
  {
    if key !in s.fids then (s, Fail(EBADF))
    else
      var r := s.fids[key];
      var s0 := IncRef(s, r);
      var p := Par(s.parent, r);
      if !Sound(s, r) then (s, Panic)
      else if p == null || s.what[r].node in s.deleted then (Put(Clear(s0, key), r), Fail(EINVAL))
      else if !Sound(s, p) || r !in At(s.names, s.what[p].node) then (s, Panic)
      else if answer.Refused? then (Put(Clear(s0, key), r), Fail(answer.errno))
      else (Put(Clear(Mark(s0, s.what[p].node, At(s.names, s.what[p].node)[r]), key), r), Done([]))
  }

  /** DeleteFID on a bound fid. */
  ghost function Clear(s: Store, key: Key): Store
  {
    if key in s.fids then Put(Unbind(s, key), s.fids[key]) else s
  }

  /** Tclunk clears the fid whatever became of the pending xattr write. */
  ghost function Clunk(s: Store, key: Key, xattr: Answer): (Store, Reply)
  {
    if key !in s.fids then (s, Fail(EBADF))
    else
      var r := s.fids[key];
      (Clear(Put(IncRef(s, r), r), key), if xattr.Refused? then Fail(xattr.errno) else Done([]))
  }

  ghost function XattrWalk(s: Store, key: Key, newKey: Key, answer: Answer, x: FidRef): (Store, Reply)
  {
    if key !in s.fids then (s, Fail(EBADF))
    else
      var r := s.fids[key];
      var s0 := IncRef(s, r);
      if !Sound(s, r) then (s, Panic)
      else if s.what[r].node in s.deleted then (Put(s0, r), Fail(EINVAL))
      else if answer.Refused? then (Put(s0, r), Fail(answer.errno))
      else
        var s1 := Install(Spawn(s0, x, Ref(s.what[r].node, s.what[r].file, false), null, s.names, s.path), newKey, x);
        (Put(if newKey in s.fids then Put(s1, s.fids[newKey]) else s1, r), Done([]))
  }

  // ---- rename ------------------------------------------------------------------

  ghost function PathTo(s: Store, n: PathNode): seq<string>
  {
    if Reaches(s.kids, s.root, n) then (var p :| From(s.kids, s.root, p) == n; p) else []
  }

  /** The backing file system refuses to move a directory into itself or onto one of its ancestors. */
  ghost predicate Illegal(s: Store, f: PathNode, oldName: string, t: PathNode, newName: string)
    requires f in s.kids && t in s.kids
  {
    || (oldName in s.kids[f] && Reaches(s.kids, s.kids[f][oldName], t))
    || (newName in s.kids[t] && Reaches(s.kids, s.kids[t][newName], f))
  }

  ghost function PutAll(s: Store, parent: Parents, order: seq<FidRef>): Store
    decreases |order|
  {
    if order == [] then s
    else
      var s1 := PutAll(s, parent, order[..|order| - 1]);
      var p := Par(parent, order[|order| - 1]);
      if p == null then s1 else Put(s1, p)
  }

  /** renameChildTo: false stands for a panic in addChildLocked or addPathNodeFor. */
  ghost function RenameChild(s: Store, f: PathNode, oldName: string, t: FidRef, newName: string,
                             order: seq<FidRef>): (Store, bool)
    requires f in s.kids && Sound(s, t)
  {
    var tn := s.what[t].node;
    var s1 := Mark(s, tn, newName);
    if oldName !in s1.kids[f] then (s1, true)
    else if newName in Without(s1.kids, f, oldName)[tn] then (s1, false)
    else if exists r :: r in order && r in At(s1.names[f := Unnamed(At(s1.names, f), oldName)], tn) then (s1, false)
    else (PutAll(Graft(s1, f, oldName, PathTo(s1, f), t, newName, order), s1.parent, order), true)
  }

  ghost function RenameAt(s: Store, key: Key, oldName: string, tkey: Key, newName: string, answer: Answer,
                          order: seq<FidRef>): (Store, Reply)
  {
    if !SafeName(oldName) || !SafeName(newName) then (s, Fail(EINVAL))
    else if key !in s.fids || tkey !in s.fids then (s, Fail(EBADF))
    else
      var r, t := s.fids[key], s.fids[tkey];
      var s0 := IncRef(IncRef(s, r), t);
      if !Sound(s, r) || !Sound(s, t) then (s, Panic)
      else
        var rn, tn := s.what[r].node, s.what[t].node;
        if rn in s.deleted || !s.what[r].dir || tn in s.deleted || !s.what[t].dir || r in s.isOpen
          then (Put(Put(s0, t), r), Fail(EINVAL))
        else if rn == tn && oldName == newName then (Put(Put(s0, t), r), Done([]))
        else if answer.Refused? || Illegal(s, rn, oldName, tn, newName) then
          (Put(Put(s0, t), r), Fail(if answer.Refused? then answer.errno else EINVAL))
        else
          var (s1, ok) := RenameChild(s0, rn, oldName, t, newName, order);
          if ok then (Put(Put(s1, t), r), Done([])) else (s1, Panic)
  }

  ghost function Rename(s: Store, key: Key, tkey: Key, newName: string, answer: Answer, order: seq<FidRef>): (Store,
                        Reply)
  {
    if !SafeName(newName) then (s, Fail(EINVAL))
    else if key !in s.fids || tkey !in s.fids then (s, Fail(EBADF))
    else
      var r, t := s.fids[key], s.fids[tkey];
      var s0 := IncRef(IncRef(s, r), t);
      var p := Par(s.parent, r);
      if !Sound(s, r) || !Sound(s, t) then (s, Panic)
      else if p == null || s.what[r].node in s.deleted || s.what[t].node in s.deleted || !s.what[t].dir then
        (Put(Put(s0, t), r), Fail(EINVAL))
      else if !Sound(s, p) || s.what[p].node in s.deleted || r !in At(s.names, s.what[p].node) then (s, Panic)
      else
        var pn, tn := s.what[p].node, s.what[t].node;
        var oldName := At(s.names, pn)[r];
        if pn == tn && oldName == newName then (Put(Put(s0, t), r), Done([]))
        else if answer.Refused? || Illegal(s, pn, oldName, tn, newName) then
          (Put(Put(s0, t), r), Fail(if answer.Refused? then answer.errno else EINVAL))
        else
          var (s1, ok) := RenameChild(s0, pn, oldName, t, newName, order);
          if ok then (Put(Put(s1, t), r), Done([])) else (s1, Panic)
  }

  /** stop: drop every fid of a connection that has no request left running. */
  ghost function Stop(s: Store, keys: seq<Key>): Store
    decreases |keys|
  {
    if keys == [] then s else Clear(Stop(s, keys[..|keys| - 1]), keys[|keys| - 1])
  }
}
