/** The request handlers over the server's heap, each proved to do what its model does and to keep the invariant. */
module ServerHandlers {
  import opened Objects
  import opened Forest
  import opened Bookkeeping
  import opened Reshape
  import opened Handlers
  import opened Safety
  import opened Walks
  import opened Renaming
  import opened ServerHeap
  import Runs
  import Telling

  /** The server's objects only grow, by new ones. */
  twostate predicate Grows(sv: Server)
    reads sv
  {
    && old(sv.nodes) <= sv.nodes && (forall n | n in sv.nodes :: n in old(sv.nodes) || fresh(n))
    && old(sv.refs) <= sv.refs && (forall r | r in sv.refs :: r in old(sv.refs) || fresh(r))
    && old(sv.files) <= sv.files && (forall f | f in sv.files :: f in old(sv.files) || fresh(f))
  }

  twostate lemma SameSets(sv: Server)
    requires sv.nodes == old(sv.nodes) && sv.refs == old(sv.refs) && sv.files == old(sv.files)
    ensures Grows(sv)
  {
  }

  // ---- references and the fid table ------------------------------------------------------

  method PutRef(sv: Server, f: FidRef, ghost held: multiset<FidRef>)
    requires sv.Valid() && Inv(sv.View(), held) && f in held
    modifies sv.refs`refs, sv.files`closes, sv.nodes`childRefs, sv.nodes`childRefNames
    ensures sv.Valid() && sv.View() == Put(old(sv.View()), f) && Inv(sv.View(), held - multiset{f})
  {
    hide Inv, Server.View, Server.Valid, Bookkeeping.DecRef;
    HeldIn(sv.View(), held, f);
    PutKeeps(sv.View(), held, f);
    sv.Owned();
    sv.DecRef(f, Height(sv.View().parent, f));
  }

  /** LookupFID, while holding `held`. */
  method LookupMore(sv: Server, key: Key, ghost held: multiset<FidRef>) returns (f: FidRef?)
    requires sv.Valid() && Inv(sv.View(), held)
    modifies sv.refs`refs
    ensures sv.Valid() && (f == null <==> key !in old(sv.View()).fids)
    ensures f == null ==> sv.View() == old(sv.View())
    ensures f != null ==>
              && f == old(sv.View()).fids[key] && f in sv.refs && sv.View() == IncRef(old(sv.View()), f)
              && Sound(old(sv.View()), f) && Inv(sv.View(), held + multiset{f})
  {
    hide Inv, Server.Valid;
    if key !in sv.fids { return null; }
    f := sv.fids[key];
    FidLive(sv.View(), held, key);
    IncRefKeeps(sv.View(), held, f);
    Bound(sv, key);
    sv.Count(f, 1);
  }

  method Lookup(sv: Server, key: Key) returns (f: FidRef?)
    requires sv.Valid() && Inv(sv.View(), multiset{})
    modifies sv.refs`refs
    ensures sv.Valid() && (f == null <==> key !in old(sv.View()).fids)
    ensures f == null ==> sv.View() == old(sv.View())
    ensures f != null ==>
              && f == old(sv.View()).fids[key] && f in sv.refs && sv.View() == IncRef(old(sv.View()), f)
              && Sound(old(sv.View()), f) && Inv(sv.View(), multiset{f})
  {
    hide Inv, Server.Valid, Server.View;
    f := LookupMore(sv, key, multiset{});
    assert f != null ==> multiset{} + multiset{f} == multiset{f};
  }

  lemma Bound(sv: Server, key: Key)
    requires sv.Valid() && key in sv.fids
    ensures sv.fids[key] in sv.refs && Cnt(sv.View().count, sv.fids[key]) == sv.fids[key].refs
  {
  }

  /** InsertFID: the table's own reference first, then the slot, then the reference the slot held. */
  method Insert(sv: Server, key: Key, f: FidRef, ghost held: multiset<FidRef>)
    requires sv.Valid() && Inv(sv.View(), held) && f in held
    modifies sv`fids, sv.refs`refs, sv.files`closes, sv.nodes`childRefs, sv.nodes`childRefNames
    ensures sv.Valid() && sv.View() == Handlers.Insert(old(sv.View()), key, f) && Inv(sv.View(), held)
  {
    hide Inv, Server.Valid, Server.View, Put;
    ghost var s := sv.View();
    InsertKeeps(s, held, key, f);
    HeldIn(s, held, f);
    IncRefKeeps(s, held, f);
    sv.Owned();
    sv.Row(f);
    var had, orig := key in sv.fids, f;
    if had { orig := sv.fids[key]; }
    TableRow(sv);
    AllBound(sv);
    sv.Count(f, 1);
    ghost var s1 := sv.View();
    Rebind(sv, sv.fids[key := f]);
    InstallKeeps(s1, held + multiset{f}, key, f);
    if had {
      assert held + multiset{f} - multiset{f} + Evicted(s1.fids, key) == held + multiset{orig};
      PutRef(sv, orig, held + multiset{orig});
    }
  }

  lemma TableRow(sv: Server)
    ensures sv.View().fids == sv.fids
  {
  }

  method Rebind(sv: Server, fids: map<Key, FidRef>)
    requires sv.Valid() && forall k | k in fids :: fids[k] in sv.refs
    modifies sv`fids
    ensures sv.Valid() && sv.fids == fids && sv.View() == old(sv.View()).(fids := fids)
  {
    hide KidsOf, DeletedOf, NamesOf, WhatOf, CountOf, ParentOf, OpenOf, PathsOf, ClosesOf, Mirrored, Enclosed;
    sv.fids := fids;
  }

  /** DeleteFID. */
  method Delete(sv: Server, key: Key, ghost held: multiset<FidRef>)
    requires sv.Valid() && Inv(sv.View(), held)
    modifies sv`fids, sv.refs`refs, sv.files`closes, sv.nodes`childRefs, sv.nodes`childRefNames
    ensures sv.Valid() && sv.View() == Clear(old(sv.View()), key) && Inv(sv.View(), held)
  {
    hide Inv, Server.Valid, Server.View, Put;
    TableRow(sv);
    ClearKeeps(sv.View(), held, key);
    if key in sv.fids {
      var f := sv.fids[key];
      UnbindKeeps(sv.View(), held, key);
      AllBound(sv);
      Rebind(sv, sv.fids - {key});
      PutRef(sv, f, held + multiset{f});
    }
  }

  lemma AllBound(sv: Server)
    requires sv.Valid()
    ensures forall k | k in sv.fids :: sv.fids[k] in sv.refs
  {
  }

  // ---- handlers that drop references -------------------------------------------------------

  method Clunk(sv: Server, key: Key, xattr: Answer) returns (reply: Reply)
    requires sv.Valid() && Inv(sv.View(), multiset{})
    modifies sv`fids, sv.refs`refs, sv.files`closes, sv.nodes`childRefs, sv.nodes`childRefNames
    ensures sv.Valid() && (sv.View(), reply) == Handlers.Clunk(old(sv.View()), key, xattr) && Inv(sv.View(), multiset{})
  {
    hide Inv, Server.Valid, Server.View, Put, Clear;
    var f := Lookup(sv, key);
    if f == null { return Fail(EBADF); }
    PutRef(sv, f, multiset{f});
    assert multiset{f} - multiset{f} == multiset{};
    Delete(sv, key, multiset{});
    reply := if xattr.Refused? then Fail(xattr.errno) else Done([]);
  }

  /** stop: every fid of the connection, in any order. */
  method Stop(sv: Server, keys: seq<Key>)
    requires sv.Valid() && Inv(sv.View(), multiset{})
    modifies sv`fids, sv.refs`refs, sv.files`closes, sv.nodes`childRefs, sv.nodes`childRefNames
    ensures sv.Valid() && sv.View() == Handlers.Stop(old(sv.View()), keys) && Inv(sv.View(), multiset{})
  {
    hide Inv, Server.Valid, Server.View, Clear;
    var i := 0;
    assert keys[..0] == [];
    while i < |keys|
      invariant 0 <= i <= |keys| && sv.Valid() && Inv(sv.View(), multiset{})
      invariant sv.View() == Handlers.Stop(old(sv.View()), keys[..i])
    {
      assert keys[..i + 1][..i] == keys[..i];
      Delete(sv, keys[i], multiset{});
      i := i + 1;
    }
    assert keys[..|keys|] == keys;
  }

  // ---- handlers that delete ----------------------------------------------------------------

  /** What the checks of a handler see of a reference is what the view says. */
  lemma Seen(sv: Server, f: FidRef)
    requires sv.Valid() && f in sv.refs
    ensures var s := sv.View();
            && f in s.what && s.what[f].node == f.node && s.what[f].dir == f.dir
            && (f.node in s.deleted <==> f.node.deleted)
            && (f in s.isOpen <==> f.isOpen) && Par(s.parent, f) == f.parent
            && (f.parent == null || f.parent in sv.refs)
            && f.node in sv.nodes && f.node in s.kids && s.kids[f.node] == f.node.childNodes
            && At(s.names, f.node) == f.node.childRefNames
            && Sound(s, f)
  {
    sv.Row(f);
  }

  lemma HasTree(sv: Server, held: multiset<FidRef>)
    requires sv.Valid() && Inv(sv.View(), held)
    ensures Tree(sv.root, KidsOf(sv.nodes), DeletedOf(sv.nodes))
  {
    hide Known, Registered, Present, Lineage, Grounded, Counted, ClosedOnce, Sharing, Paths, Tree, Server.Valid;
    sv.Columns();
  }

  method MarkDeleted(sv: Server, f: FidRef, name: string, ghost held: multiset<FidRef>)
    requires sv.Valid() && f in sv.refs && Inv(sv.View(), held) && !f.node.deleted
    modifies sv.nodes`childNodes, sv.nodes`childRefs, sv.nodes`childRefNames, sv.nodes`deleted
    ensures sv.Valid() && f.node in old(sv.View()).kids && sv.View() == Mark(old(sv.View()), f.node, name)
    ensures Inv(sv.View(), held)
  {
    hide Inv, Server.Valid, Server.View, Mark;
    Seen(sv, f);
    HasTree(sv, held);
    MarkKeeps(sv.View(), held, f.node, name);
    sv.MarkChildDeleted(f, name);
  }

  lemma MoreNodes(nodes: set<PathNode>, refs: set<FidRef>, files: set<File>, kids: Kids, names: Names, parent: Parents,
                  n: PathNode)
    requires Enclosed(nodes, refs, files, kids, names, parent)
    ensures Enclosed(nodes + {n}, refs, files, kids[n := map[]], names[n := map[]], parent)
  {
  }

  /** A node of the server's own. */
  method NewNode(sv: Server) returns (pn: PathNode)
    requires sv.Valid()
    modifies sv`nodes
    ensures fresh(pn) && sv.nodes == old(sv.nodes) + {pn} && sv.Valid() && pn !in old(sv.View()).kids
    ensures pn.childNodes == map[]
    ensures sv.View()
              == old(sv.View()).(kids := old(sv.View()).kids[pn := map[]], names := old(sv.View()).names[pn := map[]])
  {
    hide WhatOf, CountOf, ParentOf, OpenOf, PathsOf, ClosesOf, Enclosed;
    pn := new PathNode();
    MoreNodes(sv.nodes, sv.refs, sv.files, KidsOf(sv.nodes), NamesOf(sv.nodes), ParentOf(sv.refs), pn);
    sv.nodes := sv.nodes + {pn};
    assert KidsOf(sv.nodes) == old(KidsOf(sv.nodes))[pn := map[]];
    assert NamesOf(sv.nodes) == old(NamesOf(sv.nodes))[pn := map[]];
    assert DeletedOf(sv.nodes) == old(DeletedOf(sv.nodes));
  }

  /** pathNodeFor. The model's step takes a new node even where the name has one already. */
  method GrowNode(sv: Server, n: PathNode, name: string, ghost held: multiset<FidRef>)
      returns (pn: PathNode, ghost node: PathNode)
    requires sv.Valid() && n in sv.nodes && Inv(sv.View(), held) && !n.deleted
    modifies sv`nodes, n`childNodes
    ensures sv.Valid() && Grows(sv) && n in old(sv.View()).kids && Inv(sv.View(), held)
    ensures sv.View() == Grow(old(sv.View()), n, name, node) && fresh(node)
    ensures pn in sv.nodes && n in sv.View().kids && name in sv.View().kids[n] && sv.View().kids[n][name] == pn
    ensures name in old(sv.View()).kids[n] || node !in old(sv.View()).kids
  {
    hide Inv, Server.Valid, Server.View;
    NodeSeen(sv, n);
    sv.NodeRow(n);
    if name in n.childNodes {
      pn := n.childNodes[name];
      KidSeen(sv, n, name);
      node := new PathNode.Spare();
    } else {
      ghost var s := sv.View();
      pn := NewNode(sv);
      sv.HangKid(n, name, pn);
      GrowKeeps(s, held, n, name, pn);
      node := pn;
    }
  }

  lemma NodeSeen(sv: Server, n: PathNode)
    requires sv.Valid() && n in sv.nodes
    ensures n in sv.View().deleted <==> n.deleted
  {
  }

  lemma KidSeen(sv: Server, n: PathNode, name: string)
    requires sv.Valid() && n in sv.nodes && name in n.childNodes
    ensures n.childNodes[name] in sv.nodes
  {
    assert KidsOf(sv.nodes)[n] == n.childNodes;
  }

  lemma NodeNew(s: Store, node: PathNode)
    requires node !in KnownParts(s)
    ensures node !in s.kids
  {
  }

  method Unlink(sv: Server, key: Key, name: string, answer: Answer) returns (reply: Reply, ghost node: PathNode)
    requires sv.Valid() && Inv(sv.View(), multiset{})
    modifies sv, sv.refs`refs, sv.files`closes, sv.nodes
    ensures sv.Valid() && Grows(sv) && Inv(sv.View(), multiset{}) && node !in old(sv.View()).kids
    ensures (sv.View(), reply) == Handlers.Unlink(old(sv.View()), key, name, answer, node)
  {
    hide Inv, Server.Valid, Server.View, Handlers.Unlink, KnownParts;
    ghost var s := sv.View();
    ghost var known := KnownParts(s);
    KnownAllocated(s);
    ghost var spare := new PathNode.Spare();
    reply, node := UnlinkWith(sv, key, name, answer, spare);
    NodeNew(s, node);
  }

  /** The handler; `spare` stands for the node that it does not make. */
  method UnlinkWith(sv: Server, key: Key, name: string, answer: Answer, ghost spare: PathNode)
      returns (reply: Reply, ghost node: PathNode)
    requires sv.Valid() && Inv(sv.View(), multiset{})
    modifies sv, sv.refs`refs, sv.files`closes, sv.nodes
    ensures sv.Valid() && Grows(sv) && Inv(sv.View(), multiset{}) && (node == spare || fresh(node))
    ensures (sv.View(), reply) == Handlers.Unlink(old(sv.View()), key, name, answer, node)
  {
    hide Inv, Server.Valid, Server.View, Put, Mark, Grow, At;
    node := spare;
    if !SafeName(name) { return Fail(EINVAL), node; }
    ghost var s := sv.View();
    var f := Lookup(sv, key);
    if f == null { return Fail(EBADF), node; }
    reply, node := UnlinkFound(sv, key, f, name, answer, spare, s);
  }

  method UnlinkFound(sv: Server, ghost key: Key, f: FidRef, name: string, answer: Answer, ghost spare: PathNode,
                     ghost s: Store)
      returns (reply: Reply, ghost node: PathNode)
    requires sv.Valid() && f in sv.refs && Inv(sv.View(), multiset{f}) && SafeName(name)
    requires key in s.fids && s.fids[key] == f && Sound(s, f) && sv.View() == IncRef(s, f)
    modifies sv`nodes, sv.refs`refs, sv.files`closes, sv.nodes
    ensures sv.Valid() && Grows(sv) && Inv(sv.View(), multiset{}) && (node == spare || fresh(node))
    ensures (sv.View(), reply) == Handlers.Unlink(s, key, name, answer, node)
  {
    hide Inv, Server.Valid, Server.View, Put, Mark, Grow, Grows;
    node := spare;
    assert multiset{f} - multiset{f} == multiset{};
    Seen(sv, f);
    if f.node.deleted || !f.dir || f.isOpen {
      PutRef(sv, f, multiset{f});
      SameSets(sv);
      return Fail(EINVAL), node;
    }
    reply, node := UnlinkHere(sv, f, name, answer);
  }

  /** The node is made, and locked; then the backing file is asked. */
  method UnlinkHere(sv: Server, f: FidRef, name: string, answer: Answer) returns (reply: Reply, ghost node: PathNode)
    requires sv.Valid() && f in sv.refs && f.node in sv.nodes && Inv(sv.View(), multiset{f}) && !f.node.deleted
    modifies sv`nodes, sv.refs`refs, sv.files`closes, sv.nodes
    ensures sv.Valid() && Grows(sv) && Inv(sv.View(), multiset{}) && fresh(node)
    ensures var s := old(sv.View());
            && f.node in s.kids
            && var s1 := Grow(s, f.node, name, node);
               if answer.Refused? then (sv.View(), reply) == (Put(s1, f), Fail(answer.errno))
               else f.node in s1.kids && (sv.View(), reply) == (Put(Mark(s1, f.node, name), f), Done([]))
  {
    hide Inv, Server.Valid, Server.View, Put, Mark, Grow;
    var pn;
    pn, node := GrowNode(sv, f.node, name, multiset{f});
    assert multiset{f} - multiset{f} == multiset{};
    if answer.Refused? {
      PutRef(sv, f, multiset{f});
      return Fail(answer.errno), node;
    }
    MarkDeleted(sv, f, name, multiset{f});
    PutRef(sv, f, multiset{f});
    reply := Done([]);
  }

  /** What Tremove does under the global lock. */
  method RemoveGlobally(sv: Server, f: FidRef, answer: Answer) returns (reply: Reply)
    requires sv.Valid() && f in sv.refs && Inv(sv.View(), multiset{f})
    modifies sv.nodes
    ensures sv.Valid() && Inv(sv.View(), multiset{f})
    ensures var s := old(sv.View());
            var p := Par(s.parent, f);
            f in s.what &&
            if p == null || s.what[f].node in s.deleted then reply == Fail(EINVAL) && sv.View() == s
            else
              && Sound(s, p) && f in At(s.names, s.what[p].node)
              && if answer.Refused? then reply == Fail(answer.errno) && sv.View() == s
                 else reply == Done([]) && sv.View() == Mark(s, s.what[p].node, At(s.names, s.what[p].node)[f])
  {
    hide Inv, Server.Valid, Server.View, Mark;
    Seen(sv, f);
    if f.parent == null || f.node.deleted { return Fail(EINVAL); }
    RegisteredHeld(sv, f, multiset{f});
    Seen(sv, f.parent);
    var name := f.parent.node.NameFor(f);
    if answer.Refused? { return Fail(answer.errno); }
    MarkDeleted(sv, f.parent, name, multiset{f});
    reply := Done([]);
  }

  method Remove(sv: Server, key: Key, answer: Answer) returns (reply: Reply)
    requires sv.Valid() && Inv(sv.View(), multiset{})
    modifies sv`fids, sv.refs`refs, sv.files`closes, sv.nodes
    ensures sv.Valid() && (sv.View(), reply) == Handlers.Remove(old(sv.View()), key, answer)
    ensures Inv(sv.View(), multiset{})
  {
    hide Inv, Server.Valid, Server.View, Put, Mark, Clear, At, Par;
    var f := Lookup(sv, key);
    if f == null { return Fail(EBADF); }
    assert multiset{f} - multiset{f} == multiset{};
    reply := RemoveGlobally(sv, f, answer);
    Delete(sv, key, multiset{f});
    PutRef(sv, f, multiset{f});
  }

  /** nameFor finds its name: a live, undeleted reference is registered with its parent, which is live and undeleted
      too. */
  lemma RegisteredHeld(sv: Server, f: FidRef, held: multiset<FidRef>)
    requires sv.Valid() && f in sv.refs && Inv(sv.View(), held) && f in held && f.parent != null && !f.node.deleted
    ensures f.parent in sv.refs && f in f.parent.node.childRefNames && !f.parent.node.deleted && f.parent.dir
  {
    hide Inv, Server.Valid, Server.View;
    Seen(sv, f);
    Seen(sv, f.parent);
    HeldIn(sv.View(), held, f);
    ParentAbove(sv.View(), held, f);
    ParentDir(sv.View(), held, f);
  }

  lemma ParentDir(s: Store, held: multiset<FidRef>, r: FidRef)
    requires Inv(s, held) && r in s.what && Par(s.parent, r) != null && Par(s.parent, r) in s.what
    ensures s.what[Par(s.parent, r)].dir
  {
    hide Known, Tree, Registered, Present, Grounded, Counted, ClosedOnce, Sharing, Paths;
  }

  // ---- rename ----------------------------------------------------------------------------------

  /** Drops the holds of a handler that looked up two fids. */
  method Put2(sv: Server, f: FidRef, t: FidRef)
    requires sv.Valid() && Inv(sv.View(), multiset{f, t})
    modifies sv.refs`refs, sv.files`closes, sv.nodes`childRefs, sv.nodes`childRefNames
    ensures sv.Valid() && sv.View() == Put(Put(old(sv.View()), t), f) && Inv(sv.View(), multiset{})
  {
    hide Inv, Server.Valid, Server.View, Put;
    assert multiset{f, t} - multiset{t} == multiset{f} && multiset{f} - multiset{f} == multiset{};
    PutRef(sv, t, multiset{f, t});
    PutRef(sv, f, multiset{f});
  }

  // What the backing file system checks for itself before it grants a move.

  /** Whether the tree leads from `c` to `n`. */
  method Leads(sv: Server, c: PathNode, n: PathNode, ghost p: seq<string>) returns (b: bool)
    requires var kids := KidsOf(sv.nodes);
             Closed(kids) && SingleParent(kids) && Top(kids, sv.root) && From(kids, sv.root, p) == c && c in kids
               && n in kids
    ensures b <==> n in Below(KidsOf(sv.nodes), c)
    decreases Below(KidsOf(sv.nodes), c)
  {
    hide Closed, SingleParent, Top, From, Below;
    ghost var kids := KidsOf(sv.nodes);
    BelowSplits(kids, c, n);
    if c == n { return true; }
    var todo := c.childNodes.Keys;
    ghost var done: set<string> := {};
    while todo != {}
      invariant todo + done == kids[c].Keys && forall x | x in done :: n !in Below(kids, kids[c][x])
      decreases todo
    {
      var x :| x in todo;
      ChildSmaller(kids, sv.root, p, x);
      Telling.ChildIn(kids, c, x);
      b := Leads(sv, c.childNodes[x], n, p + [x]);
      if b { return; }
      todo, done := todo - {x}, done + {x};
    }
    b := false;
  }

  /** A move of a directory into itself, or onto one of its ancestors. */
  method IllegalMove(sv: Server, f: FidRef, oldName: string, t: FidRef, newName: string, ghost held: multiset<FidRef>)
      returns (b: bool)
    requires sv.Valid() && f in sv.refs && t in sv.refs && Inv(sv.View(), held) && !f.node.deleted && !t.node.deleted
    ensures f.node in sv.View().kids && t.node in sv.View().kids
    ensures b == Illegal(sv.View(), f.node, oldName, t.node, newName)
  {
    hide Inv, Server.Valid, Server.View, Reaches;
    Seen(sv, f);
    Seen(sv, t);
    b := LeadsFrom(sv, f, oldName, t.node, held);
    if !b { b := LeadsFrom(sv, t, newName, f.node, held); }
  }

  method LeadsFrom(sv: Server, f: FidRef, name: string, n: PathNode, ghost held: multiset<FidRef>) returns (b: bool)
    requires sv.Valid() && f in sv.refs && Inv(sv.View(), held) && !f.node.deleted && n in sv.View().kids
    ensures f.node in sv.View().kids
    ensures b == (name in sv.View().kids[f.node] && Reaches(sv.View().kids, sv.View().kids[f.node][name], n))
  {
    hide Inv, Server.Valid, Server.View, Tree, From;
    Seen(sv, f);
    if name !in f.node.childNodes { return false; }
    ghost var kids := sv.View().kids;
    sv.Columns();
    HasTree(sv, held);
    LiveReached(sv.View(), held, f.node);
    ghost var p :| From(kids, sv.root, p) == f.node;
    TreeParts(sv.root, kids, DeletedOf(sv.nodes));
    ChildSmaller(kids, sv.root, p, name);
    Telling.ChildIn(kids, f.node, name);
    b := Leads(sv, f.node.childNodes[name], n, p + [name]);
  }

  lemma TreeParts(root: PathNode, kids: Kids, deleted: set<PathNode>)
    requires Tree(root, kids, deleted)
    ensures Closed(kids) && SingleParent(kids) && Top(kids, root)
  {
  }

  /** Some order of a set of references. */
  lemma {:induction false} ListOf(m: set<FidRef>) returns (order: seq<FidRef>)
    ensures Lists(order, m)
  {
    if m == {} { return []; }
    var x :| x in m;
    order := ListOf(m - {x});
    order := order + [x];
  }

  /** What Trenameat and Trename do under the global lock once the names are known. `any` is an order of the moved
      references for the cases in which none moves. */
  method RenameGlobally(sv: Server, f: FidRef, oldName: string, t: FidRef, newName: string, answer: Answer,
                        ghost any: seq<FidRef>, ghost held: multiset<FidRef>)
      returns (reply: Reply, ghost order: seq<FidRef>)
    requires sv.Valid() && f in sv.refs && t in sv.refs && Inv(sv.View(), held) && t in held
    requires !f.node.deleted && !t.node.deleted && t.dir && Lists(any, Movers(sv.View().names, f.node, oldName))
    modifies sv.nodes, sv.refs`refs, sv.refs`parent, sv.files
    ensures sv.Valid() && Inv(sv.View(), held)
    ensures var s := old(sv.View());
            && f.node in s.kids && Sound(s, t) && s.what[t].node == t.node
            && Lists(order, Movers(s.names, f.node, oldName))
            && if f.node == t.node && oldName == newName then reply == Done([]) && sv.View() == s
               else if answer.Refused? || Illegal(s, f.node, oldName, t.node, newName) then
                 reply == Fail(if answer.Refused? then answer.errno else EINVAL) && sv.View() == s
               else
                 reply == Done([]) && RenameChild(s, f.node, oldName, t, newName, order) == (sv.View(), true)
  {
    hide Inv, Server.Valid, Server.View, RenameChild, Illegal, Lists, Movers;
    order := any;
    Seen(sv, f);
    Seen(sv, t);
    if f.node == t.node && oldName == newName { return Done([]), order; }
    if answer.Refused? { return Fail(answer.errno), order; }
    var illegal := IllegalMove(sv, f, oldName, t, newName, held);
    if illegal { return Fail(EINVAL), order; }
    ghost var s := sv.View();
    order := sv.RenameChildTo(f, oldName, t, newName, held);
    RenameChildKeeps(s, held, f.node, oldName, t, newName, order);
    reply := Done([]);
  }

  /** Both lookups of a rename; none is kept when one fails. */
  method Lookup2(sv: Server, key: Key, tkey: Key) returns (f: FidRef?, t: FidRef?)
    requires sv.Valid() && Inv(sv.View(), multiset{})
    modifies sv.refs`refs, sv.files`closes, sv.nodes`childRefs, sv.nodes`childRefNames
    ensures sv.Valid()
    ensures if key !in old(sv.View()).fids || tkey !in old(sv.View()).fids then
              (f == null || t == null) && sv.View() == old(sv.View()) && Inv(sv.View(), multiset{})
            else
              && f != null && t != null && f == old(sv.View()).fids[key] && t == old(sv.View()).fids[tkey]
              && f in sv.refs && t in sv.refs
              && sv.View() == IncRef(IncRef(old(sv.View()), f), t) && Inv(sv.View(), multiset{f, t})
              && Sound(old(sv.View()), f) && Sound(old(sv.View()), t)
  {
    hide Inv, Server.Valid, Server.View, Put;
    ghost var s := sv.View();
    f := Lookup(sv, key);
    if f == null { return null, null; }
    t := LookupMore(sv, tkey, multiset{f});
    if t == null {
      IncPut(s, multiset{}, f) by { FidLive(s, multiset{}, key); }
      PutRef(sv, f, multiset{f});
      assert multiset{f} - multiset{f} == multiset{};
    } else {
      assert multiset{f} + multiset{t} == multiset{f, t};
    }
  }

  /** The references a Trenameat would move are listed. */
  ghost predicate OrderedAt(s: Store, key: Key, oldName: string, order: seq<FidRef>)
  {
    key in s.fids && Sound(s, s.fids[key]) ==> Lists(order, Movers(s.names, s.what[s.fids[key]].node, oldName))
  }

  lemma SomeOrderAt(s: Store, key: Key, oldName: string) returns (order: seq<FidRef>)
    ensures OrderedAt(s, key, oldName, order)
  {
    hide Lists, Movers;
    order := [];
    if key in s.fids && Sound(s, s.fids[key]) { order := ListOf(Movers(s.names, s.what[s.fids[key]].node, oldName)); }
  }

  method RenameAt(sv: Server, key: Key, oldName: string, tkey: Key, newName: string, answer: Answer)
      returns (reply: Reply, ghost order: seq<FidRef>)
    requires sv.Valid() && Inv(sv.View(), multiset{})
    modifies sv.nodes, sv.refs`refs, sv.refs`parent, sv.files
    ensures sv.Valid() && Inv(sv.View(), multiset{}) && OrderedAt(old(sv.View()), key, oldName, order)
    ensures (sv.View(), reply) == Handlers.RenameAt(old(sv.View()), key, oldName, tkey, newName, answer, order)
  {
    hide Inv, Server.Valid, Server.View, Put, RenameChild, Illegal, Lists, Movers;
    ghost var s := sv.View();
    order := SomeOrderAt(s, key, oldName);
    TableRow(sv);
    if !SafeName(oldName) || !SafeName(newName) { return Fail(EINVAL), order; }
    var f, t := Lookup2(sv, key, tkey);
    if f == null || t == null { return Fail(EBADF), order; }
    Seen(sv, f);
    Seen(sv, t);
    if f.node.deleted || !f.dir || t.node.deleted || !t.dir || f.isOpen {
      Put2(sv, f, t);
      return Fail(EINVAL), order;
    }
    IllegalSame(s, sv.View(), f.node, oldName, t.node, newName);
    reply, order := RenameGlobally(sv, f, oldName, t, newName, answer, order, multiset{f, t});
    Put2(sv, f, t);
  }

  lemma IllegalSame(s: Store, s': Store, n: PathNode, oldName: string, t: PathNode, newName: string)
    requires s'.kids == s.kids && n in s.kids && t in s.kids
    ensures Illegal(s', n, oldName, t, newName) == Illegal(s, n, oldName, t, newName)
  {
  }

  /** The references that share `f`'s name are listed. */
  ghost predicate Orders(s: Store, f: FidRef, order: seq<FidRef>)
  {
    var p := Par(s.parent, f);
    p != null && Sound(s, p) && f in At(s.names, s.what[p].node) ==>
      Lists(order, Movers(s.names, s.what[p].node, At(s.names, s.what[p].node)[f]))
  }

  lemma SomeOrder(s: Store, key: Key) returns (order: seq<FidRef>)
    ensures RenameOrder(s, key, order)
  {
    hide Lists, Movers;
    order := [];
    if key in s.fids {
      var r := s.fids[key];
      var p := Par(s.parent, r);
      if p != null && Sound(s, p) && r in At(s.names, s.what[p].node) {
        order := ListOf(Movers(s.names, s.what[p].node, At(s.names, s.what[p].node)[r]));
      }
    }
  }

  /** The outcome of a rename under the global lock: what becomes of the store, and the reply. */
  ghost predicate NamedOutcome(s: Store, f: FidRef, t: FidRef, newName: string, answer: Answer, order: seq<FidRef>,
                               s': Store, reply: Reply)
  {
    var p := Par(s.parent, f);
    && Sound(s, f) && Sound(s, t) && Orders(s, f, order)
    && if p == null || s.what[f].node in s.deleted || s.what[t].node in s.deleted || !s.what[t].dir then
         reply == Fail(EINVAL) && s' == s
       else
         && Sound(s, p) && s.what[p].node !in s.deleted && f in At(s.names, s.what[p].node)
         && var pn, tn := s.what[p].node, s.what[t].node;
            var oldName := At(s.names, pn)[f];
            if pn == tn && oldName == newName then reply == Done([]) && s' == s
            else if answer.Refused? || Illegal(s, pn, oldName, tn, newName) then
              reply == Fail(if answer.Refused? then answer.errno else EINVAL) && s' == s
            else
              reply == Done([]) && RenameChild(s, pn, oldName, t, newName, order) == (s', true)
  }

  /** What Trename does under the global lock: find the name, then rename. */
  method RenameNamed(sv: Server, f: FidRef, t: FidRef, newName: string, answer: Answer, ghost any: seq<FidRef>)
      returns (reply: Reply, ghost order: seq<FidRef>)
    requires sv.Valid() && f in sv.refs && t in sv.refs && Inv(sv.View(), multiset{f, t}) && Orders(sv.View(), f, any)
    modifies sv.nodes, sv.refs`refs, sv.refs`parent, sv.files
    ensures sv.Valid() && Inv(sv.View(), multiset{f, t})
    ensures NamedOutcome(old(sv.View()), f, t, newName, answer, order, sv.View(), reply)
  {
    hide Inv, Server.Valid, Server.View, RenameChild, Illegal, Lists, Movers;
    order := any;
    Seen(sv, f);
    Seen(sv, t);
    if f.parent == null || f.node.deleted || t.node.deleted || !t.dir { return Fail(EINVAL), order; }
    RegisteredHeld(sv, f, multiset{f, t});
    Seen(sv, f.parent);
    var oldName := f.parent.node.NameFor(f);
    reply, order := RenameGlobally(sv, f.parent, oldName, t, newName, answer, any, multiset{f, t});
  }

  lemma OrderHeld(s: Store, key: Key, t: FidRef, order: seq<FidRef>)
    requires key in s.fids && RenameOrder(s, key, order)
    ensures Orders(IncRef(IncRef(s, s.fids[key]), t), s.fids[key], order)
  {
    hide Lists, Movers;
  }

  lemma RenameIs(s: Store, key: Key, tkey: Key, newName: string, answer: Answer, order: seq<FidRef>, s': Store,
                 reply: Reply)
    requires SafeName(newName) && key in s.fids && tkey in s.fids
    requires var f, t := s.fids[key], s.fids[tkey];
             Sound(s, f) && Sound(s, t)
               && NamedOutcome(IncRef(IncRef(s, f), t), f, t, newName, answer, order, s', reply)
    ensures Handlers.Rename(s, key, tkey, newName, answer, order) == (Put(Put(s', s.fids[tkey]), s.fids[key]), reply)
    ensures RenameOrder(s, key, order)
  {
    hide Put, RenameChild, Illegal, Lists, Movers;
    var f, t := s.fids[key], s.fids[tkey];
    var s0, p := IncRef(IncRef(s, f), t), Par(s.parent, f);
    if p != null && Sound(s, p) && f in At(s.names, s.what[p].node) {
      IllegalSame(s, s0, s.what[p].node, At(s.names, s.what[p].node)[f], s.what[t].node, newName);
    }
  }

  method Rename(sv: Server, key: Key, tkey: Key, newName: string, answer: Answer)
      returns (reply: Reply, ghost order: seq<FidRef>)
    requires sv.Valid() && Inv(sv.View(), multiset{})
    modifies sv.nodes, sv.refs`refs, sv.refs`parent, sv.files
    ensures sv.Valid() && Inv(sv.View(), multiset{}) && RenameOrder(old(sv.View()), key, order)
    ensures (sv.View(), reply) == Handlers.Rename(old(sv.View()), key, tkey, newName, answer, order)
  {
    hide Inv, Server.Valid, Server.View, Put, RenameChild, NamedOutcome, Orders, RenameOrder, Lists, Movers;
    ghost var s := sv.View();
    order := SomeOrder(s, key);
    if !SafeName(newName) { return Fail(EINVAL), order; }
    var f, t := Lookup2(sv, key, tkey);
    if f == null || t == null { return Fail(EBADF), order; }
    OrderHeld(s, key, t, order);
    reply, order := RenameNamed(sv, f, t, newName, answer, order);
    RenameIs(s, key, tkey, newName, answer, order, sv.View(), reply);
    Put2(sv, f, t);
  }

  // ---- handlers that make references ---------------------------------------------------------------

  method AdoptFile(sv: Server, file: File)
    requires sv.Valid() && (file in sv.files || file.closes == 0)
    modifies sv`files
    ensures sv.Valid() && sv.files == old(sv.files) + {file}
    ensures sv.View() == old(sv.View()).(path := old(sv.View()).path[file := file.path])
  {
    hide KidsOf, NamesOf, DeletedOf, WhatOf, CountOf, ParentOf, OpenOf, Mirrored, PathNode.Valid, Enclosed;
    MoreFiles(sv, file);
    sv.files := sv.files + {file};
    assert PathsOf(sv.files) == old(PathsOf(sv.files))[file := file.path];
    assert ClosesOf(sv.files) == old(ClosesOf(sv.files));
  }

  lemma MoreFiles(sv: Server, file: File)
    requires Enclosed(sv.nodes, sv.refs, sv.files, KidsOf(sv.nodes), NamesOf(sv.nodes), ParentOf(sv.refs))
    ensures Enclosed(sv.nodes, sv.refs, sv.files + {file}, KidsOf(sv.nodes), NamesOf(sv.nodes), ParentOf(sv.refs))
  {
  }

  lemma MoreRefs(nodes: set<PathNode>, refs: set<FidRef>, files: set<File>, kids: Kids, names: Names, parent: Parents,
                 x: FidRef, p: FidRef?)
    requires Enclosed(nodes, refs, files, kids, names, parent) && x.node in nodes && x.file in files
    requires (p == null || p in refs)
    ensures Enclosed(nodes, refs + {x}, files, kids, names, parent[x := p])
  {
  }

  method AdoptRef(sv: Server, x: FidRef)
    requires sv.Valid() && x !in sv.refs && x.refs == 1 && !x.isOpen && x.node in sv.nodes && x.file in sv.files
    requires (x.parent == null || x.parent in sv.refs)
    modifies sv`refs
    ensures sv.Valid() && sv.refs == old(sv.refs) + {x}
    ensures sv.View() == old(sv.View()).(what := old(sv.View()).what[x := Ref(x.node, x.file, x.dir)],
                                         count := old(sv.View()).count[x := 1], parent :=
                                             old(sv.View()).parent[x := x.parent])
  {
    hide KidsOf, NamesOf, DeletedOf, PathsOf, ClosesOf, Mirrored, PathNode.Valid, Enclosed;
    MoreRefs(sv.nodes, sv.refs, sv.files, KidsOf(sv.nodes), NamesOf(sv.nodes), ParentOf(sv.refs), x, x.parent);
    sv.refs := sv.refs + {x};
    assert WhatOf(sv.refs) == old(WhatOf(sv.refs))[x := Ref(x.node, x.file, x.dir)];
    assert CountOf(sv.refs) == old(CountOf(sv.refs))[x := 1];
    assert ParentOf(sv.refs) == old(ParentOf(sv.refs))[x := x.parent];
    assert OpenOf(sv.refs) == old(OpenOf(sv.refs));
  }

  /** A new reference with one holder; its file may be shared. */
  method NewRef(sv: Server, file: File, node: PathNode, dir: bool, p: FidRef?) returns (x: FidRef)
    requires sv.Valid() && node in sv.nodes && (p == null || p in sv.refs) && (file in sv.files || file.closes == 0)
    modifies sv`refs, sv`files
    ensures fresh(x) && x.node == node && x.file == file && x.dir == dir && sv.refs == old(sv.refs) + {x}
    ensures sv.files == old(sv.files) + {file}
    ensures sv.Valid() && x !in old(sv.View()).what
    ensures sv.View()
              == Spawn(old(sv.View()), x, Ref(node, file, dir), p, old(sv.View()).names,
                old(sv.View()).path[file := file.path])
  {
    hide Server.Valid, Server.View;
    sv.Owned();
    x := new FidRef(file, node, dir, p);
    x.IncRef();
    AdoptFile(sv, file);
    AdoptRef(sv, x);
  }

  // ---- the objects a model step speaks of -----------------------------------------------------------

  ghost function Parts(step: WalkStep): set<object>
  {
    {step.ref, step.node, step.file}
  }

  ghost function AllParts(steps: seq<WalkStep>): set<object>
  {
    set i, o | 0 <= i < |steps| && o in Parts(steps[i]) :: o
  }

  ghost predicate NoneTwice(steps: seq<WalkStep>)
  {
    forall i, j | 0 <= i < j < |steps| ::
      steps[i].ref != steps[j].ref && steps[i].node != steps[j].node && steps[i].file != steps[j].file
  }

  ghost function KnownParts(s: Store): set<object>
  {
    var refs: set<object> := set r: FidRef | r in s.what :: r as object;
    var nodes: set<object> := set n: PathNode | n in s.kids :: n as object;
    var files: set<object> := set r: FidRef | r in s.what :: s.what[r].file as object;
    var closed: set<object> := set f: File | f in s.closes :: f as object;
    var open: set<object> := set r: FidRef | r in s.isOpen :: r as object;
    refs + nodes + files + closed + open
  }

  lemma FreshToAll(s: Store, steps: seq<WalkStep>)
    requires NoneTwice(steps) && AllParts(steps) !! KnownParts(s)
    ensures FreshSteps(s, steps)
  {
    forall i | 0 <= i < |steps| ensures FreshStep(s, steps[i]) {
      assert Parts(steps[i]) <= AllParts(steps);
      FreshToOne(s, steps[i]);
    }
  }

  lemma FreshToOne(s: Store, step: WalkStep)
    requires Parts(step) !! KnownParts(s)
    ensures FreshStep(s, step)
  {
    assert step.ref in Parts(step) && step.node in Parts(step) && step.file in Parts(step);
    forall y | y in s.what ensures s.what[y].file != step.file { assert s.what[y].file in KnownParts(s); }
  }

  /** What a proof speaks of was there before the next allocation. */
  lemma KnownAllocated(s: Store)
    ensures forall o | o in KnownParts(s) :: allocated(o)
  {
  }

  lemma PartsAllocated(steps: seq<WalkStep>)
    ensures forall o | o in AllParts(steps) :: allocated(o)
  {
  }

  lemma OneMoreStep(steps: seq<WalkStep>, step: WalkStep)
    requires NoneTwice(steps) && Parts(step) !! AllParts(steps)
    ensures NoneTwice(steps + [step]) && AllParts(steps + [step]) == AllParts(steps) + Parts(step)
  {
    hide AllParts, Parts;
    forall i | 0 <= i < |steps| ensures step.ref != steps[i].ref && step.node != steps[i].node
      && step.file != steps[i].file {
      OneApart(steps, i, step);
    }
    PartsMore(steps, step);
  }

  lemma OneApart(steps: seq<WalkStep>, i: nat, step: WalkStep)
    requires i < |steps| && Parts(step) !! AllParts(steps)
    ensures step.ref != steps[i].ref && step.node != steps[i].node && step.file != steps[i].file
  {
    InParts(steps, i);
    assert step.ref in Parts(step) && step.node in Parts(step) && step.file in Parts(step);
  }

  lemma PartsMore(steps: seq<WalkStep>, step: WalkStep)
    ensures AllParts(steps + [step]) == AllParts(steps) + Parts(step)
  {
    hide Parts;
    var all := steps + [step];
    assert forall i | 0 <= i < |steps| :: all[i] == steps[i];
    assert all[|steps|] == step;
    forall o | o in AllParts(steps) + Parts(step) ensures o in AllParts(all) {
      if o in AllParts(steps) {
        var i :| 0 <= i < |steps| && o in Parts(steps[i]);
        assert o in Parts(all[i]);
      } else {
        assert o in Parts(all[|steps|]);
      }
    }
  }

  lemma InParts(steps: seq<WalkStep>, i: nat)
    requires i < |steps|
    ensures Parts(steps[i]) <= AllParts(steps)
    ensures steps[i].ref in AllParts(steps) && steps[i].node in AllParts(steps) && steps[i].file in AllParts(steps)
  {
    assert steps[i].ref in Parts(steps[i]) && steps[i].node in Parts(steps[i]) && steps[i].file in Parts(steps[i]);
  }

  lemma {:induction false} MoreSteps(steps: seq<WalkStep>, rest: seq<WalkStep>)
    requires NoneTwice(steps) && NoneTwice(rest) && AllParts(steps) !! AllParts(rest)
    ensures NoneTwice(steps + rest) && AllParts(steps + rest) == AllParts(steps) + AllParts(rest)
    decreases |rest|
  {
    hide NoneTwice, AllParts, Parts;
    if rest == [] {
      NoSteps();
      assert steps + rest == steps;
    } else {
      var last, front := rest[|rest| - 1], rest[..|rest| - 1];
      assert rest == front + [last];
      PartsMore(front, last);
      FrontApart(front, last);
      MoreSteps(steps, front);
      OneMoreStep(steps + front, last);
      assert steps + rest == steps + front + [last];
    }
  }

  lemma FrontApart(front: seq<WalkStep>, last: WalkStep)
    requires NoneTwice(front + [last])
    ensures NoneTwice(front) && Parts(last) !! AllParts(front)
  {
    hide Parts;
    var all := front + [last];
    assert forall i | 0 <= i < |front| :: all[i] == front[i];
    assert all[|front|] == last;
    forall i, o | 0 <= i < |front| && o in Parts(front[i]) ensures o !in Parts(last) { Kinds(front[i], last); }
  }

  /** A reference is no node and no file. */
  lemma Kinds(a: WalkStep, b: WalkStep)
    requires a.ref != b.ref && a.node != b.node && a.file != b.file
    ensures Parts(a) !! Parts(b)
  {
    var r: object, n: object, f: object := a.ref, a.node, a.file;
    assert r is FidRef && n is PathNode && f is File;
  }

  /** A step that is not taken has objects of its own. */
  ghost method SpareStep(answer: Answer) returns (step: WalkStep)
    ensures step.answer == answer && fresh(Parts(step))
  {
    var file := new File.Spare();
    var node := new PathNode.Spare();
    var ref := new FidRef.Spare(file, node);
    step := WalkStep(answer, ref, file, node);
  }

  ghost method SpareSteps(answers: seq<Answer>) returns (steps: seq<WalkStep>)
    ensures Answered(steps, answers) && NoneTwice(steps) && fresh(AllParts(steps))
  {
    steps := [];
    assert answers[..0] == [];
    for i := 0 to |answers|
      invariant Answered(steps, answers[..i]) && NoneTwice(steps) && fresh(AllParts(steps))
    {
      ghost var made := AllParts(steps);
      PartsAllocated(steps);
      var step := SpareStep(answers[i]);
      OneMoreStep(steps, step);
      AnsweredMore(steps, answers, i, step);
      steps := steps + [step];
    }
    assert answers[..|answers|] == answers;
  }

  /** One granted walk element, or a create: a file that holds its path, a node, a reference registered with its
      parent. */
  method EnterNode(sv: Server, w: FidRef, name: string, answer: Answer, ghost held: multiset<FidRef>)
      returns (x: FidRef, ghost step: WalkStep)
    requires sv.Valid() && w in sv.refs && Inv(sv.View(), held) && w in held && w.dir && !w.node.deleted
    modifies sv`nodes, sv`refs, sv`files, w.node`childNodes, w.node`childRefs, w.node`childRefNames
    ensures sv.Valid() && Grows(sv) && step.answer == answer && step.ref == x && x in sv.refs && fresh(Parts(step))
    ensures Sound(old(sv.View()), w) && x !in At(old(sv.View()).names, w.node)
    ensures sv.View() == Enter(old(sv.View()), w, name, step) && Inv(sv.View(), held + multiset{x} - multiset{w})
  {
    hide Inv, Server.Valid, Server.View, Grow, FreshFile, Spawn, Enter, At, PathOf;
    ghost var s := sv.View();
    Seen(sv, w);
    sv.Row(w);
    var file := new File(w.file.path + [name]);
    UnknownFile(sv, file);
    var pn;
    ghost var node;
    pn, node := GrowNode(sv, w.node, name, held);
    GrowHangs(s, w.node, name, node);
    x := NewChild(sv, w, name, file, pn, answer.Granted? && answer.isDir, held);
    step := WalkStep(answer, x, file, node);
    EntersAs(s, w, name, step);
    EnterKeeps(s, held, w, name, step);
    NotFiledFresh(s, held, x, w.node);
  }

  /** The reference of a child node, registered with its parent. */
  method NewChild(sv: Server, w: FidRef, name: string, file: File, pn: PathNode, dir: bool,
                  ghost held: multiset<FidRef>)
      returns (x: FidRef)
    requires sv.Valid() && w in sv.refs && Inv(sv.View(), held) && pn in sv.nodes && file !in sv.files
    requires file.closes == 0
    modifies sv`refs, sv`files, w.node`childRefs, w.node`childRefNames
    ensures sv.Valid() && fresh(x) && sv.refs == old(sv.refs) + {x} && sv.files == old(sv.files) + {file}
    ensures x !in old(sv.View()).what
    ensures sv.View() == Spawn(old(sv.View()), x, Ref(pn, file, dir), w, Enrol(old(sv.View()).names, w.node, x, name),
                               old(sv.View()).path[file := file.path])
  {
    hide Inv, Server.Valid, Server.View, At;
    ghost var s := sv.View();
    sv.Row(w);
    x := NewRef(sv, file, pn, dir, w);
    sv.NodeRow(w.node);
    NotFiledFresh(s, held, x, w.node);
    sv.ListRef(w.node, x, name);
  }

  lemma EntersAs(s: Store, w: FidRef, name: string, step: WalkStep)
    requires Sound(s, w)
    ensures var n := s.what[w].node;
            var s1 := Grow(s, n, name, step.node);
            && n in s1.kids && name in s1.kids[n]
            && Enter(s, w, name, step)
               == Spawn(s1, step.ref, Ref(s1.kids[n][name], step.file, step.answer.Granted? && step.answer.isDir), w,
                        Enrol(s1.names, n, step.ref, name),
                            s1.path[step.file := PathOf(s.path, s.what[w].file) + [name]])
  {
    hide Spawn;
  }

  lemma UnknownFile(sv: Server, file: File)
    requires sv.Valid() && file !in sv.files
    ensures FreshFile(sv.View(), file)
  {
  }

  /** One turn of doWalk's loop, as the model takes it. */
  lemma OneTurn(s: Store, w: FidRef, name: string, step: WalkStep, qids: seq<nat>)
    requires Sound(s, w)
    ensures Handlers.WalkLoop(s, w, [name], [step], qids)
            == if !s.what[w].dir then (Put(s, w), Stopped(EINVAL))
               else if s.what[w].node in s.deleted then (Put(s, w), Stopped(ENOENT))
               else if step.answer.Refused? then (Put(s, w), Stopped(step.answer.errno))
               else if step.ref in At(s.names, s.what[w].node) then (s, Crashed)
               else (Enter(s, w, name, step), Reached(step.ref, qids + [step.answer.qid]))
  {
    hide Put, Enter, At;
    if s.what[w].dir && s.what[w].node !in s.deleted && step.answer.Granted?
      && step.ref !in At(s.names, s.what[w].node) {
      assert [name][1..] == [] && [step][1..] == [];
      var s1 := Enter(s, w, name, step);
      assert Handlers.WalkLoop(s1, step.ref, [], [], qids + [step.answer.qid])
               == (s1, Reached(step.ref, qids + [step.answer.qid]));
    }
  }

  /** The steps of a walk carry the backing file's answers, in order. */
  ghost predicate Answered(steps: seq<WalkStep>, answers: seq<Answer>)
  {
    |steps| == |answers| && forall j | 0 <= j < |steps| :: steps[j].answer == answers[j]
  }

  lemma NoneAnswered(answers: seq<Answer>)
    ensures Answered([], answers[..0])
  {
  }

  lemma AnsweredAll(steps: seq<WalkStep>, rest: seq<WalkStep>, answers: seq<Answer>, i: nat)
    requires i <= |answers| && Answered(steps, answers[..i]) && Answered(rest, answers[i..])
    ensures Answered(steps + rest, answers)
  {
  }

  lemma AnsweredMore(steps: seq<WalkStep>, answers: seq<Answer>, i: nat, step: WalkStep)
    requires i < |answers| && Answered(steps, answers[..i]) && step.answer == answers[i]
    ensures Answered(steps + [step], answers[..i + 1])
  {
  }

  /** How far a walk has come. */
  ghost predicate Along(s: Store, r: FidRef, names: seq<string>, i: nat, steps: seq<WalkStep>, s': Store, w: Walked)
  {
    i <= |names| && |steps| == i && Handlers.WalkLoop(s, r, names[..i], steps, []) == (s', w)
  }

  lemma AlongMore(s: Store, r: FidRef, names: seq<string>, i: nat, steps: seq<WalkStep>, s1: Store, x: FidRef,
                  qids: seq<nat>, step: WalkStep)
    requires i < |names| && Along(s, r, names, i, steps, s1, Reached(x, qids))
    ensures var (s2, w) := Handlers.WalkLoop(s1, x, [names[i]], [step], qids);
            Along(s, r, names, i + 1, steps + [step], s2, w)
  {
    hide Handlers.WalkLoop;
    assert names[..i + 1] == names[..i] + [names[i]];
    WalkLoopSplits(s, r, names[..i], [names[i]], steps, [step], []);
  }

  lemma Spared(spare: seq<WalkStep>, answers: seq<Answer>, i: nat)
    requires i < |answers| && Answered(spare, answers[i..])
    ensures spare != [] && spare[0].answer == answers[i] && Answered(spare[1..], answers[i + 1..])
    ensures spare == [spare[0]] + spare[1..]
  {
    assert answers[i..][0] == answers[i] && answers[i..][1..] == answers[i + 1..];
  }

  lemma StillToAsk(steps: seq<WalkStep>, step: WalkStep, rest: seq<WalkStep>, answers: seq<Answer>, i: nat)
    requires i < |answers| && Answered(steps, answers[..i]) && step.answer == answers[i]
    requires Answered(rest, answers[i + 1..])
    ensures |rest| == |answers| - i - 1 && Answered(steps + [step] + rest, answers)
  {
    AnsweredMore(steps, answers, i, step);
    AnsweredAll(steps + [step], rest, answers, i + 1);
  }

  /** A walk that has stopped is over, whatever answers the rest would have got. */
  lemma AlongStopped(s: Store, r: FidRef, names: seq<string>, i: nat, steps: seq<WalkStep>, s1: Store, w: Walked,
                     rest: seq<WalkStep>)
    requires i <= |names| && Along(s, r, names, i, steps, s1, w) && !w.Reached? && |rest| == |names| - i
    ensures Along(s, r, names, |names|, steps + rest, s1, w)
  {
    hide Handlers.WalkLoop;
    assert names[..|names|] == names[..i] + names[i..];
    WalkLoopSplits(s, r, names[..i], names[i..], steps, rest, []);
  }

  /** An element the walk cannot pass: its hold is dropped. */
  method Stopping(sv: Server, w: FidRef, answers: seq<Answer>, ghost rest: multiset<FidRef>, ghost s: Store,
                  ghost r: FidRef, ghost names: seq<string>, i: nat,
                  ghost steps: seq<WalkStep>, ghost qids: seq<nat>)
      returns (o: Walked, ghost all: seq<WalkStep>)
    requires sv.Valid() && w in sv.refs && Inv(sv.View(), rest + multiset{w}) && i < |names|
    requires Along(s, r, names, i, steps, sv.View(), Reached(w, qids))
    requires |answers| == |names| && Answered(steps, answers[..i]) && (!w.dir || w.node.deleted || answers[i].Refused?)
    requires NoneTwice(steps)
    modifies sv.refs`refs, sv.files`closes, sv.nodes`childRefs, sv.nodes`childRefNames
    ensures sv.Valid() && o.Stopped? && Inv(sv.View(), rest) && Along(s, r, names, |names|, all, sv.View(), o)
    ensures Answered(all, answers)
    ensures (forall o | o in AllParts(all) :: o in AllParts(steps) || fresh(o)) && NoneTwice(all)
  {
    hide Inv, Server.Valid, Server.View, Put, Along, At, Enter, Answered, NoneTwice, AllParts;
    DirSeen(sv, w);
    var e := if !w.dir then EINVAL else if w.node.deleted then ENOENT else answers[i].errno;
    ghost var made := AllParts(steps);
    PartsAllocated(steps);
    ghost var spare := SpareSteps(answers[i..]);
    ghost var step, more := spare[0], spare[1..];
    Spared(spare, answers, i);
    AlongMore(s, r, names, i, steps, sv.View(), w, qids, step);
    OneTurn(sv.View(), w, names[i], step, qids);
    StillToAsk(steps, step, more, answers, i);
    MoreSteps(steps, spare);
    assert steps + spare == steps + [step] + more;
    AlongStopped(s, r, names, i + 1, steps + [step], Put(sv.View(), w), Stopped(e), more);
    Passing(rest, w, w);
    PutRef(sv, w, rest + multiset{w});
    o, all := Stopped(e), steps + [step] + more;
  }

  lemma Passing(rest: multiset<FidRef>, w: FidRef, x: FidRef)
    ensures rest + multiset{w} + multiset{x} - multiset{w} == rest + multiset{x}
    ensures rest + multiset{w} - multiset{w} == rest
  {
  }

  /** A granted element: the walk goes on from the new reference. */
  method NextElement(sv: Server, w: FidRef, name: string, answer: Answer, ghost rest: multiset<FidRef>, ghost s: Store,
                     ghost r: FidRef,
                     ghost names: seq<string>, ghost i: nat, ghost steps: seq<WalkStep>, ghost qids: seq<nat>)
      returns (x: FidRef, ghost step: WalkStep)
    requires sv.Valid() && w in sv.refs && Inv(sv.View(), rest + multiset{w}) && w.dir && !w.node.deleted
    requires answer.Granted?
    requires i < |names| && names[i] == name && Along(s, r, names, i, steps, sv.View(), Reached(w, qids))
    modifies sv`nodes, sv`refs, sv`files, w.node`childNodes, w.node`childRefs, w.node`childRefNames
    ensures sv.Valid() && x in sv.refs && Inv(sv.View(), rest + multiset{x})
    ensures Grows(sv) && fresh(Parts(step))
    ensures Along(s, r, names, i + 1, steps + [step], sv.View(), Reached(x, qids + [answer.qid]))
    ensures step.answer == answer
  {
    hide Inv, Server.Valid, Server.View, Put, Along, At, Enter;
    ghost var v := sv.View();
    Seen(sv, w);
    Passing(rest, w, w);
    x, step := EnterNode(sv, w, name, answer, rest + multiset{w});
    AlongMore(s, r, names, i, steps, v, w, qids, step);
    OneTurn(v, w, name, step, qids);
    Passing(rest, w, x);
  }

  /** The loop of doWalk: the walk's hold passes from each reference to the next. */
  method WalkElements(sv: Server, r: FidRef, names: seq<string>, answers: seq<Answer>, ghost rest: multiset<FidRef>)
      returns (o: Walked, ghost steps: seq<WalkStep>)
    requires sv.Valid() && r in sv.refs && Inv(sv.View(), rest + multiset{r}) && |answers| == |names|
    modifies sv`nodes, sv`refs, sv`files, sv.nodes, sv.refs`refs, sv.files`closes
    ensures sv.Valid() && Grows(sv) && Along(old(sv.View()), r, names, |names|, steps, sv.View(), o)
    ensures Answered(steps, answers)
    ensures NoneTwice(steps) && fresh(AllParts(steps))
    ensures !o.Crashed? && (o.Stopped? ==> Inv(sv.View(), rest))
    ensures (o.Reached? ==> Inv(sv.View(), rest + multiset{o.ref}) && o.ref in sv.refs)
  {
    hide Inv, Server.Valid, Server.View, Along, Sound, Answered, NoneTwice, AllParts;
    ghost var s := sv.View();
    var walkRef, qids, i := r, [], 0;
    steps := [];
    AlongNone(s, r, names);
    NoneAnswered(answers);
    NoSteps();
    while i < |names|
      invariant 0 <= i <= |names| && sv.Valid() && Grows(sv) && walkRef in sv.refs
      invariant Inv(sv.View(), rest + multiset{walkRef})
      invariant Along(s, r, names, i, steps, sv.View(), Reached(walkRef, qids)) && Answered(steps, answers[..i])
      invariant NoneTwice(steps) && fresh(AllParts(steps))
    {
      DirSeen(sv, walkRef);
      if !walkRef.dir || walkRef.node.deleted || answers[i].Refused? {
        o, steps := Stopping(sv, walkRef, answers, rest, s, r, names, i, steps, qids);
        return;
      }
      ghost var step, made := *, AllParts(steps);
      PartsAllocated(steps);
      walkRef, step := NextElement(sv, walkRef, names[i], answers[i], rest, s, r, names, i, steps, qids);
      AnsweredMore(steps, answers, i, step);
      OneMoreStep(steps, step);
      steps := steps + [step];
      qids, i := qids + [answers[i].qid], i + 1;
    }
    assert answers[..|names|] == answers;
    o := Reached(walkRef, qids);
  }

  lemma NoSteps()
    ensures NoneTwice([]) && AllParts([]) == {}
  {
  }

  lemma DirSeen(sv: Server, f: FidRef)
    requires sv.Valid() && f in sv.refs
    ensures var s := sv.View();
            f in s.what && Sound(s, f) && s.what[f].dir == f.dir && (s.what[f].node in s.deleted <==> f.node.deleted)
              && f.node in sv.nodes
  {
    hide Server.Valid, Server.View;
    Seen(sv, f);
  }

  lemma AlongNone(s: Store, r: FidRef, names: seq<string>)
    ensures Along(s, r, names, 0, [], s, Reached(r, []))
  {
  }

  /** The clone of a reference whose parent takes a new child. */
  method CloneUnder(sv: Server, r: FidRef, p: FidRef, file: File) returns (x: FidRef)
    requires sv.Valid() && r in sv.refs && p in sv.refs && file !in sv.files && file.closes == 0 && r.node in sv.nodes
    modifies sv`refs, sv`files, p`refs
    ensures sv.Valid() && fresh(x) && sv.refs == old(sv.refs) + {x} && sv.files == old(sv.files) + {file}
    ensures x !in old(sv.View()).what
    ensures sv.View()
              == Spawn(IncRef(old(sv.View()), p), x, Ref(r.node, file, r.dir), p, old(sv.View()).names,
                old(sv.View()).path[file := file.path])
  {
    hide Server.Valid, Server.View, Spawn;
    sv.Row(p);
    sv.Count(p, 1);
    x := NewRef(sv, file, r.node, r.dir, p);
  }

  method CloneBeside(sv: Server, r: FidRef, p: FidRef, file: File, ghost held: multiset<FidRef>) returns (x: FidRef)
    requires sv.Valid() && r in sv.refs && p in sv.refs && file !in sv.files && file.closes == 0 && r.node in sv.nodes
    requires p.node in sv.nodes
    requires Inv(sv.View(), held) && r in p.node.childRefNames
    modifies sv`refs, sv`files, p`refs, p.node`childRefs, p.node`childRefNames
    ensures sv.Valid() && fresh(x) && sv.refs == old(sv.refs) + {x} && sv.files == old(sv.files) + {file}
    ensures x !in old(sv.View()).what
    ensures var s := old(sv.View());
            && r in At(s.names, p.node) && x !in At(s.names, p.node)
            && sv.View()
                 == Spawn(IncRef(s, p), x, Ref(r.node, file, r.dir), p,
                   Enrol(s.names, p.node, x, At(s.names, p.node)[r]), s.path[file := file.path])
  {
    hide Inv, Server.Valid, Server.View, At;
    ghost var s := sv.View();
    sv.NodeRow(p.node);
    x := CloneUnder(sv, r, p, file);
    var name := p.node.NameFor(r);
    sv.NodeRow(p.node);
    NotFiledFresh(s, held, x, p.node);
    sv.ListRef(p.node, x, name);
  }

  method CloneRef(sv: Server, r: FidRef, file: File, ghost held: multiset<FidRef>) returns (x: FidRef)
    requires sv.Valid() && r in sv.refs && Inv(sv.View(), held) && r in held && file !in sv.files && file.closes == 0
    requires file.path == r.file.path
    modifies sv`refs, sv`files, sv.refs`refs, sv.nodes`childRefs, sv.nodes`childRefNames
    ensures sv.Valid() && fresh(x) && sv.refs == old(sv.refs) + {x} && sv.files == old(sv.files) + {file}
    ensures x !in old(sv.View()).what
    ensures CloneOf(old(sv.View()), r, WalkStep(Granted(0, false), x, file, r.node)) == (sv.View(), Reached(x, []))
  {
    hide Inv, Server.Valid, Server.View, Spawn, At, PathOf;
    Seen(sv, r);
    sv.Row(r);
    if r.parent == null {
      x := NewRef(sv, file, r.node, r.dir, null);
    } else {
      Seen(sv, r.parent);
      if r.node.deleted {
        x := CloneUnder(sv, r, r.parent, file);
      } else {
        RegisteredHeld(sv, r, held);
        x := CloneBeside(sv, r, r.parent, file, held);
      }
    }
  }

  lemma CloneAny(s: Store, r: FidRef, answer: Answer, x: FidRef, file: File, n: PathNode, m: PathNode)
    requires answer.Granted?
    ensures CloneOf(s, r, WalkStep(answer, x, file, m)) == CloneOf(s, r, WalkStep(Granted(0, false), x, file, n))
  {
    hide Spawn, At, PathOf;
  }

  /** The clone branch of doWalk. */
  method Clone(sv: Server, r: FidRef, answer: Answer, ghost held: multiset<FidRef>)
      returns (o: Walked, ghost step: WalkStep)
    requires sv.Valid() && r in sv.refs && Inv(sv.View(), held) && r in held
    modifies sv`refs, sv`files, sv.refs`refs, sv.nodes`childRefs, sv.nodes`childRefNames
    ensures sv.Valid() && Grows(sv) && (sv.View(), o) == CloneOf(old(sv.View()), r, step) && step.answer == answer
    ensures fresh(Parts(step))
    ensures !o.Crashed? && (o.Stopped? ==> Inv(sv.View(), held))
    ensures (o.Reached? ==> Inv(sv.View(), held + multiset{o.ref}) && o.ref in sv.refs)
  {
    hide Inv, Server.Valid, Server.View, CloneOf, FreshFile;
    ghost var s := sv.View();
    step := SpareStep(answer);
    if answer.Refused? {
      CloneNot(s, r, step);
      return Stopped(answer.errno), step;
    }
    var file := new File(r.file.path);
    UnknownFile(sv, file);
    var x := CloneRef(sv, r, file, held);
    CloneAny(s, r, answer, x, file, r.node, step.node);
    step := WalkStep(answer, x, file, step.node);
    CloneKeeps(s, held, r, step);
    o := Reached(x, []);
  }

  lemma CloneNot(s: Store, r: FidRef, step: WalkStep)
    requires step.answer.Refused?
    ensures CloneOf(s, r, step) == (s, Stopped(step.answer.errno))
  {
  }

  // ---- walk and attach ---------------------------------------------------------------------------------

  method CheckNames(names: seq<string>) returns (ok: bool)
    ensures ok <==> !exists i :: 0 <= i < |names| && !SafeName(names[i])
  {
    var i := 0;
    while i < |names|
      invariant 0 <= i <= |names| && forall j | 0 <= j < i :: SafeName(names[j])
    {
      if !SafeName(names[i]) { return false; }
      i := i + 1;
    }
    ok := true;
  }

  method DoWalk(sv: Server, r: FidRef, names: seq<string>, answers: seq<Answer>, cloneAnswer: Answer,
                ghost held: multiset<FidRef>)
      returns (o: Walked, ghost steps: seq<WalkStep>, ghost clone: WalkStep)
    requires sv.Valid() && r in sv.refs && Inv(sv.View(), held) && r in held && |answers| == |names|
    modifies sv`nodes, sv`refs, sv`files, sv.nodes, sv.refs`refs, sv.files`closes
    ensures sv.Valid() && Grows(sv) && |steps| == |names|
    ensures (sv.View(), o) == Handlers.DoWalk(old(sv.View()), r, names, steps, clone)
    ensures Answered(steps, answers) && clone.answer == cloneAnswer
    ensures NoneTwice(steps) && fresh(AllParts(steps)) && fresh(Parts(clone))
    ensures !o.Crashed? && (o.Stopped? ==> Inv(sv.View(), held))
    ensures (o.Reached? ==> Inv(sv.View(), held + multiset{o.ref}) && o.ref in sv.refs)
  {
    hide Inv, Server.Valid, Server.View, CloneOf, Handlers.WalkLoop;
    clone := SpareStep(cloneAnswer);
    steps := SpareSteps(answers);
    var ok := CheckNames(names);
    if !ok { return Stopped(EINVAL), steps, clone; }
    if names == [] {
      o, clone := Clone(sv, r, cloneAnswer, held);
      return;
    }
    o, steps := WalkFrom(sv, r, names, answers, held);
  }

  /** One more hold on a reference that is held already. */
  method Hold(sv: Server, r: FidRef, ghost held: multiset<FidRef>)
    requires sv.Valid() && r in sv.refs && Inv(sv.View(), held) && r in held
    modifies r`refs
    ensures sv.Valid() && sv.View() == IncRef(old(sv.View()), r) && Inv(sv.View(), held + multiset{r})
  {
    hide Inv, Server.Valid, Server.View;
    sv.Row(r);
    HeldIn(sv.View(), held, r);
    IncRefKeeps(sv.View(), held, r);
    sv.Count(r, 1);
  }

  /** The walk takes its own hold first. */
  method WalkFrom(sv: Server, r: FidRef, names: seq<string>, answers: seq<Answer>, ghost held: multiset<FidRef>)
      returns (o: Walked, ghost steps: seq<WalkStep>)
    requires sv.Valid() && r in sv.refs && Inv(sv.View(), held) && r in held && |answers| == |names|
    modifies sv`nodes, sv`refs, sv`files, sv.nodes, sv.refs`refs, sv.files`closes
    ensures sv.Valid() && Grows(sv) && |steps| == |names|
    ensures (sv.View(), o) == Handlers.WalkLoop(IncRef(old(sv.View()), r), r, names, steps, [])
    ensures Answered(steps, answers) && NoneTwice(steps) && fresh(AllParts(steps))
    ensures !o.Crashed? && (o.Stopped? ==> Inv(sv.View(), held))
    ensures (o.Reached? ==> Inv(sv.View(), held + multiset{o.ref}) && o.ref in sv.refs)
  {
    hide Inv, Server.Valid, Server.View, Handlers.WalkLoop, Along;
    Hold(sv, r, held);
    ghost var s0 := sv.View();
    o, steps := WalkElements(sv, r, names, answers, held);
    AlongAll(s0, r, names, steps, sv.View(), o);
  }

  lemma AlongAll(s: Store, r: FidRef, names: seq<string>, steps: seq<WalkStep>, s': Store, w: Walked)
    requires Along(s, r, names, |names|, steps, s', w)
    ensures |steps| == |names| && Handlers.WalkLoop(s, r, names, steps, []) == (s', w)
  {
    hide Handlers.WalkLoop;
    assert names[..|names|] == names;
  }

  /** The end of a successful walk: the table takes the reached reference, the walk and the lookup let go. */
  method Settled(sv: Server, key: Key, x: FidRef, r: FidRef)
    requires sv.Valid() && Inv(sv.View(), multiset{r} + multiset{x})
    modifies sv`fids, sv.refs`refs, sv.files`closes, sv.nodes`childRefs, sv.nodes`childRefNames
    ensures sv.Valid() && sv.View() == Put(Put(Handlers.Insert(old(sv.View()), key, x), x), r)
    ensures Inv(sv.View(), multiset{})
  {
    hide Inv, Server.Valid, Server.View, Put, Handlers.Insert;
    Insert(sv, key, x, multiset{r} + multiset{x});
    assert multiset{r} + multiset{x} - multiset{x} == multiset{r} && multiset{r} - multiset{r} == multiset{};
    PutRef(sv, x, multiset{r} + multiset{x});
    PutRef(sv, r, multiset{r});
  }

  /** A walk from a fid that was found. */
  method WalkFound(sv: Server, r: FidRef, newKey: Key, names: seq<string>, answers: seq<Answer>, cloneAnswer: Answer)
      returns (reply: Reply, ghost steps: seq<WalkStep>, ghost clone: WalkStep)
    requires sv.Valid() && r in sv.refs && Inv(sv.View(), multiset{r}) && |answers| == |names|
    modifies sv, sv.nodes, sv.refs`refs, sv.files`closes
    ensures sv.Valid() && Grows(sv) && |steps| == |names| && Inv(sv.View(), multiset{}) && Answered(steps, answers)
    ensures clone.answer == cloneAnswer
    ensures NoneTwice(steps) && fresh(AllParts(steps)) && fresh(Parts(clone))
    ensures var (s1, w) := Handlers.DoWalk(old(sv.View()), r, names, steps, clone);
            match w
            case Stopped(e) => (sv.View(), reply) == (Put(s1, r), Fail(e))
            case Crashed => false
            case Reached(x, qids) => (sv.View(), reply) == (Put(Put(Handlers.Insert(s1, newKey, x), x), r), Done(qids))
  {
    hide Inv, Server.Valid, Server.View, Put, Handlers.Insert, Handlers.DoWalk;
    var o;
    o, steps, clone := DoWalk(sv, r, names, answers, cloneAnswer, multiset{r});
    if o.Stopped? {
      PutRef(sv, r, multiset{r});
      assert multiset{r} - multiset{r} == multiset{};
      reply := Fail(o.errno);
    } else {
      Settled(sv, newKey, o.ref, r);
      reply := Done(o.qids);
    }
  }

  method Walk(sv: Server, key: Key, newKey: Key, names: seq<string>, answers: seq<Answer>, cloneAnswer: Answer)
      returns (reply: Reply, ghost steps: seq<WalkStep>, ghost clone: WalkStep)
    requires sv.Valid() && Inv(sv.View(), multiset{}) && |answers| == |names|
    modifies sv, sv.nodes, sv.refs`refs, sv.files`closes
    ensures sv.Valid() && Grows(sv) && Inv(sv.View(), multiset{}) && |steps| == |names| && Answered(steps, answers)
    ensures clone.answer == cloneAnswer
    ensures (sv.View(), reply) == Handlers.Walk(old(sv.View()), key, newKey, names, steps, clone)
    ensures FreshSteps(old(sv.View()), steps) && FreshStep(old(sv.View()), clone)
  {
    hide Inv, Server.Valid, Server.View, Handlers.Walk, FreshSteps, FreshStep, NoneTwice, AllParts, Parts, KnownParts;
    ghost var s := sv.View();
    ghost var known := KnownParts(s);
    KnownAllocated(s);
    ghost var spareClone := SpareStep(cloneAnswer);
    ghost var spare := SpareSteps(answers);
    reply, steps, clone := WalkWith(sv, key, newKey, names, answers, cloneAnswer, spare, spareClone);
    FreshToAll(s, steps);
    FreshToOne(s, clone);
  }

  /** The handler; `spare` and `spareClone` stand for the steps it does not come to. */
  method WalkWith(sv: Server, key: Key, newKey: Key, names: seq<string>, answers: seq<Answer>, cloneAnswer: Answer,
                  ghost spare: seq<WalkStep>, ghost spareClone: WalkStep)
      returns (reply: Reply, ghost steps: seq<WalkStep>, ghost clone: WalkStep)
    requires sv.Valid() && Inv(sv.View(), multiset{}) && |answers| == |names|
    requires Answered(spare, answers) && NoneTwice(spare) && spareClone.answer == cloneAnswer
    modifies sv, sv.nodes, sv.refs`refs, sv.files`closes
    ensures sv.Valid() && Grows(sv) && Inv(sv.View(), multiset{}) && |steps| == |names| && Answered(steps, answers)
    ensures clone.answer == cloneAnswer
    ensures (sv.View(), reply) == Handlers.Walk(old(sv.View()), key, newKey, names, steps, clone) && NoneTwice(steps)
    ensures (steps == spare || fresh(AllParts(steps))) && (clone == spareClone || fresh(Parts(clone)))
  {
    hide Inv, Server.Valid, Server.View, Put, Handlers.Insert, Handlers.DoWalk, NoneTwice, AllParts, Parts;
    steps, clone := spare, spareClone;
    var r := Lookup(sv, key);
    if r == null { return Fail(EBADF), steps, clone; }
    Seen(sv, r);
    if r.isOpen && key == newKey {
      assert multiset{r} - multiset{r} == multiset{};
      PutRef(sv, r, multiset{r});
      return Fail(EBUSY), steps, clone;
    }
    reply, steps, clone := WalkFound(sv, r, newKey, names, answers, cloneAnswer);
  }

  lemma CloneUnused(s: Store, r: FidRef, names: seq<string>, steps: seq<WalkStep>, a: WalkStep, b: WalkStep)
    requires |steps| == |names| > 0
    ensures Handlers.DoWalk(s, r, names, steps, a) == Handlers.DoWalk(s, r, names, steps, b)
  {
    hide Handlers.WalkLoop, CloneOf;
  }

  /** The transient reference to the root of the tree. */
  method NewRoot(sv: Server, isDir: bool) returns (x: FidRef)
    requires sv.Valid() && Inv(sv.View(), multiset{})
    modifies sv`refs, sv`files
    ensures sv.Valid() && fresh(x) && fresh(x.file) && sv.refs == old(sv.refs) + {x}
    ensures sv.files == old(sv.files) + {x.file}
    ensures var s := old(sv.View());
            sv.View() == Spawn(s, x, Ref(s.root, x.file, isDir), null, s.names, s.path[x.file := []])
    ensures Inv(sv.View(), multiset{x})
  {
    hide Inv, Server.Valid, Server.View, Spawn, FreshFile;
    ghost var s := sv.View();
    var file := new File([]);
    UnknownFile(sv, file);
    RootSeen(sv);
    x := NewRef(sv, file, sv.root, isDir, null);
    NewRootKeeps(s, multiset{}, x, file, isDir);
    assert multiset{} + multiset{x} == multiset{x};
  }

  lemma RootSeen(sv: Server)
    requires sv.Valid()
    ensures sv.root in sv.nodes && sv.View().root == sv.root
  {
  }

  method Attach(sv: Server, key: Key, answer: Answer, names: seq<string>, answers: seq<Answer>)
      returns (reply: Reply, ghost root: WalkStep, ghost steps: seq<WalkStep>)
    requires sv.Valid() && Inv(sv.View(), multiset{}) && |answers| == |names|
    modifies sv, sv.nodes, sv.refs`refs, sv.files`closes
    ensures sv.Valid() && Grows(sv) && Inv(sv.View(), multiset{}) && root.answer == answer && |steps| == |names|
    ensures Answered(steps, answers)
    ensures (sv.View(), reply) == Handlers.Attach(old(sv.View()), key, root, names, steps)
    ensures FreshSteps(old(sv.View()), [root] + steps)
  {
    hide Inv, Server.Valid, Server.View, Handlers.Attach, FreshSteps, NoneTwice, AllParts, Parts, KnownParts;
    ghost var s := sv.View();
    ghost var known := KnownParts(s);
    KnownAllocated(s);
    if answer.Refused? {
      root := SpareStep(answer);
      ghost var first := Parts(root);
      PartAllocated(root);
      steps := SpareSteps(answers);
      FirstFresh(s, root, steps);
      RefusedAttach(s, key, root, names, steps);
      return Fail(answer.errno), root, steps;
    }
    ghost var spare := new PathNode.Spare();
    reply, root, steps := AttachGranted(sv, key, answer, names, answers, spare);
    NewRootParts(root, spare, known);
    FirstFresh(s, root, steps);
  }

  lemma PartAllocated(step: WalkStep)
    ensures forall o | o in Parts(step) :: allocated(o)
  {
  }

  lemma NewRootParts(root: WalkStep, spare: PathNode, known: set<object>)
    requires root.node == spare && root.ref !in known && root.file !in known && spare !in known
    ensures Parts(root) !! known
  {
  }

  lemma RefusedAttach(s: Store, key: Key, root: WalkStep, names: seq<string>, steps: seq<WalkStep>)
    requires root.answer.Refused? && |steps| == |names|
    ensures Handlers.Attach(s, key, root, names, steps) == (s, Fail(root.answer.errno))
  {
  }

  /** The handler, once the backing file system has given its root; the model's step takes a node along. */
  method AttachGranted(sv: Server, key: Key, answer: Answer, names: seq<string>, answers: seq<Answer>,
                       ghost spare: PathNode)
      returns (reply: Reply, ghost root: WalkStep, ghost steps: seq<WalkStep>)
    requires sv.Valid() && Inv(sv.View(), multiset{}) && |answers| == |names| && answer.Granted?
    modifies sv, sv.nodes, sv.refs`refs, sv.files`closes
    ensures sv.Valid() && Grows(sv) && Inv(sv.View(), multiset{}) && root.answer == answer && |steps| == |names|
    ensures Answered(steps, answers)
    ensures (sv.View(), reply) == Handlers.Attach(old(sv.View()), key, root, names, steps)
    ensures fresh(root.ref) && fresh(root.file) && root.node == spare
    ensures NoneTwice(steps) && fresh(AllParts(steps)) && Parts(root) !! AllParts(steps)
  {
    hide Inv, Server.Valid, Server.View, Put, Handlers.Insert, Handlers.DoWalk, Spawn, NoneTwice, AllParts, Parts;
    var x := NewRoot(sv, answer.isDir);
    root := WalkStep(answer, x, x.file, spare);
    assert multiset{x} - multiset{x} == multiset{};
    if names == [] {
      NoSteps();
      Insert(sv, key, x, multiset{x});
      PutRef(sv, x, multiset{x});
      return Done([answer.qid]), root, [];
    }
    ghost var first := Parts(root);
    PartAllocated(root);
    ghost var s0, c := sv.View(), root;
    reply, steps, c := WalkFound(sv, x, key, names, answers, answer);
    CloneUnused(s0, x, names, steps, c, root);
    if reply.Done? { reply := Done([answer.qid]); }
  }

  lemma FirstFresh(s: Store, root: WalkStep, steps: seq<WalkStep>)
    requires NoneTwice(steps) && AllParts(steps) !! KnownParts(s) && Parts(root) !! KnownParts(s)
    requires Parts(root) !! AllParts(steps)
    ensures FreshSteps(s, [root] + steps)
  {
    hide KnownParts;
    OneStep(root);
    MoreSteps([root], steps);
    FreshToAll(s, [root] + steps);
  }

  lemma OneStep(step: WalkStep)
    ensures NoneTwice([step]) && AllParts([step]) == Parts(step)
  {
    assert [step][0] == step;
  }

  method SetOpen(sv: Server, x: FidRef, ghost held: multiset<FidRef>)
    requires sv.Valid() && x in sv.refs && Inv(sv.View(), held)
    modifies x`isOpen
    ensures sv.Valid() && sv.View() == old(sv.View()).(isOpen := old(sv.View()).isOpen + {x}) && Inv(sv.View(), held)
  {
    hide Inv, KidsOf, DeletedOf, NamesOf, WhatOf, CountOf, ParentOf, PathsOf, ClosesOf, Mirrored, Enclosed;
    OpenedKeeps(sv.View(), held, x);
    x.isOpen := true;
    assert OpenOf(sv.refs) == old(OpenOf(sv.refs)) + {x};
  }

  method Open(sv: Server, key: Key, readOnly: bool, canOpen: bool, answer: Answer) returns (reply: Reply)
    requires sv.Valid() && Inv(sv.View(), multiset{})
    modifies sv.refs`refs, sv.refs`isOpen, sv.files`closes, sv.nodes`childRefs, sv.nodes`childRefNames
    ensures sv.Valid() && (sv.View(), reply) == Handlers.Open(old(sv.View()), key, readOnly, canOpen, answer)
    ensures Inv(sv.View(), multiset{})
  {
    hide Inv, Server.Valid, Server.View, Put;
    var f := Lookup(sv, key);
    if f == null { return Fail(EBADF); }
    assert multiset{f} - multiset{f} == multiset{};
    Seen(sv, f);
    if f.node.deleted || f.isOpen || !canOpen {
      reply := Fail(EINVAL);
    } else if f.dir && !readOnly {
      reply := Fail(EISDIR);
    } else if answer.Refused? {
      reply := Fail(answer.errno);
    } else {
      SetOpen(sv, f, multiset{f});
      reply := Done([answer.qid]);
    }
    PutRef(sv, f, multiset{f});
  }

  /** The created reference takes the fid over: its hold becomes the table's, and the directory loses both of the
      handler's. */
  method Replaced(sv: Server, key: Key, x: FidRef, r: FidRef)
    requires sv.Valid() && x in sv.refs && key in sv.fids && sv.fids[key] == r
    requires Inv(sv.View(), multiset{r} + multiset{x})
    modifies sv`fids, sv.refs`refs, sv.files`closes, sv.nodes`childRefs, sv.nodes`childRefNames
    ensures sv.Valid() && sv.View() == Put(Put(Install(old(sv.View()), key, x), r), r) && Inv(sv.View(), multiset{})
  {
    hide Inv, Server.Valid, Server.View, Put;
    TableRow(sv);
    AllBound(sv);
    InstallKeeps(sv.View(), multiset{r} + multiset{x}, key, x);
    assert multiset{r} + multiset{x} - multiset{x} + Evicted(sv.View().fids, key) == multiset{r} + multiset{r};
    assert multiset{r} + multiset{r} - multiset{r} == multiset{r} && multiset{r} - multiset{r} == multiset{};
    Rebind(sv, sv.fids[key := x]);
    PutRef(sv, r, multiset{r} + multiset{r});
    PutRef(sv, r, multiset{r});
  }

  method NewOpen(sv: Server, r: FidRef, name: string, qid: nat, ghost held: multiset<FidRef>)
      returns (x: FidRef, ghost step: WalkStep)
    requires sv.Valid() && r in sv.refs && Inv(sv.View(), held + multiset{r}) && r.dir && !r.node.deleted
    modifies sv`nodes, sv`refs, sv`files, r.node`childNodes, r.node`childRefs, r.node`childRefNames
    ensures sv.Valid() && Grows(sv) && x in sv.refs && Inv(sv.View(), held + multiset{x})
    ensures step.answer == Granted(qid, false) && step.ref == x && fresh(Parts(step))
    ensures var s := old(sv.View());
            && Sound(s, r) && x !in At(s.names, r.node)
            && var s1 := Enter(s, r, name, step);
               sv.View() == s1.(isOpen := s1.isOpen + {x})
  {
    hide Inv, Server.Valid, Server.View, Put, Enter, At;
    x, step := EnterNode(sv, r, name, Granted(qid, false), held + multiset{r});
    assert held + multiset{r} + multiset{x} - multiset{r} == held + multiset{x};
    SetOpen(sv, x, held + multiset{x});
  }

  /** The new file of a create: a child of the directory, already open. */
  method CreateIn(sv: Server, key: Key, r: FidRef, name: string, qid: nat) returns (ghost step: WalkStep)
    requires sv.Valid() && r in sv.refs && key in sv.fids && sv.fids[key] == r && Inv(sv.View(), multiset{r}) && r.dir
    requires !r.node.deleted
    modifies sv, sv.nodes, sv.refs`refs, sv.files`closes
    ensures sv.Valid() && Grows(sv) && Inv(sv.View(), multiset{}) && step.answer == Granted(qid, false)
    ensures fresh(Parts(step))
    ensures var s := old(sv.View());
            && Sound(s, r) && Sound(IncRef(s, r), r) && step.ref !in At(s.names, s.what[r].node)
            && var s1 := Enter(IncRef(s, r), r, name, step);
               sv.View() == Put(Put(Install(s1.(isOpen := s1.isOpen + {step.ref}), key, step.ref), r), r)
  {
    hide Inv, Server.Valid, Server.View, Put, Enter, At;
    Seen(sv, r);
    Hold(sv, r, multiset{r});
    var x;
    x, step := NewOpen(sv, r, name, qid, multiset{r});
    Replaced(sv, key, x, r);
  }

  method Create(sv: Server, key: Key, name: string, answer: Answer) returns (reply: Reply, ghost step: WalkStep)
    requires sv.Valid() && Inv(sv.View(), multiset{})
    modifies sv, sv.nodes, sv.refs`refs, sv.files`closes
    ensures sv.Valid() && Grows(sv) && Inv(sv.View(), multiset{}) && step.answer == answer
    ensures FreshStep(old(sv.View()), step)
    ensures (sv.View(), reply) == Handlers.Create(old(sv.View()), key, name, step)
  {
    hide Inv, Server.Valid, Server.View, Handlers.Create, FreshStep, KnownParts, Parts;
    ghost var s := sv.View();
    ghost var known := KnownParts(s);
    KnownAllocated(s);
    ghost var spare := SpareStep(answer);
    reply, step := CreateWith(sv, key, name, answer, spare);
    FreshToOne(s, step);
  }

  /** The handler; `spare` stands for the file it does not make. */
  method CreateWith(sv: Server, key: Key, name: string, answer: Answer, ghost spare: WalkStep)
      returns (reply: Reply, ghost step: WalkStep)
    requires sv.Valid() && Inv(sv.View(), multiset{}) && spare.answer == answer
    modifies sv, sv.nodes, sv.refs`refs, sv.files`closes
    ensures sv.Valid() && Grows(sv) && Inv(sv.View(), multiset{}) && step.answer == answer
    ensures (step == spare || fresh(Parts(step)))
    ensures (sv.View(), reply) == Handlers.Create(old(sv.View()), key, name, step)
  {
    hide Inv, Server.Valid, Server.View, Put, Enter, Parts;
    TableRow(sv);
    step := spare;
    if !SafeName(name) { return Fail(EINVAL), step; }
    ghost var s := sv.View();
    var r := Lookup(sv, key);
    if r == null { return Fail(EBADF), step; }
    reply, step := CreateFound(sv, key, r, name, answer, spare, s);
  }

  method CreateFound(sv: Server, key: Key, r: FidRef, name: string, answer: Answer, ghost spare: WalkStep,
                     ghost s: Store)
      returns (reply: Reply, ghost step: WalkStep)
    requires sv.Valid() && r in sv.refs && Inv(sv.View(), multiset{r}) && SafeName(name) && spare.answer == answer
    requires key in s.fids && s.fids[key] == r && Sound(s, r) && sv.View() == IncRef(s, r)
    modifies sv, sv.nodes, sv.refs`refs, sv.files`closes
    ensures sv.Valid() && Grows(sv) && Inv(sv.View(), multiset{}) && step.answer == answer
    ensures (step == spare || fresh(Parts(step)))
    ensures (sv.View(), reply) == Handlers.Create(s, key, name, step)
  {
    hide Inv, Server.Valid, Server.View, Put, Enter, Parts, Grows;
    TableRow(sv);
    step := spare;
    assert multiset{r} - multiset{r} == multiset{};
    Seen(sv, r);
    if r.node.deleted || !r.dir || r.isOpen {
      PutRef(sv, r, multiset{r});
      SameSets(sv);
      return Fail(EINVAL), step;
    }
    if answer.Refused? {
      PutRef(sv, r, multiset{r});
      SameSets(sv);
      return Fail(answer.errno), step;
    }
    ghost var made := CreateIn(sv, key, r, name, answer.qid);
    reply, step := Done([answer.qid]), made.(answer := answer);
    assert Parts(step) == Parts(made) by { SameParts(made, answer); }
  }

  lemma SameParts(step: WalkStep, answer: Answer)
    ensures Parts(step.(answer := answer)) == Parts(step)
  {
  }

  /** The reference of an extended attribute: it shares the file it came from, and has no parent. */
  method NewXattrRef(sv: Server, r: FidRef) returns (x: FidRef)
    requires sv.Valid() && r in sv.refs && Inv(sv.View(), multiset{r}) && !r.node.deleted
    modifies sv`refs, sv`files
    ensures sv.Valid() && sv.refs == old(sv.refs) + {x} && fresh(x) && sv.files == old(sv.files)
    ensures var s := old(sv.View());
            r in s.what && sv.View() == Spawn(s, x, Ref(s.what[r].node, s.what[r].file, false), null, s.names, s.path)
    ensures Inv(sv.View(), multiset{r} + multiset{x})
  {
    hide Inv, Server.Valid, Server.View, Spawn, FileFor, PathOf;
    ghost var s := sv.View();
    Seen(sv, r);
    sv.Row(r);
    SamePath(sv, r);
    SoundHeld(s, multiset{r}, r);
    XattrFile(s, multiset{r}, r);
    x := NewRef(sv, r.file, r.node, false, null);
    SpawnKeeps(s, multiset{r}, x, Ref(r.node, r.file, false), null, s.names, s.path);
  }

  lemma SamePath(sv: Server, r: FidRef)
    requires sv.Valid() && r in sv.refs
    ensures r.file in sv.files && sv.files + {r.file} == sv.files
    ensures sv.View().path[r.file := r.file.path] == sv.View().path
  {
    sv.Row(r);
  }

  lemma Displaced(s: Store, key: Key, x: FidRef, r: FidRef)
    requires Inv(s, multiset{r} + multiset{x})
    ensures Inv(Install(s, key, x), if key in s.fids then multiset{r} + multiset{s.fids[key]} else multiset{r})
  {
    hide Inv, Install;
    InstallKeeps(s, multiset{r} + multiset{x}, key, x);
    assert multiset{r} + multiset{x} - multiset{x} + Evicted(s.fids, key)
        == if key in s.fids then multiset{r} + multiset{s.fids[key]} else multiset{r};
  }

  /** The fid of an extended attribute: the new reference's hold becomes the table's, and what the slot held is
      dropped. */
  method Replacing(sv: Server, key: Key, x: FidRef, r: FidRef)
    requires sv.Valid() && x in sv.refs && Inv(sv.View(), multiset{r} + multiset{x})
    modifies sv`fids, sv.refs`refs, sv.files`closes, sv.nodes`childRefs, sv.nodes`childRefNames
    ensures sv.Valid() && Inv(sv.View(), multiset{})
    ensures var s := old(sv.View());
            var s1 := Install(s, key, x);
            sv.View() == Put(if key in s.fids then Put(s1, s.fids[key]) else s1, r)
  {
    hide Inv, Server.Valid, Server.View, Put;
    TableRow(sv);
    AllBound(sv);
    Displaced(sv.View(), key, x, r);
    assert multiset{r} - multiset{r} == multiset{};
    var had, orig := key in sv.fids, x;
    if had { orig := sv.fids[key]; }
    Rebind(sv, sv.fids[key := x]);
    if had {
      assert multiset{r} + multiset{orig} - multiset{orig} == multiset{r};
      PutRef(sv, orig, multiset{r} + multiset{orig});
    }
    PutRef(sv, r, multiset{r});
  }

  lemma RefNew(s: Store, x: FidRef)
    requires x !in KnownParts(s)
    ensures x !in s.what && x !in s.isOpen
  {
  }

  method XattrWalk(sv: Server, key: Key, newKey: Key, answer: Answer) returns (reply: Reply, ghost ref: FidRef)
    requires sv.Valid() && Inv(sv.View(), multiset{})
    modifies sv, sv.refs`refs, sv.files`closes, sv.nodes`childRefs, sv.nodes`childRefNames
    ensures sv.Valid() && Grows(sv) && Inv(sv.View(), multiset{}) && ref !in old(sv.View()).what
    ensures ref !in old(sv.View()).isOpen
    ensures (sv.View(), reply) == Handlers.XattrWalk(old(sv.View()), key, newKey, answer, ref)
  {
    hide Inv, Server.Valid, Server.View, Handlers.XattrWalk, KnownParts;
    ghost var s := sv.View();
    ghost var known := KnownParts(s);
    KnownAllocated(s);
    ghost var spare := SpareStep(answer);
    assert spare.ref in Parts(spare);
    reply, ref := XattrWalkWith(sv, key, newKey, answer, spare.ref);
    RefNew(s, ref);
  }

  /** The handler; `spare` stands for the reference it does not make. */
  method XattrWalkWith(sv: Server, key: Key, newKey: Key, answer: Answer, ghost spare: FidRef)
      returns (reply: Reply, ghost ref: FidRef)
    requires sv.Valid() && Inv(sv.View(), multiset{})
    modifies sv, sv.refs`refs, sv.files`closes, sv.nodes`childRefs, sv.nodes`childRefNames
    ensures sv.Valid() && Grows(sv) && Inv(sv.View(), multiset{}) && (ref == spare || fresh(ref))
    ensures (sv.View(), reply) == Handlers.XattrWalk(old(sv.View()), key, newKey, answer, ref)
  {
    hide Inv, Server.Valid, Server.View, Put, Spawn;
    ref := spare;
    ghost var s := sv.View();
    var r := Lookup(sv, key);
    if r == null { return Fail(EBADF), ref; }
    reply, ref := XattrWalkFound(sv, key, r, newKey, answer, spare, s);
  }

  method XattrWalkFound(sv: Server, ghost key: Key, r: FidRef, newKey: Key, answer: Answer, ghost spare: FidRef,
                        ghost s: Store)
      returns (reply: Reply, ghost ref: FidRef)
    requires sv.Valid() && r in sv.refs && Inv(sv.View(), multiset{r})
    requires key in s.fids && s.fids[key] == r && Sound(s, r) && sv.View() == IncRef(s, r)
    modifies sv, sv.refs`refs, sv.files`closes, sv.nodes`childRefs, sv.nodes`childRefNames
    ensures sv.Valid() && Grows(sv) && Inv(sv.View(), multiset{}) && (ref == spare || fresh(ref))
    ensures (sv.View(), reply) == Handlers.XattrWalk(s, key, newKey, answer, ref)
  {
    hide Inv, Server.Valid, Server.View, Put, Spawn, Grows;
    ref := spare;
    assert multiset{r} - multiset{r} == multiset{};
    Seen(sv, r);
    if r.node.deleted {
      PutRef(sv, r, multiset{r});
      SameSets(sv);
      return Fail(EINVAL), ref;
    }
    if answer.Refused? {
      PutRef(sv, r, multiset{r});
      SameSets(sv);
      return Fail(answer.errno), ref;
    }
    var x := XattrWalkHere(sv, r, newKey);
    reply, ref := Done([]), x;
  }

  method XattrWalkHere(sv: Server, r: FidRef, newKey: Key) returns (x: FidRef)
    requires sv.Valid() && r in sv.refs && Inv(sv.View(), multiset{r}) && !r.node.deleted
    modifies sv, sv.refs`refs, sv.files`closes, sv.nodes`childRefs, sv.nodes`childRefNames
    ensures sv.Valid() && Grows(sv) && Inv(sv.View(), multiset{}) && fresh(x)
    ensures var s := old(sv.View());
            && r in s.what
            && var s1 :=
                 Install(Spawn(s, x, Ref(s.what[r].node, s.what[r].file, false), null, s.names, s.path), newKey, x);
               sv.View() == Put(if newKey in s.fids then Put(s1, s.fids[newKey]) else s1, r)
  {
    hide Inv, Server.Valid, Server.View, Put, Spawn;
    ghost var s := sv.View();
    x := NewXattrRef(sv, r);
    SpawnFids(s, x, Ref(s.what[r].node, s.what[r].file, false), null, s.names, s.path);
    Replacing(sv, newKey, x, r);
  }
}
