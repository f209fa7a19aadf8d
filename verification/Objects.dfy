/** The server's heap: backing files, path nodes and fid references. */
module Objects {

  /** A path-holding backing file, as localfs keeps it; `path` holds the components below the attach point. */
  class File {
    var path: seq<string>
    var closes: nat

    constructor (path: seq<string>)
      ensures this.path == path && closes == 0
    {
      this.path := path;
      closes := 0;
    }

    /** A file that only a proof speaks of. */
    ghost constructor Spare()
      ensures closes == 0
    {
      path, closes := [], 0;
    }

    method Close()
      modifies this`closes
      ensures closes == old(closes) + 1
    {
      closes := closes + 1;
    }

    method Renamed(parent: File, newName: string)
      modifies this`path
      ensures path == old(parent.path) + [newName]
    {
      path := parent.path + [newName];
    }
  }

  /** A reference a fid (or a walk) holds; `refs` counts its holders. */
  class FidRef {
    const file: File
    const node: PathNode
    const dir: bool
    var refs: int
    var isOpen: bool
    var parent: FidRef?

    constructor (file: File, node: PathNode, dir: bool, parent: FidRef?)
      ensures this.file == file && this.node == node && this.dir == dir && this.parent == parent
      ensures refs == 0 && !isOpen
    {
      this.file, this.node, this.dir, this.parent := file, node, dir, parent;
      refs, isOpen := 0, false;
    }

    /** A reference that only a proof speaks of. */
    ghost constructor Spare(file: File, node: PathNode)
      ensures this.file == file && this.node == node
    {
      this.file, this.node, dir, parent, refs, isOpen := file, node, false, null, 0, false;
    }

    method IncRef()
      modifies this`refs
      ensures refs == old(refs) + 1
    {
      refs := refs + 1;
    }

    /** Takes a reference unless the object is already dead. */
    method TryIncRef() returns (ok: bool)
      modifies this`refs
      ensures ok == (old(refs) > 0) && refs == old(refs) + if ok then 1 else 0
    {
      if refs <= 0 { return false; }
      refs := refs + 1;
      return true;
    }
  }

  /** One path component: its child nodes, and the child references by name and by identity. */
  class PathNode {
    var deleted: bool
    var childNodes: map<string, PathNode>
    var childRefs: map<string, set<FidRef>>
    var childRefNames: map<FidRef, string>

    /** The two child-reference maps mirror each other; a name may keep an empty set. */
    ghost predicate Valid()
      reads this`childRefs, this`childRefNames
    {
      && (forall r | r in childRefNames :: childRefNames[r] in childRefs && r in childRefs[childRefNames[r]])
      && (forall name, r | name in childRefs && r in childRefs[name] :: r in childRefNames && childRefNames[r] == name)
    }

    constructor ()
      ensures Valid() && !deleted && childNodes == map[] && childRefNames == map[] && childRefs == map[]
    {
      deleted := false;
      childNodes, childRefs, childRefNames := map[], map[], map[];
    }

    /** A node that only a proof speaks of. */
    ghost constructor Spare()
      ensures Valid()
    {
      deleted := false;
      childNodes, childRefs, childRefNames := map[], map[], map[];
    }

    /** The name `ref` is registered under; the source panics when there is none. */
    method NameFor(ref: FidRef) returns (name: string)
      requires ref in childRefNames
      ensures name == childRefNames[ref]
    {
      name := childRefNames[ref];
    }

    /** Registers `ref`; the source panics when it is registered already. */
    method AddChild(ref: FidRef, name: string)
      requires Valid() && ref !in childRefNames
      modifies this`childRefs, this`childRefNames
      ensures Valid() && childRefNames == old(childRefNames)[ref := name]
    {
      childRefNames := childRefNames[ref := name];
      if name !in childRefs {
        childRefs := childRefs[name := {}];
      }
      childRefs := childRefs[name := childRefs[name] + {ref}];
    }

    /** Forgets `ref`, which need not be registered; the source panics when the mirror map lacks its name. */
    method RemoveChild(ref: FidRef)
      requires Valid()
      modifies this`childRefs, this`childRefNames
      ensures Valid() && childRefNames == old(childRefNames) - {ref}
    {
      if ref in childRefNames {
        var name := childRefNames[ref];
        assert name in childRefs;
        childRefs := childRefs[name := childRefs[name] - {ref}];
        if childRefs[name] == {} {
          childRefs := childRefs - {name};
        }
      }
      childRefNames := childRefNames - {ref};
    }

    /** Hangs an existing node; the source panics when the name is taken. */
    method AddPathNodeFor(name: string, pn: PathNode)
      requires Valid() && name !in childNodes
      modifies this`childNodes
      ensures Valid() && childNodes == old(childNodes)[name := pn]
    {
      childNodes := childNodes[name := pn];
    }

    /** Forgets one reference of a name, leaving its set behind even when it empties. */
    method Unlist(name: string, ref: FidRef)
      requires Valid() && name in childRefs && ref in childRefs[name]
      modifies this`childRefs, this`childRefNames
      ensures Valid() && childRefNames == old(childRefNames) - {ref}
      ensures childRefs == old(childRefs)[name := old(childRefs)[name] - {ref}]
    {
      childRefs := childRefs[name := childRefs[name] - {ref}];
      childRefNames := childRefNames - {ref};
    }

    /** Forgets every reference with that name and hands over the child node, if there is one. */
    method RemoveWithName(name: string) returns (orig: PathNode?)
      requires Valid()
      modifies this`childNodes, this`childRefs, this`childRefNames
      ensures Valid()
      ensures childRefNames == map r | r in old(childRefNames) && old(childRefNames)[r] != name :: old(childRefNames)[r]
      ensures orig == if name in old(childNodes) then old(childNodes)[name] else null
      ensures childNodes == old(childNodes) - {name}
    {
      if name in childRefs {
        while childRefs[name] != {}
          invariant Valid() && name in childRefs && childNodes == old(childNodes)
          invariant forall r | r in childRefNames ::
                      r in old(childRefNames) && childRefNames[r] == old(childRefNames)[r]
          invariant forall r | r in old(childRefNames) && old(childRefNames)[r] != name :: r in childRefNames
          decreases childRefs[name]
        {
          var ref :| ref in childRefs[name];
          Unlist(name, ref);
        }
      }
      orig := if name in childNodes then childNodes[name] else null;
      childNodes := childNodes - {name};
    }
  }
}
