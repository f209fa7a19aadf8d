/** The path tree seen as a forest: `kids` holds every node's childNodes map. */
module Forest {
  import opened Objects

  type Kids = map<PathNode, map<string, PathNode>>

  /** The node reached from `n` by following the component names in `p`; null when some step is missing. */
  ghost function From(kids: Kids, n: PathNode?, p: seq<string>): PathNode?
    decreases |p|
  {
    if p == [] then n else Step(kids, From(kids, n, p[..|p| - 1]), p[|p| - 1])
  }

  ghost function Step(kids: Kids, n: PathNode?, name: string): PathNode?
  {
    if n != null && n in kids && name in kids[n] then kids[n][name] else null
  }

  ghost predicate Reaches(kids: Kids, n: PathNode, m: PathNode)
  {
    exists p :: From(kids, n, p) == m
  }

  /** The nodes of the subtree hanging from `n`, `n` included. */
  ghost function Below(kids: Kids, n: PathNode): set<PathNode>
  {
    set m | m in kids && Reaches(kids, n, m)
  }

  ghost predicate Closed(kids: Kids)
  {
    forall n, x :: n in kids && x in kids[n] ==> kids[n][x] in kids
  }

  ghost predicate Hangs(kids: Kids, n: PathNode, name: string, c: PathNode)
  {
    n in kids && name in kids[n] && kids[n][name] == c
  }

  /** No node hangs from two places. */
  ghost predicate SingleParent(kids: Kids)
  {
    forall n, x, m, y, c {:trigger Hangs(kids, n, x, c), Hangs(kids, m, y, c)} |
      n in kids && m in kids && c in kids && Hangs(kids, n, x, c) && Hangs(kids, m, y, c) :: n == m && x == y
  }

  ghost predicate Top(kids: Kids, c: PathNode)
  {
    c in kids && forall n, x {:trigger Hangs(kids, n, x, c)} | n in kids :: !Hangs(kids, n, x, c)
  }

  /** The deleted nodes are exactly those that no path from the root reaches. */
  ghost predicate DeletedIsUnreachable(root: PathNode, kids: Kids, deleted: set<PathNode>)
  {
    forall n | n in kids :: n in deleted <==> !Reaches(kids, root, n)
  }

  /** The shape of the path tree in every state between two requests. */
  ghost predicate Tree(root: PathNode, kids: Kids, deleted: set<PathNode>)
  {
    && Closed(kids)
    && SingleParent(kids)
    && Top(kids, root)
    && deleted <= kids.Keys
    && DeletedIsUnreachable(root, kids, deleted)
  }

  /** The last edge of a path. */
  lemma LastEdge(kids: Kids, top: PathNode, p: seq<string>)
    requires Closed(kids) && top in kids && p != [] && From(kids, top, p) != null
    ensures var m := From(kids, top, p[..|p| - 1]);
            m != null && m in kids && From(kids, top, p) in kids && Hangs(kids, m, p[|p| - 1], From(kids, top, p))
  {
    FromIn(kids, top, p[..|p| - 1]);
  }

  lemma {:induction false} FromConcat(kids: Kids, n: PathNode?, p: seq<string>, q: seq<string>)
    ensures From(kids, n, p + q) == From(kids, From(kids, n, p), q)
    decreases |q|
  {
    if q == [] {
      assert p + q == p;
    } else {
      FromConcat(kids, n, p, q[..|q| - 1]);
      assert (p + q)[..|p + q| - 1] == p + q[..|q| - 1];
    }
  }

  lemma {:induction false} FromIn(kids: Kids, n: PathNode, p: seq<string>)
    requires Closed(kids) && n in kids
    ensures From(kids, n, p) == null || From(kids, n, p) in kids
    decreases |p|
  {
    if p != [] {
      FromIn(kids, n, p[..|p| - 1]);
    }
  }

  /** A node has one path from a top node. */
  lemma {:induction false} PathUnique(kids: Kids, top: PathNode, p: seq<string>, q: seq<string>)
    requires Closed(kids) && SingleParent(kids) && Top(kids, top)
    requires From(kids, top, p) == From(kids, top, q) != null
    ensures p == q
    decreases |p|
  {
    if p != [] { LastEdge(kids, top, p); }
    if q != [] { LastEdge(kids, top, q); }
    if p != [] && q != [] {
      PathUnique(kids, top, p[..|p| - 1], q[..|q| - 1]);
      assert p == p[..|p| - 1] + [p[|p| - 1]] && q == q[..|q| - 1] + [q[|q| - 1]];
    }
  }

  // ---- removing an edge -------------------------------------------------

  ghost function Without(kids: Kids, n: PathNode, name: string): Kids
    requires n in kids
  {
    kids[n := kids[n] - {name}]
  }

  /** Cutting the edge `name` of the node at `pn` cuts exactly the paths through it. */
  lemma {:induction false} CutPath(kids: Kids, top: PathNode, n: PathNode, name: string, pn: seq<string>,
                                   p: seq<string>)
    requires Closed(kids) && SingleParent(kids) && Top(kids, top) && n in kids && From(kids, top, pn) == n
    ensures From(Without(kids, n, name), top, p) == if pn + [name] <= p then null else From(kids, top, p)
    decreases |p|
  {
    if p != [] {
      var q := p[..|p| - 1];
      CutPath(kids, top, n, name, pn, q);
      if From(kids, top, q) == n {
        PathUnique(kids, top, q, pn);
      }
      if pn + [name] <= p && !(pn + [name] <= q) {
        assert p == pn + [name];
        assert q == pn;
      }
    }
  }

  /** Nothing below the cut edge changes. */
  lemma {:induction false} CutBelow(kids: Kids, top: PathNode, n: PathNode, name: string, pn: seq<string>,
                                    q: seq<string>)
    requires Closed(kids) && SingleParent(kids) && Top(kids, top) && n in kids && name in kids[n]
    requires From(kids, top, pn) == n
    ensures From(Without(kids, n, name), kids[n][name], q) == From(kids, top, pn + [name] + q)
    decreases |q|
  {
    if q == [] {
      assert pn + [name] + q == pn + [name];
      assert (pn + [name])[..|pn|] == pn;
    } else {
      CutBelow(kids, top, n, name, pn, q[..|q| - 1]);
      assert (pn + [name] + q)[..|pn + [name] + q| - 1] == pn + [name] + q[..|q| - 1];
      if From(kids, top, pn + [name] + q[..|q| - 1]) == n {
        PathUnique(kids, top, pn + [name] + q[..|q| - 1], pn);
      }
    }
  }

  /** What hangs from the cut edge, named by its old path. */
  lemma CutSubtree(kids: Kids, top: PathNode, n: PathNode, name: string, pn: seq<string>,
                   m: PathNode) returns (p: seq<string>)
    requires Closed(kids) && SingleParent(kids) && Top(kids, top) && n in kids && name in kids[n]
    requires From(kids, top, pn) == n
    requires m in Below(Without(kids, n, name), kids[n][name])
    ensures From(kids, top, p) == m && pn + [name] <= p
  {
    var q :| From(Without(kids, n, name), kids[n][name], q) == m;
    CutBelow(kids, top, n, name, pn, q);
    p := pn + [name] + q;
  }

  lemma CutReach(root: PathNode, kids: Kids, deleted: set<PathNode>, n: PathNode, name: string, pn: seq<string>,
                 m: PathNode)
    requires Tree(root, kids, deleted) && n in kids && name in kids[n] && From(kids, root, pn) == n
    requires m in kids
    ensures var k := Without(kids, n, name);
            m in deleted + Below(k, kids[n][name]) <==> !Reaches(k, root, m)
  {
    hide From, SingleParent, Top, Closed;
    var k := Without(kids, n, name);
    if m in Below(k, kids[n][name]) {
      var q := CutSubtree(kids, root, n, name, pn, m);
      if p :| From(k, root, p) == m {
        CutPath(kids, root, n, name, pn, p);
        PathUnique(kids, root, p, q);
      }
    } else if m in deleted {
      if p :| From(k, root, p) == m {
        CutPath(kids, root, n, name, pn, p);
      }
    } else {
      var p :| From(kids, root, p) == m;
      CutPath(kids, root, n, name, pn, p);
      if pn + [name] <= p {
        assert p == pn + [name] + p[|pn| + 1..];
        CutBelow(kids, root, n, name, pn, p[|pn| + 1..]);
      }
    }
  }

  lemma CutShape(kids: Kids, top: PathNode, n: PathNode, name: string)
    requires Closed(kids) && SingleParent(kids) && Top(kids, top) && n in kids && name in kids[n]
    ensures var k := Without(kids, n, name);
            Closed(k) && SingleParent(k) && Top(k, top) && Top(k, kids[n][name]) && kids[n][name] != top
  {
    var k := Without(kids, n, name);
    forall m, x, c | m in k && c in k && Hangs(k, m, x, c)
      ensures Hangs(kids, m, x, c) && !(m == n && x == name)
    {
    }
    assert Hangs(kids, n, name, kids[n][name]);
  }

  /** Unlinking: cutting a live edge and marking what hung from it keeps the tree. */
  lemma Detach(root: PathNode, kids: Kids, deleted: set<PathNode>, n: PathNode, name: string)
    requires Tree(root, kids, deleted) && n in kids && n !in deleted && name in kids[n]
    ensures var k := Without(kids, n, name); var c := kids[n][name];
            && Tree(root, k, deleted + Below(k, c))
            && Top(k, c) && c != root
            && Below(k, c) !! deleted && n !in Below(k, c)
  {
    var k := Without(kids, n, name);
    var c := kids[n][name];
    var pn :| From(kids, root, pn) == n;
    CutShape(kids, root, n, name);
    forall m | m in kids
      ensures m in deleted + Below(k, c) <==> !Reaches(k, root, m)
    {
      CutReach(root, kids, deleted, n, name, pn, m);
    }
    forall m | m in Below(k, c)
      ensures m !in deleted && m != n
    {
      var p := CutSubtree(kids, root, n, name, pn, m);
      if m == n { PathUnique(kids, root, p, pn); }
    }
  }

  // ---- adding an edge ---------------------------------------------------

  ghost function With(kids: Kids, t: PathNode, name: string, c: PathNode): Kids
    requires t in kids
  {
    kids[t := kids[t][name := c]]
  }

  /** Hanging `c`, found under no path of `top`, leaves those paths alone. */
  lemma {:induction false} GraftAway(kids: Kids, top: PathNode, t: PathNode, name: string, c: PathNode, p: seq<string>)
    requires t in kids && name !in kids[t] && c in kids
    requires From(kids, top, p) != null
    ensures From(With(kids, t, name, c), top, p) == From(kids, top, p)
    decreases |p|
  {
    if p != [] {
      GraftAway(kids, top, t, name, c, p[..|p| - 1]);
    }
  }

  /** Conversely, a path of the grafted tree is an old path or runs through the new edge. */
  lemma {:induction false} GraftPath(kids: Kids, top: PathNode, t: PathNode, name: string, c: PathNode, p: seq<string>)
    returns (q: seq<string>)
    requires t in kids && name !in kids[t] && c in kids
    requires From(With(kids, t, name, c), top, p) != null
    ensures From(With(kids, t, name, c), top, p) == From(kids, top, p)
         || From(With(kids, t, name, c), top, p) == From(kids, c, q)
    decreases |p|
  {
    var k := With(kids, t, name, c);
    if p == [] { return []; }
    var x := p[|p| - 1];
    var m := From(k, top, p[..|p| - 1]);
    q := GraftPath(kids, top, t, name, c, p[..|p| - 1]);
    if m == t && x == name { return []; }
    if m != From(kids, top, p[..|p| - 1]) {
      assert (q + [x])[..|q|] == q;
      return q + [x];
    }
  }

  /** The paths that run through the new edge. */
  lemma GraftThrough(kids: Kids, top: PathNode, t: PathNode, name: string, c: PathNode, pt: seq<string>, q: seq<string>)
    requires t in kids && name !in kids[t] && c in kids
    requires From(kids, top, pt) == t && From(kids, c, q) != null
    ensures From(With(kids, t, name, c), top, pt + [name] + q) == From(kids, c, q)
  {
    GraftAway(kids, top, t, name, c, pt);
    GraftAway(kids, c, t, name, c, q);
    assert (pt + [name])[..|pt|] == pt;
    FromConcat(With(kids, t, name, c), top, pt + [name], q);
  }

  lemma GraftReach(root: PathNode, kids: Kids, deleted: set<PathNode>, t: PathNode, name: string, c: PathNode,
                   m: PathNode)
    requires Tree(root, kids, deleted) && t in kids && t !in deleted && name !in kids[t] && Top(kids, c) && c != root
    requires c in deleted
    requires m in kids
    ensures m in deleted - Below(kids, c) <==> !Reaches(With(kids, t, name, c), root, m)
  {
    var k := With(kids, t, name, c);
    hide From, SingleParent, Closed;
    if m in Below(kids, c) {
      var pt :| From(kids, root, pt) == t;
      var q :| From(kids, c, q) == m;
      GraftThrough(kids, root, t, name, c, pt, q);
    } else if m !in deleted {
      var p :| From(kids, root, p) == m;
      GraftAway(kids, root, t, name, c, p);
    } else {
      if p :| From(k, root, p) == m {
        var q := GraftPath(kids, root, t, name, c, p);
      }
    }
  }

  lemma GraftShape(root: PathNode, kids: Kids, t: PathNode, name: string, c: PathNode)
    requires Closed(kids) && SingleParent(kids) && Top(kids, root) && Top(kids, c) && c != root && t in kids
    requires name !in kids[t]
    ensures var k := With(kids, t, name, c); Closed(k) && SingleParent(k) && Top(k, root)
  {
    var k := With(kids, t, name, c);
    forall m, x, d | m in k && d in k && Hangs(k, m, x, d)
      ensures if m == t && x == name then d == c else Hangs(kids, m, x, d) && d != c
    {
      if !(m == t && x == name) { assert Hangs(kids, m, x, d); }
    }
  }

  /** Hanging a detached subtree from a live node keeps the tree and revives exactly that subtree. */
  lemma Attach(root: PathNode, kids: Kids, deleted: set<PathNode>, t: PathNode, name: string, c: PathNode)
    requires Tree(root, kids, deleted) && t in kids && t !in deleted && name !in kids[t] && Top(kids, c) && c != root
    requires c in deleted
    ensures Tree(root, With(kids, t, name, c), deleted - Below(kids, c))
  {
    GraftShape(root, kids, t, name, c);
    forall m | m in kids
      ensures m in deleted - Below(kids, c) <==> !Reaches(With(kids, t, name, c), root, m)
    {
      GraftReach(root, kids, deleted, t, name, c, m);
    }
  }

  /** A new node appears below a live one; no other node notices. */
  lemma Sprout(root: PathNode, kids: Kids, deleted: set<PathNode>, t: PathNode, name: string, c: PathNode)
    requires Tree(root, kids, deleted) && t in kids && t !in deleted && name !in kids[t] && c !in kids
    ensures Tree(root, With(kids[c := map[]], t, name, c), deleted)
    ensures forall p :: From(kids, root, p) != null ==>
              From(With(kids[c := map[]], t, name, c), root, p) == From(kids, root, p)
  {
    var k0 := kids[c := map[]];
    assert Tree(root, k0, deleted + {c}) by { SproutBare(root, kids, deleted, c); }
    Attach(root, k0, deleted + {c}, t, name, c);
    assert Below(k0, c) == {c} by { SproutBelow(k0, c); }
    assert deleted + {c} - {c} == deleted;
    forall p | From(kids, root, p) != null
      ensures From(With(k0, t, name, c), root, p) == From(kids, root, p)
    {
      BarePath(kids, root, c, p);
      GraftAway(k0, root, t, name, c, p);
    }
  }

  lemma {:induction false} BarePath(kids: Kids, root: PathNode, c: PathNode, p: seq<string>)
    requires Closed(kids) && root in kids && c !in kids
    ensures From(kids[c := map[]], root, p) == From(kids, root, p)
    decreases |p|
  {
    FromIn(kids, root, p);
    if p != [] { BarePath(kids, root, c, p[..|p| - 1]); FromIn(kids, root, p[..|p| - 1]); }
  }

  lemma SproutBare(root: PathNode, kids: Kids, deleted: set<PathNode>, c: PathNode)
    requires Tree(root, kids, deleted) && c !in kids
    ensures Tree(root, kids[c := map[]], deleted + {c}) && Top(kids[c := map[]], c)
  {
    var k := kids[c := map[]];
    forall m, x, d | m in k && Hangs(k, m, x, d)
      ensures Hangs(kids, m, x, d) && d != c
    {
    }
    forall m | m in k
      ensures m in deleted + {c} <==> !Reaches(k, root, m)
    {
      forall p ensures From(k, root, p) == From(kids, root, p) != c {
        BarePath(kids, root, c, p);
        FromIn(kids, root, p);
      }
      if m != c && m !in deleted {
        var p :| From(kids, root, p) == m;
        assert From(k, root, p) == m;
      }
    }
  }

  lemma SproutBelow(kids: Kids, c: PathNode)
    requires c in kids && kids[c] == map[]
    ensures Below(kids, c) == {c}
  {
    assert From(kids, c, []) == c;
    forall p ensures From(kids, c, p) == null || p == [] {
      BarrenPath(kids, c, p);
    }
  }

  lemma {:induction false} BarrenPath(kids: Kids, c: PathNode, p: seq<string>)
    requires c in kids && kids[c] == map[]
    ensures From(kids, c, p) == null || p == []
    decreases |p|
  {
    if p != [] { BarrenPath(kids, c, p[..|p| - 1]); }
  }

  // ---- facts about subtrees -----------------------------------------------

  lemma BelowSelf(kids: Kids, c: PathNode)
    requires c in kids
    ensures c in Below(kids, c)
  {
    assert From(kids, c, []) == c;
  }

  lemma BelowChild(kids: Kids, c: PathNode, m: PathNode, name: string, d: PathNode)
    requires Closed(kids) && m in Below(kids, c) && Hangs(kids, m, name, d)
    ensures d in Below(kids, c)
  {
    var p :| From(kids, c, p) == m;
    assert (p + [name])[..|p|] == p;
    assert From(kids, c, p + [name]) == d;
  }

  lemma BelowParent(kids: Kids, c: PathNode, m: PathNode, name: string, d: PathNode)
    requires Closed(kids) && SingleParent(kids) && c in kids && d in Below(kids, c) && d != c && m in kids
    requires Hangs(kids, m, name, d)
    ensures m in Below(kids, c)
  {
    var p :| From(kids, c, p) == d;
    assert p != [];
    LastEdge(kids, c, p);
  }

  /** On a live edge both ends are live. */
  lemma EdgeLive(root: PathNode, kids: Kids, deleted: set<PathNode>, n: PathNode, name: string, c: PathNode)
    requires Tree(root, kids, deleted) && n in kids && Hangs(kids, n, name, c)
    ensures n in deleted <==> c in deleted
    ensures c != root
  {
    if n !in deleted {
      var p :| From(kids, root, p) == n;
      assert (p + [name])[..|p|] == p;
      assert From(kids, root, p + [name]) == c;
    }
    if c !in deleted {
      var p :| From(kids, root, p) == c;
      assert p != [];
      LastEdge(kids, root, p);
    }
  }

  /** What the cut did not take keeps its path. */
  lemma Survives(root: PathNode, kids: Kids, deleted: set<PathNode>, n: PathNode, name: string, p: seq<string>)
    requires Tree(root, kids, deleted) && n in kids && n !in deleted && name in kids[n]
    requires From(kids, root, p) != null && From(kids, root, p) in kids
    requires From(kids, root, p) !in Below(Without(kids, n, name), kids[n][name])
    ensures From(Without(kids, n, name), root, p) == From(kids, root, p)
  {
    hide From, SingleParent, Top;
    var pn :| From(kids, root, pn) == n;
    CutPath(kids, root, n, name, pn, p);
    if pn + [name] <= p {
      assert p == pn + [name] + p[|pn| + 1..];
      CutBelow(kids, root, n, name, pn, p[|pn| + 1..]);
    }
  }

  /** A moved subtree: the node at the old path is found at the new one. */
  lemma Carried(root: PathNode, kids: Kids, deleted: set<PathNode>, f: PathNode, oldName: string, pf: seq<string>,
                t: PathNode, newName: string, pt: seq<string>, p: seq<string>)
    requires Tree(root, kids, deleted) && f in kids && From(kids, root, pf) == f && oldName in kids[f]
    requires var k := Without(kids, f, oldName); var c := kids[f][oldName];
             && t in kids && newName !in k[t] && From(kids, root, pt) == t && t !in Below(k, c)
             && From(kids, root, p) in Below(k, c)
    ensures |pf| < |p|
    ensures From(With(Without(kids, f, oldName), t, newName, kids[f][oldName]), root, pt + [newName] + p[|pf| + 1..])
         == From(kids, root, p)
  {
    hide From, SingleParent, Top;
    var k := Without(kids, f, oldName);
    var c := kids[f][oldName];
    assert f !in deleted by { assert Reaches(kids, root, f); }
    Survives(root, kids, deleted, f, oldName, pt);
    var q := CutSubtree(kids, root, f, oldName, pf, From(kids, root, p));
    PathUnique(kids, root, p, q);
    var rest := p[|pf| + 1..];
    assert p == pf + [oldName] + rest;
    CutBelow(kids, root, f, oldName, pf, rest);
    GraftThrough(k, root, t, newName, c, pt, rest);
  }

  /** A move keeps the tree, and nothing is deleted by it. */
  lemma Moved(root: PathNode, kids: Kids, deleted: set<PathNode>, f: PathNode, oldName: string, t: PathNode,
              newName: string)
    requires Tree(root, kids, deleted) && f in kids && f !in deleted && oldName in kids[f]
    requires var k := Without(kids, f, oldName); var c := kids[f][oldName];
             t in kids && t !in deleted && newName !in k[t] && t !in Below(k, c)
    ensures Tree(root, With(Without(kids, f, oldName), t, newName, kids[f][oldName]), deleted)
  {
    hide From, SingleParent, Closed;
    var k := Without(kids, f, oldName);
    var c := kids[f][oldName];
    Detach(root, kids, deleted, f, oldName);
    BelowSelf(k, c);
    Attach(root, k, deleted + Below(k, c), t, newName, c);
    assert deleted + Below(k, c) - Below(k, c) == deleted;
  }

  // ---- visiting a subtree --------------------------------------------------

  /** A subtree is its node and the subtrees of its children. */
  lemma {:induction false} BelowOrSelf(kids: Kids, n: PathNode, p: seq<string>) returns (x: string)
    requires Closed(kids) && n in kids && p != [] && From(kids, n, p) != null
    ensures x in kids[n] && From(kids, n, p) in kids && From(kids, n, p) in Below(kids, kids[n][x])
    decreases |p|
  {
    var q := p[..|p| - 1];
    LastEdge(kids, n, p);
    if q == [] {
      x := p[0];
      BelowSelf(kids, kids[n][x]);
    } else {
      x := BelowOrSelf(kids, n, q);
      BelowChild(kids, kids[n][x], From(kids, n, q), p[|p| - 1], From(kids, n, p));
    }
  }

  lemma BelowSplits(kids: Kids, n: PathNode, m: PathNode)
    requires Closed(kids) && n in kids && m in kids
    ensures m in Below(kids, n) <==> m == n || exists x :: x in kids[n] && m in Below(kids, kids[n][x])
  {
    if m in Below(kids, n) && m != n {
      var p :| From(kids, n, p) == m;
      var x := BelowOrSelf(kids, n, p);
    }
    if x :| x in kids[n] && m in Below(kids, kids[n][x]) {
      BelowVia(kids, n, x, m);
    }
    BelowSelf(kids, n);
  }

  lemma BelowVia(kids: Kids, n: PathNode, x: string, m: PathNode)
    requires Closed(kids) && n in kids && x in kids[n] && m in Below(kids, kids[n][x])
    ensures m in Below(kids, n)
  {
    var q :| From(kids, kids[n][x], q) == m;
    assert [x][..0] == [];
    FromConcat(kids, n, [x], q);
  }

  /** In a tree a child's subtree is strictly smaller. */
  lemma ChildSmaller(kids: Kids, top: PathNode, p: seq<string>, x: string)
    requires Closed(kids) && SingleParent(kids) && Top(kids, top)
    requires var n := From(kids, top, p); n != null && n in kids && x in kids[n]
    ensures var n := From(kids, top, p);
            && From(kids, top, p + [x]) == kids[n][x]
            && Below(kids, kids[n][x]) < Below(kids, n) && n !in Below(kids, kids[n][x])
  {
    var n := From(kids, top, p);
    var c := kids[n][x];
    assert (p + [x])[..|p|] == p;
    assert From(kids, top, p + [x]) == c;
    BelowSelf(kids, n);
    forall m | m in Below(kids, c) ensures m in Below(kids, n) && m != n {
      BelowVia(kids, n, x, m);
      if m == n {
        var q :| From(kids, c, q) == n;
        FromConcat(kids, top, p + [x], q);
        PathUnique(kids, top, p + [x] + q, p);
      }
    }
  }

  /** Two children of a node have disjoint subtrees. */
  lemma ChildrenApart(kids: Kids, top: PathNode, p: seq<string>, x: string, y: string, m: PathNode)
    requires Closed(kids) && SingleParent(kids) && Top(kids, top)
    requires var n := From(kids, top, p);
             n != null && n in kids && x in kids[n] && y in kids[n] && m in Below(kids, kids[n][x])
             && m in Below(kids, kids[n][y])
    ensures x == y
  {
    hide SingleParent, Top;
    var n := From(kids, top, p);
    var a :| From(kids, kids[n][x], a) == m;
    var b :| From(kids, kids[n][y], b) == m;
    ChildSmaller(kids, top, p, x);
    ChildSmaller(kids, top, p, y);
    FromConcat(kids, top, p + [x], a);
    FromConcat(kids, top, p + [y], b);
    PathUnique(kids, top, p + [x] + a, p + [y] + b);
    assert (p + [x] + a)[|p|] == x && (p + [y] + b)[|p|] == y;
  }
}
