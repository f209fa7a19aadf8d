/** Telling files that they moved: what notifyNameChange finds in a subtree and which files it tells. */
module Telling {
  import opened Objects
  import opened Forest
  import opened Bookkeeping
  import opened Reshape

  ghost predicate Listed(names: Names, m: PathNode, y: FidRef)
  {
    m in names && y in names[m]
  }

  /** `y` is registered at `m` below a reference on `m`, and `want` gives its file that reference's path and one name
      more. */
  ghost predicate Hears(kids: Kids, names: Names, parent: Parents, refs: set<FidRef>, want: map<File, seq<string>>,
                        m: PathNode, y: FidRef)
    requires Listed(names, m, y)
  {
    var q := Par(parent, y);
    && y in refs && q != null && q in refs && q.node == m && Hangs(kids, m, names[m][y], y.node)
    && y.file in want && q.file in want && want[y.file] == want[q.file] + [names[m][y]]
  }

  /** The parent of a reference registered at `m` is itself registered at the node above `m`. */
  ghost predicate Chained(kids: Kids, names: Names, parent: Parents, m: PathNode, y: FidRef)
  {
    var q := Par(parent, y);
    q != null &&
    var g := Par(parent, q);
    g != null && g.node in kids && Listed(names, g.node, q) && Hangs(kids, g.node, names[g.node][q], m)
  }

  /** A round of notifications: the tree, its registrations, and the path each file is to hold. */
  datatype Tour = Tour(kids: Kids, names: Names, parent: Parents, want: map<File, seq<string>>, top: PathNode)

  /** What notifyNameChange relies on below `pn`. */
  ghost predicate Notifiable(kids: Kids, names: Names, parent: Parents, refs: set<FidRef>, want: map<File, seq<string>>,
                             pn: PathNode)
  {
    && (forall m, y | m in Below(kids, pn) && m in names && y in names[m] ::
          Hears(kids, names, parent, refs, want, m, y) && (m != pn ==> Chained(kids, names, parent, m, y)))
    && (forall y, z | y in refs && z in refs && y.file == z.file :: y.node == z.node)
  }

  /** A file is told at one node only. */
  lemma ToldOnce(kids: Kids, names: Names, parent: Parents, refs: set<FidRef>, want: map<File, seq<string>>,
                 m: PathNode, y: FidRef, m': PathNode, y': FidRef)
    requires Closed(kids) && SingleParent(kids) && m in kids && m' in kids
    requires forall y, z | y in refs && z in refs && y.file == z.file :: y.node == z.node
    requires Listed(names, m, y) && Listed(names, m', y') && y.file == y'.file
    requires Hears(kids, names, parent, refs, want, m, y) && Hears(kids, names, parent, refs, want, m', y')
    ensures m == m' && names[m][y] == names[m][y']
  {
    OneEdge(kids, m, names[m][y], m', names[m'][y'], y.node);
  }

  ghost predicate TellsAt(names: Names, m: PathNode, f: File)
  {
    exists y :: m in names && y in names[m] && y.file == f
  }

  /** The files told when the subtree of `pn` is notified. */
  ghost predicate Tells(kids: Kids, names: Names, pn: PathNode, f: File)
  {
    exists m :: m in Below(kids, pn) && TellsAt(names, m, f)
  }

  /** Telling a node's children does not touch the files of their parents. */
  lemma ParentsUntold(kids: Kids, names: Names, parent: Parents, refs: set<FidRef>, want: map<File, seq<string>>,
                      top: PathNode, p: seq<string>, pn: PathNode, y: FidRef, f: File)
    requires Closed(kids) && SingleParent(kids) && Top(kids, top) && From(kids, top, p) == pn && pn in kids
    requires Notifiable(kids, names, parent, refs, want, pn) && Listed(names, pn, y) && TellsAt(names, pn, f)
    ensures Par(parent, y) != null && Par(parent, y).file != f
  {
    hide From, Below, Chained;
    BelowSelf(kids, pn);
    var y' :| pn in names && y' in names[pn] && y'.file == f;
    assert Hears(kids, names, parent, refs, want, pn, y) && Hears(kids, names, parent, refs, want, pn, y');
    ChildSmaller(kids, top, p, names[pn][y']);
    BelowSelf(kids, kids[pn][names[pn][y']]);
  }

  /** Files told in one child's subtree are told neither at the node nor in another child's subtree. */
  lemma TellsApart(kids: Kids, names: Names, parent: Parents, refs: set<FidRef>, want: map<File, seq<string>>,
                   top: PathNode, p: seq<string>, pn: PathNode, x: string, m: PathNode, f: File)
    requires Closed(kids) && SingleParent(kids) && Top(kids, top) && From(kids, top, p) == pn && pn in kids
    requires x in kids[pn]
    requires Notifiable(kids, names, parent, refs, want, pn)
    requires Tells(kids, names, kids[pn][x], f) && m in Below(kids, pn) && TellsAt(names, m, f)
    ensures m in Below(kids, kids[pn][x])
  {
    hide From, Chained, Below;
    var m' :| m' in Below(kids, kids[pn][x]) && TellsAt(names, m', f);
    var y' :| m' in names && y' in names[m'] && y'.file == f;
    var y :| m in names && y in names[m] && y.file == f;
    BelowVia(kids, pn, x, m');
    BelowKnown(kids, pn);
    assert Hears(kids, names, parent, refs, want, m, y) && Hears(kids, names, parent, refs, want, m', y');
    ToldOnce(kids, names, parent, refs, want, m, y, m', y');
  }

  lemma NotTold(kids: Kids, names: Names, parent: Parents, refs: set<FidRef>, want: map<File, seq<string>>,
                top: PathNode, p: seq<string>, pn: PathNode, x: string, m: PathNode, y: FidRef)
    requires Closed(kids) && SingleParent(kids) && Top(kids, top) && From(kids, top, p) == pn && pn in kids
    requires x in kids[pn]
    requires Notifiable(kids, names, parent, refs, want, pn)
    requires m in Below(kids, pn) && m !in Below(kids, kids[pn][x]) && m in names && y in names[m]
    ensures !Tells(kids, names, kids[pn][x], y.file)
  {
    hide Notifiable, Closed, SingleParent, Top, From, Below;
    assert TellsAt(names, m, y.file);
    if Tells(kids, names, kids[pn][x], y.file) {
      TellsApart(kids, names, parent, refs, want, top, p, pn, x, m, y.file);
    }
  }

  lemma TellsWider(kids: Kids, names: Names, pn: PathNode)
    requires Closed(kids) && pn in kids
    ensures forall f | TellsAt(names, pn, f) :: Tells(kids, names, pn, f)
    ensures forall x, f | x in kids[pn] && Tells(kids, names, kids[pn][x], f) :: Tells(kids, names, pn, f)
  {
    hide From, TellsAt, Closed, Below;
    BelowSelf(kids, pn);
    forall x, f | x in kids[pn] && Tells(kids, names, kids[pn][x], f) ensures Tells(kids, names, pn, f) {
      var m :| m in Below(kids, kids[pn][x]) && TellsAt(names, m, f);
      BelowVia(kids, pn, x, m);
    }
  }

  lemma ChildNotifiable(kids: Kids, names: Names, parent: Parents, refs: set<FidRef>, want: map<File, seq<string>>,
                        top: PathNode, p: seq<string>, pn: PathNode, x: string)
    requires Closed(kids) && SingleParent(kids) && Top(kids, top) && From(kids, top, p) == pn && pn in kids
    requires x in kids[pn]
    requires Notifiable(kids, names, parent, refs, want, pn)
    ensures Notifiable(kids, names, parent, refs, want, kids[pn][x])
    ensures forall y | Listed(names, kids[pn][x], y) ::
              Par(parent, y) != null && Listed(names, pn, Par(parent, y)) && kids[pn][x] in Below(kids, pn)
  {
    hide From, Below, Hears;
    ChildSmaller(kids, top, p, x);
    BelowSelf(kids, kids[pn][x]);
    var c := kids[pn][x];
    forall y | Listed(names, c, y)
      ensures Par(parent, y) != null && Listed(names, pn, Par(parent, y))
    {
      assert Chained(kids, names, parent, c, y);
      var g := Par(parent, Par(parent, y));
      assert Hangs(kids, pn, x, c);
      OneEdge(kids, pn, x, g.node, names[g.node][Par(parent, y)], c);
    }
  }

  lemma BelowKnown(kids: Kids, n: PathNode)
    ensures forall m | m in Below(kids, n) :: m in kids
  {
  }

  lemma ChildIn(kids: Kids, n: PathNode, x: string)
    requires Closed(kids) && n in kids && x in kids[n]
    ensures kids[n][x] in kids
  {
  }
}
