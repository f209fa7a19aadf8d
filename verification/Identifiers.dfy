/** File identifiers: mappers that share one path generator, and the combination of device and inode numbers. */
module Identifiers {
  import opened Options
  import opened Wire

  // ---- QID mappers ---------------------------------------------------------------------------

  class PathGenerator {
    var uids: u64

    constructor ()
      ensures uids == 0
    {
      uids := 0;
    }

    method NewPath() returns (p: u64)
      modifies this
      ensures p == uids == (old(uids) + 1) % 0x1_0000_0000_0000_0000
    {
      uids := (uids + 1) % 0x1_0000_0000_0000_0000;
      p := uids;
    }
  }

  class Mapper {
    const g: PathGenerator
    var paths: map<u64, u64>

    constructor (g: PathGenerator)
      ensures this.g == g && paths == map[]
    {
      this.g, paths := g, map[];
    }

    /** Type and version are kept; the path is the one given before, or a new one. */
    method QidFor(q: Qid) returns (r: Qid)
      modifies this`paths, g
      ensures r.kind == q.kind && r.version == q.version
      ensures (r.path, g.uids, paths) == Mapped(old(g.uids), old(paths), q.path)
    {
      if q.path in paths { return Qid(q.kind, q.version, paths[q.path]); }
      var path := g.NewPath();
      paths := paths[q.path := path];
      r := Qid(q.kind, q.version, path);
    }
  }

  function Mapped(uids: u64, paths: map<u64, u64>, path: u64): (u64, u64, map<u64, u64>)
  {
    if path in paths then (paths[path], uids, paths)
    else
      var p := (uids + 1) % 0x1_0000_0000_0000_0000;
      (p, p, paths[path := p])
  }

  /** Mappers on one generator. */
  datatype Mappers = Mappers(uids: u64, maps: seq<map<u64, u64>>)

  datatype Call = Call(mapper: nat, path: u64)

  function Apply(s: Mappers, c: Call): (u64, Mappers)
    requires c.mapper < |s.maps|
  {
    var (p, uids, paths) := Mapped(s.uids, s.maps[c.mapper], c.path);
    (p, Mappers(uids, s.maps[c.mapper := paths]))
  }

  /** Every path given out is positive, not above the counter, and given to one key of one mapper. */
  ghost predicate Distinct(s: Mappers)
  {
    && (forall i, k | 0 <= i < |s.maps| && k in s.maps[i] :: 0 < s.maps[i][k] <= s.uids)
    && (forall i, k, j, l | 0 <= i < |s.maps| && 0 <= j < |s.maps| && k in s.maps[i] && l in s.maps[j]
        && s.maps[i][k] == s.maps[j][l] :: i == j && k == l)
  }

  /** `t` gives every path that `s` gave. */
  ghost predicate Keeps(s: Mappers, t: Mappers)
  {
    |s.maps| == |t.maps| && s.uids <= t.uids && forall i, k | 0 <= i < |s.maps| && k in s.maps[i] ::
        k in t.maps[i] && t.maps[i][k] == s.maps[i][k]
  }

  lemma CallKeeps(s: Mappers, c: Call)
    requires Distinct(s) && c.mapper < |s.maps| && s.uids < 0xFFFF_FFFF_FFFF_FFFF
    ensures var (p, t) := Apply(s, c);
            Distinct(t) && Keeps(s, t) && t.uids <= s.uids + 1 && c.path in t.maps[c.mapper]
              && t.maps[c.mapper][c.path] == p
  {
    hide Distinct, Keeps;
    var (p, t) := Apply(s, c);
    if c.path in s.maps[c.mapper] {
      assert s.maps[c.mapper := s.maps[c.mapper]] == s.maps;
      assert Keeps(s, s) by { Same(s); }
    } else {
      Small(s.uids + 1);
      NewKeeps(s, c.mapper, c.path, s.uids + 1);
    }
  }

  lemma Same(s: Mappers)
    ensures Keeps(s, s)
  {
  }

  lemma Small(n: nat)
    requires n < 0x1_0000_0000_0000_0000
    ensures n % 0x1_0000_0000_0000_0000 == n
  {
  }

  lemma NewKeeps(s: Mappers, m: nat, path: u64, p: u64)
    requires Distinct(s) && m < |s.maps| && path !in s.maps[m] && p == s.uids + 1
    ensures var t := With(s, m, path, p); Distinct(t) && Keeps(s, t)
  {
    var t := With(s, m, path, p);
    forall i, k | 0 <= i < |t.maps| && k in t.maps[i]
      ensures if i == m && k == path then t.maps[i][k] == p else k in s.maps[i] && t.maps[i][k] == s.maps[i][k]
    {
    }
  }

  function With(s: Mappers, m: nat, path: u64, p: u64): Mappers
    requires m < |s.maps|
  {
    var paths: map<u64, u64> := s.maps[m][path := p];
    Mappers(p, s.maps[m := paths])
  }

  function Run(s: Mappers, calls: seq<Call>): (seq<u64>, Mappers)
    requires forall c | c in calls :: c.mapper < |s.maps|
    decreases |calls|
  {
    if calls == [] then ([], s)
    else
      var (p, t) := Apply(s, calls[0]);
      var (ps, end) := Run(t, calls[1..]);
      ([p] + ps, end)
  }

  lemma {:induction false} RunKeeps(s: Mappers, calls: seq<Call>)
    requires Distinct(s) && (forall c | c in calls :: c.mapper < |s.maps|) && s.uids + |calls| <= 0xFFFF_FFFF_FFFF_FFFF
    ensures var (ps, t) := Run(s, calls);
            && |ps| == |calls| && Distinct(t) && Keeps(s, t)
            && forall i | 0 <= i < |calls| ::
                 calls[i].path in t.maps[calls[i].mapper] && t.maps[calls[i].mapper][calls[i].path] == ps[i]
    decreases |calls|
  {
    hide Distinct;
    if calls != [] {
      CallKeeps(s, calls[0]);
      var (p, t) := Apply(s, calls[0]);
      RunKeeps(t, calls[1..]);
      var (ps, end) := Run(t, calls[1..]);
      forall i | 0 <= i < |calls| ensures calls[i].path in end.maps[calls[i].mapper]
        && end.maps[calls[i].mapper][calls[i].path] == ([p] + ps)[i] {
        if i > 0 { assert calls[i] == calls[1..][i - 1]; }
      }
    }
  }

  /** Over any interleaving of calls, two calls get the same path just when they ask the same mapper for the same
      path; and none is 0. */
  lemma SamePathSameFile(mappers: nat, calls: seq<Call>, i: nat, j: nat)
    requires (forall c | c in calls :: c.mapper < mappers) && i < |calls| && j < |calls|
    requires |calls| <= 0xFFFF_FFFF_FFFF_FFFF
    ensures var s := Mappers(0, seq(mappers, _ => map[]));
            var ps := Run(s, calls).0;
            |ps| == |calls| && ps[i] > 0 && (ps[i] == ps[j] <==> calls[i] == calls[j])
  {
    RunKeeps(Mappers(0, seq(mappers, _ => map[])), calls);
  }

  // ---- device and inode --------------------------------------------------------------------------

  const INODE := 0x80_0000_0000       // 2^39
  const MINOR := 0x1000               // 2^12
  const MAJOR := 0x1000               // 2^12
  const FALLBACK := 0x8000_0000_0000_0000   // 2^63

  type Numbering = u64 -> nat

  /** Devices below 2^32 are told apart by their major and minor numbers. */
  ghost predicate TellsApart(major: Numbering, minor: Numbering)
  {
    forall d: u64, e: u64 :: d < 0x1_0000_0000 && e < 0x1_0000_0000 && major(d) == major(e) && minor(d) == minor(e) ==>
        d == e
  }

  // The bit operations of encodeLikely on unsigned numbers, bit by bit.

  function Pow2(n: nat): (p: nat)
    ensures p > 0
  {
    if n == 0 then 1 else 2 * Pow2(n - 1)
  }

  function Or(a: nat, b: nat): nat
  {
    if a == 0 && b == 0 then 0 else (if a % 2 == 1 || b % 2 == 1 then 1 else 0) + 2 * Or(a / 2, b / 2)
  }

  function And(a: nat, b: nat): nat
  {
    if a == 0 then 0 else (if a % 2 == 1 && b % 2 == 1 then 1 else 0) + 2 * And(a / 2, b / 2)
  }

  function AndNot(a: nat, b: nat): nat
  {
    if a == 0 then 0 else (if a % 2 == 1 && b % 2 == 0 then 1 else 0) + 2 * AndNot(a / 2, b / 2)
  }

  function Shift(a: nat, n: nat): nat
  {
    a * Pow2(n) % Pow2(64)
  }

  function Ones(n: nat): nat
  {
    Pow2(n) - 1
  }

  /** encodeLikely: inode, minor and major side by side, if each fits its bits. */
  function EncodeLikely(major: Numbering, minor: Numbering, dev: u64, ino: u64): Option<nat>
  {
    if AndNot(ino, Ones(39)) != 0 || And(dev, Shift(Ones(32), 32)) != 0 then None
    else if major(dev) > Ones(12) || minor(dev) > Ones(12) then None
    else Some(Or(Or(And(ino, Ones(39)), Shift(minor(dev), 39)), Shift(major(dev), 51)))
  }

  lemma HalfProduct(b: nat, n: nat)
    requires n > 0
    ensures b * Pow2(n) == 2 * (b * Pow2(n - 1)) && b * Pow2(n) / 2 == b * Pow2(n - 1) && b * Pow2(n) % 2 == 0
  {
  }

  lemma {:induction false} OrNothing(b: nat)
    ensures Or(0, b) == b
  {
    if b > 0 { OrNothing(b / 2); }
  }

  /** Numbers whose bits do not meet are added by or. */
  lemma {:induction false} OrIsSum(a: nat, b: nat, n: nat)
    requires a < Pow2(n)
    ensures Or(a, b * Pow2(n)) == a + b * Pow2(n)
    decreases n
  {
    if n == 0 {
      OrNothing(b);
    } else {
      HalfProduct(b, n);
      OrIsSum(a / 2, b, n - 1);
    }
  }

  lemma {:induction false} Doubles(n: nat)
    requires n > 0
    ensures Pow2(n) == 2 * Pow2(n - 1)
  {
  }

  lemma {:induction false} OnesHalf(n: nat)
    requires n > 0
    ensures Ones(n) % 2 == 1 && Ones(n) / 2 == Ones(n - 1) && Pow2(n) == 2 * Pow2(n - 1)
  {
    hide Pow2;
    Doubles(n);
  }

  lemma {:induction false} AndOnes(a: nat, n: nat)
    ensures And(a, Ones(n)) == a % Pow2(n) && AndNot(a, Ones(n)) == a - a % Pow2(n)
    decreases n
  {
    if n == 0 {
      AndNone(a);
    } else {
      hide Pow2, Ones;
      OnesHalf(n);
      AndOnes(a / 2, n - 1);
      HalfRemainder(a, Pow2(n - 1));
      if a == 0 { assert 0 % Pow2(n) == 0; }
    }
  }

  lemma {:induction false} AndNone(a: nat)
    ensures And(a, 0) == 0 && AndNot(a, 0) == a
  {
    if a > 0 { AndNone(a / 2); }
  }

  lemma HalfRemainder(a: nat, m: nat)
    requires m > 0
    ensures a % (2 * m) == a % 2 + 2 * (a / 2 % m)
  {
    var q, r := a / 2 / m, a / 2 % m;
    assert a == a % 2 + 2 * (q * m + r);
    assert a == (2 * m) * q + (a % 2 + 2 * r);
    Quotient(a, 2 * m, q, a % 2 + 2 * r);
  }

  lemma Quotient(a: nat, d: nat, q: nat, r: nat)
    requires r < d && a == d * q + r
    ensures a % d == r
  {
    var e: int := a / d - q;
    assert d * e == r - a % d;
    Multiples(d, e);
  }

  lemma Multiples(d: int, e: int)
    requires d > 0
    ensures (e >= 1 ==> d * e >= d) && (e <= -1 ==> d * e <= -d)
  {
  }

  lemma Below(a: nat, m: nat)
    requires a < m
    ensures a % m == a
  {
  }

  lemma {:induction false} AndEven(a: nat, m: nat)
    ensures And(a, 2 * m) == 2 * And(a / 2, m)
  {
    assert 2 * m % 2 == 0 && 2 * m / 2 == m;
  }

  lemma One()
    ensures Pow2(0) == 1
  {
  }

  /** `k` ones above `n` zeros. */
  function HighOnes(k: nat, n: nat): nat
  {
    if n == 0 then Ones(k) else 2 * HighOnes(k, n - 1)
  }

  lemma {:induction false} HighOnesIs(k: nat, n: nat)
    ensures HighOnes(k, n) == Ones(k) * Pow2(n)
  {
    if n > 0 {
      HighOnesIs(k, n - 1);
      HalfProduct(Ones(k), n);
    }
  }

  lemma {:induction false} AndHigh(a: nat, k: nat, n: nat)
    requires a < Pow2(k + n)
    ensures And(a, HighOnes(k, n)) == 0 <==> a < Pow2(n)
    decreases n
  {
    hide Pow2, Ones, And;
    if n == 0 {
      AndOnes(a, k);
      Below(a, Pow2(k));
      One();
    } else {
      Doubles(k + n);
      Doubles(n);
      AndHigh(a / 2, k, n - 1);
      AndEven(a, HighOnes(k, n - 1));
    }
  }

  lemma Powers()
    ensures Pow2(12) == MINOR == MAJOR && Pow2(32) == 0x1_0000_0000 && Pow2(39) == INODE
    ensures Pow2(51) == INODE * MINOR && Pow2(64) == 0x1_0000_0000_0000_0000
  {
    assert Pow2(8) == 256;
    assert Pow2(16) == 0x1_0000;
    assert Pow2(24) == 0x100_0000;
    assert Pow2(32) == 0x1_0000_0000;
    assert Pow2(39) == INODE;
    assert Pow2(45) == 64 * INODE;
    assert Pow2(51) == INODE * MINOR;
    assert Pow2(58) == 128 * (INODE * MINOR);
  }

  /** What the bit operations compute: three numbers side by side, each below its limit. */
  lemma EncodesAs(major: Numbering, minor: Numbering, dev: u64, ino: u64)
    ensures EncodeLikely(major, minor, dev, ino)
            == if ino >= INODE || dev >= 0x1_0000_0000 || major(dev) >= MAJOR || minor(dev) >= MINOR then None
               else Some(ino + minor(dev) * INODE + major(dev) * (INODE * MINOR))
  {
    hide Pow2, Or, And, AndNot;
    Powers();
    AndOnes(ino, 39);
    HighOnesIs(32, 32);
    AndHigh(dev, 32, 32);
    if ino < INODE && minor(dev) < MINOR && major(dev) < MAJOR {
      OrIsSum(ino, minor(dev), 39);
      OrIsSum(ino + minor(dev) * INODE, major(dev), 51);
    }
  }

  lemma TakenApart(a: nat, b: nat, c: nat, a': nat, b': nat, c': nat)
    requires a < INODE && a' < INODE && b < MINOR && b' < MINOR
    requires a + b * INODE + c * (INODE * MINOR) == a' + b' * INODE + c' * (INODE * MINOR)
    ensures a == a' && b == b' && c == c'
  {
  }

  /** Accepted pairs have distinct encodings, all below every fallback number. */
  lemma LikelyInjective(major: Numbering, minor: Numbering, dev: u64, ino: u64, dev': u64, ino': u64)
    requires TellsApart(major, minor)
    requires EncodeLikely(major, minor, dev, ino).Some? && EncodeLikely(major, minor, dev', ino').Some?
    ensures EncodeLikely(major, minor, dev, ino).value < FALLBACK
    ensures EncodeLikely(major, minor, dev, ino) == EncodeLikely(major, minor, dev', ino') <==>
              dev == dev' && ino == ino'
  {
    hide EncodeLikely;
    EncodesAs(major, minor, dev, ino);
    EncodesAs(major, minor, dev', ino');
    if EncodeLikely(major, minor, dev, ino) == EncodeLikely(major, minor, dev', ino') {
      TakenApart(ino, minor(dev), major(dev), ino', minor(dev'), major(dev'));
    }
  }

  class DevIno {
    const dev: u64
    const ino: u64

    constructor (dev: u64, ino: u64)
      ensures this.dev == dev && this.ino == ino
    {
      this.dev, this.ino := dev, ino;
    }
  }

  /** The numbers handed out for the pairs that do not fit. The table is keyed by object, so it never recognises a
      pair again. */
  class Fallbacks {
    var table: map<DevIno, u64>
    var next: u64

    constructor ()
      ensures table == map[] && next == FALLBACK
    {
      table, next := map[], FALLBACK;
    }

    method LocalToQid(major: Numbering, minor: Numbering, dev: u64, ino: u64) returns (q: nat)
      requires FALLBACK <= next < 0xFFFF_FFFF_FFFF_FFFF
      modifies this
      ensures var e := EncodeLikely(major, minor, dev, ino);
              if e.Some? then q == e.value && next == old(next) else q == next == old(next) + 1
    {
      var e := EncodeLikely(major, minor, dev, ino);
      if e.Some? { return e.value; }
      // The key is a new object, which no earlier call can have stored: neither lookup ever hits.
      var di := new DevIno(dev, ino);
      next := next + 1;
      table := map[di := next] + table;
      q := table[di];
    }
  }

  datatype File = File(dev: u64, ino: u64)

  /** The numbers a run of calls returns, starting from the counter `next`. */
  function Numbers(major: Numbering, minor: Numbering, next: nat, files: seq<File>): seq<nat>
    decreases |files|
  {
    if files == [] then []
    else
      var e := EncodeLikely(major, minor, files[0].dev, files[0].ino);
      if e.Some? then [e.value] + Numbers(major, minor, next, files[1..])
      else [next + 1] + Numbers(major, minor, next + 1, files[1..])
  }

  lemma {:induction false} NumberOf(major: Numbering, minor: Numbering, next: nat, files: seq<File>, i: nat)
    requires next >= FALLBACK && i < |files| && TellsApart(major, minor)
    ensures |Numbers(major, minor, next, files)| == |files|
    ensures var e := EncodeLikely(major, minor, files[i].dev, files[i].ino);
            var q := Numbers(major, minor, next, files)[i];
            if e.Some? then q == e.value < FALLBACK else q > next
    decreases |files|
  {
    hide EncodeLikely;
    var e := EncodeLikely(major, minor, files[0].dev, files[0].ino);
    if e.Some? { LikelyInjective(major, minor, files[0].dev, files[0].ino, files[0].dev, files[0].ino); }
    var rest := if e.Some? then next else next + 1;
    if i > 0 { NumberOf(major, minor, rest, files[1..], i - 1); }
    else if |files| > 1 { NumberOf(major, minor, rest, files[1..], 0); }
  }

  /** Different files never get the same number; the same file gets the same number again exactly when it is a likely
      one. */
  lemma {:induction false} NumbersApart(major: Numbering, minor: Numbering, next: nat, files: seq<File>, i: nat, j: nat)
    requires next >= FALLBACK && i < j < |files| && TellsApart(major, minor)
    ensures |Numbers(major, minor, next, files)| == |files|
    ensures Numbers(major, minor, next, files)[i] == Numbers(major, minor, next, files)[j]
            <==> files[i] == files[j] && EncodeLikely(major, minor, files[i].dev, files[i].ino).Some?
    decreases |files|
  {
    hide TellsApart, EncodeLikely;
    var e := EncodeLikely(major, minor, files[0].dev, files[0].ino);
    var rest := if e.Some? then next else next + 1;
    NumberOf(major, minor, next, files, i);
    NumberOf(major, minor, next, files, j);
    if i > 0 {
      NumbersApart(major, minor, rest, files[1..], i - 1, j - 1);
    } else {
      NumberOf(major, minor, rest, files[1..], j - 1);
      var f := EncodeLikely(major, minor, files[j].dev, files[j].ino);
      if e.Some? && f.Some? { LikelyInjective(major, minor, files[0].dev, files[0].ino, files[j].dev, files[j].ino); }
    }
  }
}
