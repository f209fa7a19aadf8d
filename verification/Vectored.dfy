/** Scatter reads: the recvmsg loop that consumes its buffer list, and the plain loop it must agree with. */
module Vectored {
  import opened Options
  import opened Wire

  /** The part of an array from `lo` on. */
  datatype Slice = Slice(a: array<byte>, lo: nat)

  /** What a set of arrays holds. */
  type Memory = map<array<byte>, Bytes>

  ghost function Holds(all: set<array<byte>>): Memory
    reads all
  {
    map a | a in all :: a[..]
  }

  ghost predicate Proper(bufs: seq<Slice>)
  {
    && (forall i | 0 <= i < |bufs| :: bufs[i].lo <= bufs[i].a.Length)
    && (forall i, j | 0 <= i < j < |bufs| :: bufs[i].a != bufs[j].a)
  }

  ghost predicate Within(bufs: seq<Slice>, mem: Memory)
  {
    forall s | s in bufs :: s.a in mem && |mem[s.a]| == s.a.Length && s.lo <= s.a.Length
  }

  ghost function Arrays(bufs: seq<Slice>): set<array<byte>>
  {
    set s | s in bufs :: s.a
  }

  function Length(bufs: seq<Slice>): (n: int)
  {
    if bufs == [] then 0 else bufs[0].a.Length - bufs[0].lo + Length(bufs[1..])
  }

  /** The bytes the buffers hold, one after the other. */
  ghost function Flat(mem: Memory, bufs: seq<Slice>): (bs: Bytes)
    requires Within(bufs, mem)
    ensures |bs| == Length(bufs)
  {
    if bufs == [] then [] else mem[bufs[0].a][bufs[0].lo..] + Flat(mem, bufs[1..])
  }

  /** What is left of the buffers once `n` bytes are in. */
  function Advance(bufs: seq<Slice>, n: nat): (r: seq<Slice>)
    decreases |bufs|
  {
    if n == 0 || bufs == [] then bufs
    else
      var len := bufs[0].a.Length - bufs[0].lo;
      if 0 <= len <= n then Advance(bufs[1..], n - len) else [Slice(bufs[0].a, bufs[0].lo + n)] + bufs[1..]
  }

  lemma ProperTail(bufs: seq<Slice>)
    requires Proper(bufs) && bufs != []
    ensures Proper(bufs[1..]) && forall s | s in bufs[1..] :: s.a != bufs[0].a
  {
    forall s | s in bufs[1..] ensures s.a != bufs[0].a {
      var i :| 0 <= i < |bufs[1..]| && bufs[1..][i] == s;
      assert bufs[i + 1] == s;
    }
  }

  lemma {:induction false} Advanced(mem: Memory, bufs: seq<Slice>, n: nat)
    requires Proper(bufs) && Within(bufs, mem) && n <= Length(bufs)
    ensures var r := Advance(bufs, n);
            Proper(r) && Within(r, mem) && Length(r) == Length(bufs) - n && Flat(mem, r) == Flat(mem, bufs)[n..]
    decreases |bufs|
  {
    hide Flat, Proper, Within;
    if n > 0 && bufs != [] {
      ProperTail(bufs);
      WithinTail(bufs, mem);
      var b, len := bufs[0], bufs[0].a.Length - bufs[0].lo;
      if len <= n {
        FlatStep(mem, bufs);
        Advanced(mem, bufs[1..], n - len);
        Split(mem[b.a][b.lo..], Flat(mem, bufs[1..]), n);
      } else {
        AdvancedHead(mem, bufs, n);
      }
    }
  }

  lemma WithinTail(bufs: seq<Slice>, mem: Memory)
    requires Within(bufs, mem) && bufs != []
    ensures Within(bufs[1..], mem) && bufs[0].a in mem && |mem[bufs[0].a]| == bufs[0].a.Length
    ensures bufs[0].lo <= bufs[0].a.Length
  {
  }

  lemma {:induction false} AdvanceArrays(bufs: seq<Slice>, n: nat)
    ensures forall s | s in Advance(bufs, n) :: s.a in Arrays(bufs)
    decreases |bufs|
  {
    if n > 0 && bufs != [] {
      var len := bufs[0].a.Length - bufs[0].lo;
      assert bufs[0] in bufs && forall t | t in bufs[1..] :: t in bufs;
      if 0 <= len <= n { AdvanceArrays(bufs[1..], n - len); }
    }
  }

  lemma FlatStep(mem: Memory, bufs: seq<Slice>)
    requires Within(bufs, mem) && bufs != []
    ensures Flat(mem, bufs) == mem[bufs[0].a][bufs[0].lo..] + Flat(mem, bufs[1..])
    ensures Length(bufs) == bufs[0].a.Length - bufs[0].lo + Length(bufs[1..])
  {
  }

  lemma AdvancedHead(mem: Memory, bufs: seq<Slice>, n: nat)
    requires Proper(bufs) && Within(bufs, mem) && bufs != [] && 0 < n < bufs[0].a.Length - bufs[0].lo
    ensures var r := Advance(bufs, n);
            Proper(r) && Within(r, mem) && Length(r) == Length(bufs) - n && Flat(mem, r) == Flat(mem, bufs)[n..]
  {
    hide Advance, Flat, Length, Proper;
    var r := TrimmedHead(bufs, n);
    assert r[1..] == bufs[1..];
    assert Within(r, mem) by { WithinTail(bufs, mem); }
    FlatStep(mem, r);
    FlatStep(mem, bufs);
    FlatHead(mem, bufs, n);
  }

  lemma TrimmedHead(bufs: seq<Slice>, n: nat) returns (r: seq<Slice>)
    requires Proper(bufs) && bufs != [] && 0 < n < bufs[0].a.Length - bufs[0].lo
    ensures r == Advance(bufs, n) && r == [Slice(bufs[0].a, bufs[0].lo + n)] + bufs[1..] && Proper(r)
  {
    r := Advance(bufs, n);
    assert forall i | 0 <= i < |r| :: r[i].a == bufs[i].a;
  }

  lemma FlatHead(mem: Memory, bufs: seq<Slice>, n: nat)
    requires Within(bufs, mem) && bufs != [] && 0 < n < bufs[0].a.Length - bufs[0].lo
    ensures mem[bufs[0].a][bufs[0].lo + n..] + Flat(mem, bufs[1..]) == Flat(mem, bufs)[n..]
  {
    Split(mem[bufs[0].a][bufs[0].lo..], Flat(mem, bufs[1..]), n);
    assert mem[bufs[0].a][bufs[0].lo..][n..] == mem[bufs[0].a][bufs[0].lo + n..];
  }

  lemma Split(x: Bytes, y: Bytes, n: nat)
    requires n <= |x| + |y|
    ensures if n <= |x| then (x + y)[n..] == x[n..] + y && (x + y)[..n] == x[..n] else (x + y)[..n] == x + y[..n - |x|]
    ensures n >= |x| ==> (x + y)[n..] == y[n - |x|..]
  {
  }

  /** Memory changes in these buffers only. */
  ghost predicate Touched(mem: Memory, mem': Memory, bufs: seq<Slice>)
  {
    && (forall a | a in mem ::
          a in mem' && |mem'[a]| == |mem[a]| && ((forall t | t in bufs :: t.a != a) ==> mem'[a] == mem[a]))
    && (forall t | t in bufs ::
          t.a in mem && t.a in mem' && t.lo <= |mem[t.a]| && t.lo <= |mem'[t.a]|
          && mem'[t.a][..t.lo] == mem[t.a][..t.lo])
  }

  /** Writing into what is left does not touch what is in. */
  lemma {:induction false} HeadKept(mem: Memory, mem': Memory, bufs: seq<Slice>, n: nat)
    requires Proper(bufs) && Within(bufs, mem) && Within(bufs, mem') && n <= Length(bufs)
    requires Touched(mem, mem', Advance(bufs, n))
    ensures Flat(mem', bufs)[..n] == Flat(mem, bufs)[..n]
    decreases |bufs|
  {
    hide Flat, Touched, Proper, Within;
    if n == 0 || bufs == [] { return; }
    ProperTail(bufs);
    WithinTail(bufs, mem);
    WithinTail(bufs, mem');
    FlatStep(mem, bufs);
    FlatStep(mem', bufs);
    var b, len := bufs[0], bufs[0].a.Length - bufs[0].lo;
    var x, x' := mem[b.a][b.lo..], mem'[b.a][b.lo..];
    Split(x, Flat(mem, bufs[1..]), n);
    Split(x', Flat(mem', bufs[1..]), n);
    if len <= n {
      AdvanceArrays(bufs[1..], n - len);
      Untouched(mem, mem', Advance(bufs[1..], n - len), b.a);
      HeadKept(mem, mem', bufs[1..], n - len);
      if n == len { assert x[..n] == x && x'[..n] == x'; }
    } else {
      var r := TrimmedHead(bufs, n);
      TouchedAfter(mem, mem', r);
      HeadSame(mem[b.a], mem'[b.a], b.lo, n);
    }
  }

  lemma Untouched(mem: Memory, mem': Memory, bufs: seq<Slice>, a: array<byte>)
    requires Touched(mem, mem', bufs) && a in mem && forall t | t in bufs :: t.a != a
    ensures a in mem' && mem'[a] == mem[a]
  {
  }

  lemma TouchedAfter(mem: Memory, mem': Memory, bufs: seq<Slice>)
    requires Touched(mem, mem', bufs) && bufs != []
    ensures var t := bufs[0];
            t.a in mem && t.a in mem' && t.lo <= |mem[t.a]| && t.lo <= |mem'[t.a]|
            && mem'[t.a][..t.lo] == mem[t.a][..t.lo]
  {
  }

  lemma HeadSame(m: Bytes, m': Bytes, lo: nat, n: nat)
    requires lo + n <= |m| && lo + n <= |m'| && m'[..lo + n] == m[..lo + n]
    ensures m'[lo..][..n] == m[lo..][..n]
  {
    assert m[lo..][..n] == m[..lo + n][lo..] && m'[lo..][..n] == m'[..lo + n][lo..];
  }

  // ---- the kernel ---------------------------------------------------------------------------

  /** Memory that agrees on the buffers gives the same bytes. */
  lemma {:induction false} FlatSame(mem: Memory, mem': Memory, bufs: seq<Slice>)
    requires Within(bufs, mem) && Within(bufs, mem') && forall s | s in bufs :: mem'[s.a] == mem[s.a]
    ensures Flat(mem', bufs) == Flat(mem, bufs)
  {
    if bufs != [] { FlatSame(mem, mem', bufs[1..]); }
  }

  method Fill(s: Slice, bs: Bytes)
    requires s.lo + |bs| <= s.a.Length
    modifies s.a
    ensures s.a[..] == old(s.a[..s.lo]) + bs + old(s.a[s.lo + |bs|..])
  {
    var i := 0;
    while i < |bs|
      invariant 0 <= i <= |bs|
      invariant s.a[..] == old(s.a[..s.lo]) + bs[..i] + old(s.a[s.lo + i..])
    {
      s.a[s.lo + i] := bs[i];
      i := i + 1;
    }
    assert bs[..|bs|] == bs;
  }

  /** The first buffer's share; the other buffers hold what they held. */
  method FillHead(bufs: seq<Slice>, bs: Bytes, ghost all: set<array<byte>>)
    requires Proper(bufs) && Arrays(bufs) <= all && bufs != [] && |bs| <= bufs[0].a.Length - bufs[0].lo
    modifies bufs[0].a
    ensures var b := bufs[0]; b.a[..] == old(b.a[..b.lo]) + bs + old(b.a[b.lo + |bs|..])
    ensures Within(bufs[1..], Holds(all)) && Within(bufs[1..], old(Holds(all)))
    ensures Flat(Holds(all), bufs[1..]) == old(Flat(Holds(all), bufs[1..]))
  {
    hide Flat, Proper, Within, Arrays;
    ghost var mem := Holds(all);
    ProperTail(bufs);
    ArraysTail(bufs);
    HoldsWithin(bufs[1..], all);
    Fill(bufs[0], bs);
    HoldsWithin(bufs[1..], all);
    FlatSame(mem, Holds(all), bufs[1..]);
  }

  /** Incoming bytes go to the buffers in order. */
  method {:induction false} Scatter(bufs: seq<Slice>, bs: Bytes, ghost all: set<array<byte>>)
    requires Proper(bufs) && Arrays(bufs) <= all && |bs| <= Length(bufs)
    modifies Arrays(bufs)
    ensures Within(bufs, Holds(all)) && Within(bufs, old(Holds(all)))
    ensures Flat(Holds(all), bufs) == bs + old(Flat(Holds(all), bufs))[|bs|..]
    ensures forall s | s in bufs :: s.a[..s.lo] == old(s.a[..s.lo])
    decreases |bufs|
  {
    hide Flat, Proper, Within, Arrays;
    ghost var mem := Holds(all);
    HoldsWithin(bufs, all);
    if bs == [] { return; }
    LengthSome(bufs);
    var len := bufs[0].a.Length - bufs[0].lo;
    var k := if len < |bs| then len else |bs|;
    ProperTail(bufs);
    ArraysTail(bufs);
    WithinTail(bufs, mem);
    FlatStep(mem, bufs);
    FillHead(bufs, bs[..k], all);
    Scatter(bufs[1..], bs[k..], all);
    HoldsWithin(bufs, all);
    Joined(mem, Holds(all), bufs, bs, k);
    HeadIntact(mem[bufs[0].a], bufs[0].lo, bs[..k]);
  }

  lemma HoldsWithin(bufs: seq<Slice>, all: set<array<byte>>)
    requires Proper(bufs) && Arrays(bufs) <= all
    ensures Within(bufs, Holds(all)) && forall s | s in bufs :: s.a in Arrays(bufs)
  {
  }

  lemma LengthSome(bufs: seq<Slice>)
    requires Length(bufs) > 0
    ensures bufs != []
  {
  }

  lemma ArraysTail(bufs: seq<Slice>)
    requires bufs != []
    ensures Arrays(bufs) == Arrays(bufs[1..]) + {bufs[0].a}
    ensures (forall s | s in bufs[1..] :: s.a != bufs[0].a) ==> bufs[0].a !in Arrays(bufs[1..])
  {
    assert bufs == [bufs[0]] + bufs[1..];
  }

  lemma Joined(mem: Memory, mem': Memory, bufs: seq<Slice>, bs: Bytes, k: nat)
    requires bufs != [] && Within(bufs, mem) && Within(bufs, mem') && |bs| <= Length(bufs)
    requires k == (if bufs[0].a.Length - bufs[0].lo < |bs| then bufs[0].a.Length - bufs[0].lo else |bs|)
    requires var b := bufs[0]; mem'[b.a] == mem[b.a][..b.lo] + bs[..k] + mem[b.a][b.lo + k..]
    requires Flat(mem', bufs[1..]) == bs[k..] + Flat(mem, bufs[1..])[|bs| - k..]
    ensures Flat(mem', bufs) == bs + Flat(mem, bufs)[|bs|..]
  {
    hide Flat;
    FlatStep(mem, bufs);
    FlatStep(mem', bufs);
    Scattered(mem[bufs[0].a], bufs[0].lo, bs, k, Flat(mem, bufs[1..]));
  }

  lemma HeadIntact(m: Bytes, lo: nat, bs: Bytes)
    requires lo + |bs| <= |m|
    ensures (m[..lo] + bs + m[lo + |bs|..])[..lo] == m[..lo]
  {
  }

  lemma Scattered(m: Bytes, lo: nat, bs: Bytes, k: nat, rest: Bytes)
    requires lo <= |m| && |bs| <= |m| - lo + |rest| && k == if |m| - lo < |bs| then |m| - lo else |bs|
    ensures (m[..lo] + bs[..k] + m[lo + k..])[lo..] + (bs[k..] + rest[|bs| - k..]) == bs + (m[lo..] + rest)[|bs|..]
  {
  }

  datatype Error = Eof | Errno(e: nat)

  /** How the kernel answers one read: with at most so many of the bytes that have arrived, or with an error. */
  datatype Answer = Chunk(k: nat) | Fault(e: nat)

  /** A connection: the bytes to come and how the kernel will hand them out. */
  class Socket {
    var incoming: Bytes
    var answers: seq<Answer>

    constructor (incoming: Bytes, answers: seq<Answer>)
      ensures this.incoming == incoming && this.answers == answers
    {
      this.incoming, this.answers := incoming, answers;
    }

    /** recvmsg, and also a plain Read of one buffer: a prefix of what is to come, or an error and nothing. */
    method Receive(bufs: seq<Slice>, ghost all: set<array<byte>>) returns (cur: nat, err: Option<Error>)
      requires Proper(bufs) && Arrays(bufs) <= all && Length(bufs) > 0
      modifies this, Arrays(bufs)
      ensures Within(bufs, Holds(all)) && Within(bufs, old(Holds(all)))
      ensures cur <= Length(bufs) && cur <= |old(incoming)| && incoming == old(incoming)[cur..]
      ensures (err.None? <==> cur > 0)
      ensures Flat(Holds(all), bufs) == old(incoming)[..cur] + old(Flat(Holds(all), bufs))[cur..]
      ensures Touched(old(Holds(all)), Holds(all), bufs)
    {
      hide Flat;
      assert forall s | s in bufs :: s.a in Arrays(bufs);
      if answers == [] || incoming == [] || answers[0] == Chunk(0) { return 0, Some(Eof); }
      var answer := answers[0];
      answers := answers[1..];
      if answer.Fault? { return 0, Some(Errno(answer.e)); }
      cur := answer.k;
      if cur > |incoming| { cur := |incoming|; }
      if cur > Length(bufs) { cur := Length(bufs); }
      Scatter(bufs, incoming[..cur], all);
      incoming := incoming[cur..];
      err := None;
    }
  }

  // ---- the two loops --------------------------------------------------------------------------

  lemma {:induction false} AdvanceMore(bufs: seq<Slice>, n: nat, m: nat)
    requires Proper(bufs) && n + m <= Length(bufs) && m > 0
    ensures Advance(Advance(bufs, n), m) == Advance(bufs, n + m)
    decreases |bufs|
  {
    if n > 0 && bufs != [] {
      ProperTail(bufs);
      var len := bufs[0].a.Length - bufs[0].lo;
      if len <= n {
        AdvanceMore(bufs[1..], n - len, m);
      } else {
        var r := TrimmedHead(bufs, n);
        assert r[1..] == bufs[1..];
      }
    }
  }

  /** One more read extends what is in. */
  lemma Progress(mem: Memory, mem': Memory, bufs: seq<Slice>, n: nat, cur: nat, data: Bytes)
    requires Proper(bufs) && Within(bufs, mem) && Within(bufs, mem') && n + cur <= Length(bufs) && n + cur <= |data|
    requires Touched(mem, mem', Advance(bufs, n)) && Flat(mem, bufs)[..n] == data[..n]
    requires Within(Advance(bufs, n), mem') && cur <= |Flat(mem', Advance(bufs, n))|
    requires Flat(mem', Advance(bufs, n))[..cur] == data[n..n + cur]
    ensures Flat(mem', bufs)[..n + cur] == data[..n + cur]
  {
    hide Flat, Advance, Touched;
    HeadKept(mem, mem', bufs, n);
    Advanced(mem', bufs, n);
    var f := Flat(mem', bufs);
    assert f[..n + cur] == f[..n] + f[n..][..cur];
    assert data[..n + cur] == data[..n] + data[n..n + cur];
  }

  /** The inner loop: drop the buffers that are full and trim the one that is not. */
  method Consume(bufs0: seq<Slice>, cur: nat) returns (bufs: seq<Slice>)
    requires Proper(bufs0) && cur <= Length(bufs0)
    ensures bufs == Advance(bufs0, cur)
  {
    bufs := bufs0;
    var consumed := 0;
    while consumed < cur
      invariant consumed <= cur && Proper(bufs) && cur - consumed <= Length(bufs)
      invariant Advance(bufs, cur - consumed) == Advance(bufs0, cur)
      decreases |bufs|
    {
      ProperTail(bufs);
      var len := bufs[0].a.Length - bufs[0].lo;
      if len <= cur - consumed {
        consumed := consumed + len;
        bufs := bufs[1..];
      } else {
        bufs := bufs[0 := Slice(bufs[0].a, bufs[0].lo + (cur - consumed))];
        return;
      }
    }
  }

  /** The first `n` bytes of `data` are in the buffers, the rest are to come. */
  ghost predicate Loaded(bufs: seq<Slice>, n: nat, sock: Socket, data: Bytes)
    reads sock, Arrays(bufs)
  {
    && n <= |data| && sock.incoming == data[n..]
    && Within(bufs, Holds(Arrays(bufs))) && n <= Length(bufs) && Flat(Holds(Arrays(bufs)), bufs)[..n] == data[..n]
  }

  /** One read into what is left, or into some of it, extends what is in. */
  method ReadMore(bufs0: seq<Slice>, ghost n: nat, bufs: seq<Slice>, sock: Socket, ghost data: Bytes)
      returns (cur: nat, err: Option<Error>)
    requires Proper(bufs0) && Loaded(bufs0, n, sock, data) && Pending(bufs0, n, bufs) && Length(bufs) > 0
    modifies sock, Arrays(bufs0)
    ensures cur <= Length(bufs) && (err.None? <==> cur > 0) && Loaded(bufs0, n + cur, sock, data)
  {
    hide Flat, Pending, Touched;
    ghost var all := Arrays(bufs0);
    ghost var mem := Holds(all);
    ReadReady(mem, bufs0, n, bufs);
    cur, err := sock.Receive(bufs, all);
    HoldsAll(bufs0);
    Extend(mem, Holds(all), bufs0, n, bufs, cur, data);
  }

  lemma NothingYet(bufs: seq<Slice>, sock: Socket)
    requires Proper(bufs)
    ensures Loaded(bufs, 0, sock, sock.incoming)
  {
    HoldsAll(bufs);
    LengthPositive(bufs);
  }

  lemma HoldsAll(bufs: seq<Slice>)
    requires Proper(bufs)
    ensures Within(bufs, Holds(Arrays(bufs)))
  {
  }

  lemma ReadReady(mem: Memory, bufs0: seq<Slice>, n: nat, bufs: seq<Slice>)
    requires Proper(bufs0) && Within(bufs0, mem) && n <= Length(bufs0) && Pending(bufs0, n, bufs)
    ensures Proper(bufs) && Within(bufs, mem) && Arrays(bufs) <= Arrays(bufs0)
  {
    hide Flat, Advance;
    Advanced(mem, bufs0, n);
    AdvanceArrays(bufs0, n);
  }

  /** These buffers are next in what is left once `n` bytes are in: only empty buffers come before them. */
  ghost predicate Pending(bufs0: seq<Slice>, n: nat, bufs: seq<Slice>)
  {
    exists j :: PendingAt(Advance(bufs0, n), j, bufs)
  }

  ghost predicate PendingAt(rest: seq<Slice>, j: nat, bufs: seq<Slice>)
  {
    j + |bufs| <= |rest| && rest[j..j + |bufs|] == bufs && Length(rest[..j]) == 0
  }

  lemma Extend(mem: Memory, mem': Memory, bufs0: seq<Slice>, n: nat, bufs: seq<Slice>, cur: nat, data: Bytes)
    requires Proper(bufs0) && Within(bufs0, mem) && Within(bufs0, mem') && n <= Length(bufs0) && n + cur <= |data|
    requires Flat(mem, bufs0)[..n] == data[..n]
    requires Pending(bufs0, n, bufs) && Within(bufs, mem') && Touched(mem, mem', bufs)
    requires cur <= Length(bufs) && Flat(mem', bufs)[..cur] == data[n..n + cur]
    ensures n + cur <= Length(bufs0) && Flat(mem', bufs0)[..n + cur] == data[..n + cur]
  {
    hide Flat, Advance, Touched;
    var rest := Advance(bufs0, n);
    var j :| PendingAt(rest, j, bufs);
    Advanced(mem, bufs0, n);
    Advanced(mem', bufs0, n);
    Middle(mem', rest, j, bufs);
    TouchedMore(mem, mem', rest, j, bufs);
    assert Flat(mem', rest)[..cur] == Flat(mem', bufs)[..cur];
    Progress(mem, mem', bufs0, n, cur, data);
  }

  lemma Middle(mem: Memory, rest: seq<Slice>, j: nat, bufs: seq<Slice>)
    requires Within(rest, mem) && PendingAt(rest, j, bufs)
    ensures Within(bufs, mem) && Flat(mem, bufs) <= Flat(mem, rest)
  {
    hide Flat;
    FlatConcat(mem, rest[..j], rest[j..]);
    assert rest == rest[..j] + rest[j..];
    FlatConcat(mem, bufs, rest[j + |bufs|..]);
    assert rest[j..] == bufs + rest[j + |bufs|..];
  }

  lemma TouchedMore(mem: Memory, mem': Memory, rest: seq<Slice>, j: nat, bufs: seq<Slice>)
    requires Proper(rest) && Within(rest, mem) && Within(rest, mem') && PendingAt(rest, j, bufs)
    requires Touched(mem, mem', bufs)
    ensures Touched(mem, mem', rest)
  {
    forall t | t in rest ensures mem'[t.a][..t.lo] == mem[t.a][..t.lo] {
      if t !in bufs { ProperApart(rest, j, bufs); }
    }
  }

  lemma {:induction false} FlatConcat(mem: Memory, a: seq<Slice>, b: seq<Slice>)
    requires Within(a, mem) && Within(b, mem)
    ensures Within(a + b, mem) && Flat(mem, a + b) == Flat(mem, a) + Flat(mem, b)
    ensures Length(a + b) == Length(a) + Length(b)
  {
    if a == [] {
      assert a + b == b;
    } else {
      FlatConcat(mem, a[1..], b);
      assert (a + b)[1..] == a[1..] + b;
    }
  }

  lemma ProperApart(rest: seq<Slice>, j: nat, bufs: seq<Slice>)
    requires Proper(rest) && PendingAt(rest, j, bufs)
    ensures forall t, s | t in rest && t !in bufs && s in bufs :: t.a != s.a
  {
    forall t, s | t in rest && t !in bufs && s in bufs ensures t.a != s.a {
      var i :| 0 <= i < |rest| && rest[i] == t;
      var k :| 0 <= k < |bufs| && bufs[k] == s;
      assert rest[j + k] == s;
    }
  }

  lemma WholePending(bufs0: seq<Slice>, n: nat)
    ensures Pending(bufs0, n, Advance(bufs0, n))
  {
    assert PendingAt(Advance(bufs0, n), 0, Advance(bufs0, n));
  }

  lemma Start(bufs: seq<Slice>)
    ensures Advance(bufs, 0) == bufs
  {
  }

  lemma Left(bufs: seq<Slice>, n: nat)
    requires Proper(bufs) && n <= Length(bufs)
    ensures Proper(Advance(bufs, n)) && Length(Advance(bufs, n)) == Length(bufs) - n
  {
    HoldsAll(bufs);
    Advanced(Holds(Arrays(bufs)), bufs, n);
  }

  /** readFromBuffersLinux: all buffers at once, again and again, until they are full. */
  method ReadBuffers(bufs0: seq<Slice>, sock: Socket) returns (n: nat, err: Option<Error>)
    requires Proper(bufs0)
    modifies sock, Arrays(bufs0)
    ensures Loaded(bufs0, n, sock, old(sock.incoming)) && (err.None? <==> n == Length(bufs0))
  {
    hide Flat, Advance, Loaded, Pending;
    ghost var data := sock.incoming;
    var length := Length(bufs0);
    var bufs := bufs0;
    n := 0;
    NothingYet(bufs0, sock);
    LengthPositive(bufs0);
    Start(bufs0);
    while n < length
      invariant n <= length && bufs == Advance(bufs0, n) && Loaded(bufs0, n, sock, data)
    {
      Left(bufs0, n);
      WholePending(bufs0, n);
      var cur, e := ReadMore(bufs0, n, bufs, sock, data);
      if e.Some? { return n, e; }
      AdvanceMore(bufs0, n, cur);
      bufs := Consume(bufs, cur);
      n := n + cur;
    }
    err := None;
  }

  /** The next buffer, partly filled, is pending. */
  lemma {:induction false} NextPending(bufs: seq<Slice>, i: nat, filled: nat)
    requires Proper(bufs) && i < |bufs| && filled < bufs[i].a.Length - bufs[i].lo
    ensures Length(bufs[..i]) >= 0 && Pending(bufs, Length(bufs[..i]) + filled, [Slice(bufs[i].a, bufs[i].lo + filled)])
    decreases i
  {
    var s := Slice(bufs[i].a, bufs[i].lo + filled);
    if i == 0 {
      var r := Advance(bufs, filled);
      if filled > 0 { r := TrimmedHead(bufs, filled); }
      assert PendingAt(r, 0, [s]);
    } else {
      ProperTail(bufs);
      assert bufs[..i][1..] == bufs[1..][..i - 1];
      NextPending(bufs[1..], i - 1, filled);
      var n := Length(bufs[..i]) + filled;
      var len := bufs[0].a.Length - bufs[0].lo;
      assert Length(bufs[..i]) == len + Length(bufs[1..][..i - 1]) && bufs[1..][i - 1] == bufs[i];
      if n == 0 {
        assert bufs[i..i + 1] == [s] && Advance(bufs, n) == bufs;
        assert PendingAt(Advance(bufs, n), i, [s]);
      } else {
        assert Advance(bufs, n) == Advance(bufs[1..], n - len);
      }
    }
  }

  lemma {:induction false} LengthTo(bufs: seq<Slice>, i: nat)
    requires Proper(bufs) && i < |bufs|
    ensures Length(bufs[..i + 1]) == Length(bufs[..i]) + (bufs[i].a.Length - bufs[i].lo)
    ensures Length(bufs[..i]) >= 0 && Length(bufs[..i + 1]) <= Length(bufs)
  {
    ProperTail(bufs);
    if i > 0 {
      LengthTo(bufs[1..], i - 1);
      assert bufs[..i][1..] == bufs[1..][..i - 1] && bufs[..i + 1][1..] == bufs[1..][..i];
    } else {
      assert bufs[..1][1..] == [];
      LengthPositive(bufs[1..]);
    }
  }

  lemma {:induction false} LengthPositive(bufs: seq<Slice>)
    requires Proper(bufs)
    ensures Length(bufs) >= 0
  {
    if bufs != [] { ProperTail(bufs); LengthPositive(bufs[1..]); }
  }

  /** The inner loop of ReadFrom: one buffer, until it is full or the reader reports an error, perhaps together with
      bytes. */
  method ReadOne(bufs: seq<Slice>, i: nat, sock: Socket, also: nat -> Option<Error>, ghost data: Bytes, turn0: nat)
      returns (filled: nat, err: Option<Error>, turn: nat)
    requires Proper(bufs) && i < |bufs| && Length(bufs[..i]) >= 0 && Loaded(bufs, Length(bufs[..i]), sock, data)
    modifies sock, Arrays(bufs)
    ensures filled <= bufs[i].a.Length - bufs[i].lo && Loaded(bufs, Length(bufs[..i]) + filled, sock, data)
    ensures filled < bufs[i].a.Length - bufs[i].lo ==> err.Some?
    ensures filled == bufs[i].a.Length - bufs[i].lo && err.Some? ==> exists k :: also(k) == err
  {
    hide Flat, Advance, Pending, Loaded, Length;
    var start := Length(bufs[..i]);
    filled, turn := 0, turn0;
    InBounds(bufs, i);
    var len := bufs[i].a.Length - bufs[i].lo;
    while filled < len
      invariant 0 <= filled <= len && Loaded(bufs, start + filled, sock, data)
    {
      NextPending(bufs, i, filled);
      var next := [Slice(bufs[i].a, bufs[i].lo + filled)];
      LengthOne(next[0]);
      var n, e := ReadMore(bufs, start + filled, next, sock, data);
      if e.None? { e := also(turn); }
      turn := turn + 1;
      filled := filled + n;
      if e.Some? { return filled, e, turn; }
    }
    err := None;
  }

  lemma InBounds(bufs: seq<Slice>, i: nat)
    requires Proper(bufs) && i < |bufs|
    ensures bufs[i].lo <= bufs[i].a.Length
  {
  }

  lemma LengthOne(s: Slice)
    ensures Length([s]) == s.a.Length - s.lo
  {
    assert [s][1..] == [];
  }

  /** ReadFrom on any reader: one buffer after the other. A reader may report an error together with bytes; `also` is
      what it reports with its i-th read. */
  method ReadEach(bufs: seq<Slice>, sock: Socket, also: nat -> Option<Error>) returns (total: nat, err: Option<Error>)
    requires Proper(bufs)
    modifies sock, Arrays(bufs)
    ensures Loaded(bufs, total, sock, old(sock.incoming)) && total <= Length(bufs)
    ensures (total < Length(bufs) ==> err.Some?)
    ensures total == Length(bufs) && err.Some? ==> exists k :: also(k) == err
  {
    hide Flat, Loaded;
    ghost var data := sock.incoming;
    var turn := 0;
    total := 0;
    NothingYet(bufs, sock);
    LengthPositive(bufs);
    var i := 0;
    while i < |bufs|
      invariant 0 <= i <= |bufs| && total == Length(bufs[..i]) && total <= Length(bufs)
      invariant Loaded(bufs, total, sock, data)
    {
      hide Length;
      LengthTo(bufs, i);
      var n, e;
      n, e, turn := ReadOne(bufs, i, sock, also, data, turn);
      total := total + n;
      if e.Some? {
        Ended(bufs, i, n);
        return total, e;
      }
      i := i + 1;
    }
    assert bufs[..|bufs|] == bufs;
    err := None;
  }

  /** Only the last non-empty buffer brings the total to the full length. */
  lemma Ended(bufs: seq<Slice>, i: nat, n: nat)
    requires Proper(bufs) && i < |bufs| && n <= bufs[i].a.Length - bufs[i].lo && Length(bufs[..i]) >= 0
    ensures Length(bufs[..i]) + n <= Length(bufs)
    ensures Length(bufs[..i]) + n == Length(bufs) ==> n == bufs[i].a.Length - bufs[i].lo
  {
    LengthTo(bufs, i);
  }

  /** The two loops on connections with the same bytes to come, split by the kernel and the reader in any two ways,
      into two lists of buffers of the same total length: where both succeed the buffers hold the same bytes and the
      same bytes are left. */
  method SameBytes(bufs: seq<Slice>, sock: Socket, bufs': seq<Slice>, sock': Socket, also: nat -> Option<Error>)
      returns (err: Option<Error>, err': Option<Error>)
    requires Proper(bufs) && Proper(bufs') && Length(bufs) == Length(bufs') && Arrays(bufs) !! Arrays(bufs')
    requires sock != sock' && sock.incoming == sock'.incoming
    modifies sock, sock', Arrays(bufs), Arrays(bufs')
    ensures Within(bufs, Holds(Arrays(bufs))) && Within(bufs', Holds(Arrays(bufs')))
    ensures err.None? && err'.None? ==>
              && Flat(Holds(Arrays(bufs)), bufs) == Flat(Holds(Arrays(bufs')), bufs')
              && sock.incoming == sock'.incoming
  {
    hide Flat, Proper, Within, Arrays;
    var n, n';
    n, err := ReadBuffers(bufs, sock);
    ghost var mem := Holds(Arrays(bufs));
    n', err' := ReadEach(bufs', sock', also);
    assert Holds(Arrays(bufs)) == mem;
    if err.None? && err'.None? {
      Whole(mem, bufs);
      Whole(Holds(Arrays(bufs')), bufs');
    }
  }

  lemma Whole(mem: Memory, bufs: seq<Slice>)
    requires Within(bufs, mem)
    ensures Length(bufs) == |Flat(mem, bufs)| && Flat(mem, bufs)[..Length(bufs)] == Flat(mem, bufs)
  {
    hide Flat;
  }
}
