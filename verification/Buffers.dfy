/** The encode and decode buffer, updated in place, proved against the wire format. */
module Buffers {
  import opened Wire

  class Buffer {
    var data: Bytes
    var overflow: bool

    function View(): Buf
      reads this
    {
      Buf(data, overflow)
    }

    constructor (data: Bytes)
      ensures View() == Buf(data, false)
    {
      this.data, overflow := data, false;
    }

    // ---- reading ------------------------------------------------------------------

    method Consume(n: nat) returns (bs: Bytes, ok: bool)
      modifies this
      ensures ok == (|old(data)| >= n)
      ensures ok ==> bs == old(data)[..n] && View() == Buf(old(data)[n..], old(overflow))
      ensures !ok ==> View() == Buf(old(data), true)
    {
      if |data| < n {
        overflow := true;
        return [], false;
      }
      bs, ok := data[..n], true;
      data := data[n..];
    }

    /** Read8, Read16, Read32 and Read64. */
    method ReadInt(w: nat) returns (n: nat)
      modifies this
      ensures n < Limit(w) && (n, View()) == TakeInt(old(View()), w)
    {
      var bs, ok := Consume(w);
      if !ok {
        Zeros(w);
        return 0;
      }
      n := Value(bs);
    }

    /** Byte by byte, once the whole length is known to be there. */
    method ReadString() returns (s: Bytes)
      modifies this
      ensures (s, View()) == TakeString(old(View()))
    {
      var n := ReadInt(2);
      if |data| < n {
        overflow := true;
        return [];
      }
      ghost var start := View();
      var bs := new byte[n];
      var i := 0;
      while i < n
        invariant 0 <= i <= n <= |start.data| && View() == start.(data := start.data[i..]) && bs[..i] == start.data[..i]
        invariant fresh(bs)
      {
        Limits();
        var b := ReadInt(1);
        assert start.data[i..][..1] == [start.data[i]] && Value([start.data[i]]) == start.data[i];
        bs[i] := b;
        i := i + 1;
      }
      s := bs[..];
      assert s == start.data[..n];
    }

    method ReadStrings(n: nat) returns (ss: seq<Bytes>)
      modifies this
      ensures (ss, View()) == TakeStrings(old(View()), n)
    {
      hide TakeString;
      ss := [];
      var i := 0;
      while i < n
        invariant 0 <= i <= n && |ss| == i && (ss, View()) == TakeStrings(old(View()), i)
      {
        var s := ReadString();
        NextString(old(View()), i);
        ss := ss + [s];
        i := i + 1;
      }
    }

    method ReadQid() returns (q: Qid)
      modifies this
      ensures (q, View()) == TakeQid(old(View()))
    {
      Limits();
      var t := ReadInt(1);
      var v := ReadInt(4);
      var p := ReadInt(8);
      q := Qid(t, v, p);
    }

    method ReadQids(n: nat) returns (qs: seq<Qid>)
      modifies this
      ensures (qs, View()) == TakeQids(old(View()), n)
    {
      hide TakeQid;
      qs := [];
      var i := 0;
      while i < n
        invariant 0 <= i <= n && |qs| == i && (qs, View()) == TakeQids(old(View()), i)
      {
        var q := ReadQid();
        NextQid(old(View()), i);
        qs := qs + [q];
        i := i + 1;
      }
    }

    method ReadField(k: Kind) returns (f: Field)
      modifies this
      ensures (f, View()) == Get(k, old(View()))
    {
      hide TakeInt, TakeString, TakeStrings, TakeQids;
      Limits();
      match k {
        case KU8 => var n := ReadInt(1); f := U8(n);
        case KU16 => var n := ReadInt(2); f := U16(n);
        case KU32 => var n := ReadInt(4); f := U32(n);
        case KU64 => var n := ReadInt(8); f := U64(n);
        case KI32 => var n: int := ReadInt(4); f := I32(if n >= 0x8000_0000 then n - 0x1_0000_0000 else n);
        case KFid => var n := ReadInt(4); f := Fid(n);
        case KPerm => var n := ReadInt(4); f := Perm(n % PERMISSIONS);
        case KStr => var s := ReadString(); f := Str(s);
        case KStrs => var n := ReadInt(2); var ss := ReadStrings(n); f := Strs(ss);
        case KQids => var n := ReadInt(2); var qs := ReadQids(n); f := Qids(qs);
      }
    }

    /** A decoder: its reads in order. */
    method ReadFields(ks: seq<Kind>) returns (fs: seq<Field>)
      modifies this
      ensures (fs, View()) == GetAll(ks, old(View()))
    {
      hide Get;
      fs := [];
      var i := 0;
      while i < |ks|
        invariant 0 <= i <= |ks| && |fs| == i && (fs, View()) == GetAll(ks[..i], old(View()))
      {
        var f := ReadField(ks[i]);
        NextField(ks, i, old(View()));
        fs := fs + [f];
        i := i + 1;
      }
      assert ks[..|ks|] == ks;
    }

    // ---- writing --------------------------------------------------------------------

    method Append(bs: Bytes)
      modifies this`data
      ensures data == old(data) + bs
    {
      data := data + bs;
    }

    method WriteString(s: Bytes)
      modifies this`data
      ensures data == old(data) + PutString(s)
    {
      Append(LittleEndian(|s| % 0x1_0000, 2));
      ghost var start := data;
      var i := 0;
      while i < |s|
        invariant 0 <= i <= |s| && data == start + s[..i]
      {
        Append([s[i]]);
        i := i + 1;
      }
      assert s[..|s|] == s;
    }

    method WriteQid(q: Qid)
      modifies this`data
      ensures data == old(data) + PutQid(q)
    {
      hide LittleEndian;
      Append([q.kind]);
      Append(LittleEndian(q.version, 4));
      Append(LittleEndian(q.path, 8));
    }

    method WriteField(f: Field)
      modifies this`data
      ensures data == old(data) + Put(f)
    {
      hide LittleEndian, PutString, PutQid;
      match f {
        case Str(s) => WriteString(s);
        case Strs(ss) =>
          Append(LittleEndian(|ss| % 0x1_0000, 2));
          ghost var start := data;
          var i := 0;
          while i < |ss|
            invariant 0 <= i <= |ss| && data == start + PutStrings(ss[..i])
          {
            WriteString(ss[i]);
            OneMoreString(ss, i);
            i := i + 1;
          }
          assert ss[..|ss|] == ss;
        case Qids(qs) =>
          Append(LittleEndian(|qs| % 0x1_0000, 2));
          ghost var start := data;
          var i := 0;
          while i < |qs|
            invariant 0 <= i <= |qs| && data == start + PutQids(qs[..i])
          {
            WriteQid(qs[i]);
            OneMoreQid(qs, i);
            i := i + 1;
          }
          assert qs[..|qs|] == qs;
        case _ => Append(Put(f));
      }
    }

    /** An encoder: its writes in order. */
    method WriteFields(fs: seq<Field>)
      modifies this`data
      ensures data == old(data) + PutAll(fs)
    {
      hide Put;
      var i := 0;
      while i < |fs|
        invariant 0 <= i <= |fs| && data == old(data) + PutAll(fs[..i])
      {
        WriteField(fs[i]);
        OneMoreField(fs, i);
        i := i + 1;
      }
      assert fs[..|fs|] == fs;
    }
  }

  lemma {:induction false} Zeros(n: nat)
    ensures Value(seq(n, _ => 0)) == 0
  {
    var z: Bytes := seq(n, _ => 0);
    if n > 0 {
      Zeros(n - 1);
      assert z[1..] == seq(n - 1, _ => 0);
    }
  }

  lemma {:induction false} NextString(b: Buf, n: nat)
    ensures var (ss, b1) := TakeStrings(b, n); var (s, b2) := TakeString(b1); TakeStrings(b, n + 1) == (ss + [s], b2)
    decreases n
  {
    hide TakeString;
    if n > 0 {
      var (s0, b0) := TakeString(b);
      NextString(b0, n - 1);
      var (ss, b1) := TakeStrings(b0, n - 1);
      assert [s0] + (ss + [TakeString(b1).0]) == [s0] + ss + [TakeString(b1).0];
    }
    else { var (s, b2) := TakeString(b); assert [s] + [] == [] + [s] && TakeStrings(b2, 0) == ([], b2); }
  }

  lemma {:induction false} NextQid(b: Buf, n: nat)
    ensures var (qs, b1) := TakeQids(b, n); var (q, b2) := TakeQid(b1); TakeQids(b, n + 1) == (qs + [q], b2)
    decreases n
  {
    hide TakeQid;
    if n > 0 {
      var (q0, b0) := TakeQid(b);
      NextQid(b0, n - 1);
      var (qs, b1) := TakeQids(b0, n - 1);
      assert [q0] + (qs + [TakeQid(b1).0]) == [q0] + qs + [TakeQid(b1).0];
    }
    else { var (q, b2) := TakeQid(b); assert [q] + [] == [] + [q] && TakeQids(b2, 0) == ([], b2); }
  }

  lemma {:induction false} NextField(ks: seq<Kind>, i: nat, b: Buf)
    requires i < |ks|
    ensures var (fs, b1) := GetAll(ks[..i], b); var (f, b2) := Get(ks[i], b1); GetAll(ks[..i + 1], b) == (fs + [f], b2)
    decreases i
  {
    hide Get;
    if i > 0 {
      var (f0, b0) := Get(ks[0], b);
      NextField(ks[1..], i - 1, b0);
      var (fs, b1) := GetAll(ks[1..][..i - 1], b0);
      assert [f0] + (fs + [Get(ks[i], b1).0]) == [f0] + fs + [Get(ks[i], b1).0];
      assert ks[..i][1..] == ks[1..][..i - 1] && ks[..i + 1][1..] == ks[1..][..i];
    } else {
      var (f, b2) := Get(ks[0], b);
      assert ks[..0] == [] && ks[..1][0] == ks[0] && ks[..1][1..] == [];
      assert [f] + [] == [] + [f];
    }
  }

  lemma {:induction false} OneMoreString(ss: seq<Bytes>, i: nat)
    requires i < |ss|
    ensures PutStrings(ss[..i + 1]) == PutStrings(ss[..i]) + PutString(ss[i])
  {
    hide PutString;
    if i == 0 {
      assert ss[..1][1..] == [];
    } else {
      OneMoreString(ss[1..], i - 1);
      assert ss[..i + 1][1..] == ss[1..][..i] && ss[..i][1..] == ss[1..][..i - 1];
    }
  }

  lemma {:induction false} OneMoreQid(qs: seq<Qid>, i: nat)
    requires i < |qs|
    ensures PutQids(qs[..i + 1]) == PutQids(qs[..i]) + PutQid(qs[i])
  {
    hide PutQid;
    if i == 0 {
      assert qs[..1][1..] == [];
    } else {
      OneMoreQid(qs[1..], i - 1);
      assert qs[..i + 1][1..] == qs[1..][..i] && qs[..i][1..] == qs[1..][..i - 1];
    }
  }

  lemma {:induction false} OneMoreField(fs: seq<Field>, i: nat)
    requires i < |fs|
    ensures PutAll(fs[..i + 1]) == PutAll(fs[..i]) + Put(fs[i])
  {
    hide Put;
    if i == 0 {
      assert fs[..1][1..] == [];
    } else {
      OneMoreField(fs[1..], i - 1);
      assert fs[..i + 1][1..] == fs[1..][..i] && fs[..i][1..] == fs[1..][..i - 1];
    }
  }
}
