/** Large reads and writes in payload-sized requests, and the sizes that keep each request within one message. */
module Chunks {
  import opened Options
  import opened Wire
  import opened Records
  import opened Messages
  import opened Codec
  import opened Attributes
  import Transport

  datatype Error = Eof | Errno(e: nat)

  /** How the server answers one request: with at most so many bytes, or with an error. */
  datatype Answer = Give(k: nat) | Fault(e: nat)

  function Padded(content: Bytes, offset: nat): (p: Bytes)
    ensures |p| >= offset
  {
    if offset > |content| then content + seq(offset - |content|, _ => 0) else content
  }

  function After(content: Bytes, n: nat): Bytes
  {
    if n < |content| then content[n..] else []
  }

  /** Writing past the end fills the gap with zeros. */
  function Overwrite(content: Bytes, offset: nat, data: Bytes): Bytes
  {
    if data == [] then content
    else
      var padded := Padded(content, offset);
      padded[..offset] + data + After(padded, offset + |data|)
  }

  lemma OverwriteTwice(content: Bytes, offset: nat, a: Bytes, b: Bytes)
    ensures Overwrite(Overwrite(content, offset, a), offset + |a|, b) == Overwrite(content, offset, a + b)
  {
    if a == [] {
      assert a + b == b;
    } else if b == [] {
      assert a + b == a;
    } else {
      Adjacent(content, offset, a, b);
    }
  }

  lemma Adjacent(content: Bytes, offset: nat, a: Bytes, b: Bytes)
    requires a != [] && b != []
    ensures Overwrite(Overwrite(content, offset, a), offset + |a|, b) == Overwrite(content, offset, a + b)
  {
    hide Padded, After, Overwrite;
    var was, n := Padded(content, offset), offset + |a|;
    var front, mid := was[..offset] + a, Overwrite(content, offset, a);
    Written(content, offset, a);
    Written(content, offset, a + b);
    Written(mid, n, b);
    NoPadding(mid, n);
    FrontOf(front, After(was, n), n);
    AfterAfter(front, was, n, |b|);
    assert n + |b| == offset + |a + b|;
    assert was[..offset] + a + b == was[..offset] + (a + b);
  }

  lemma Written(content: Bytes, offset: nat, data: Bytes)
    requires data != []
    ensures Overwrite(content, offset, data)
         == Padded(content, offset)[..offset] + data + After(Padded(content, offset), offset + |data|)
  {
    hide Padded, After;
  }

  lemma FrontOf(front: Bytes, rest: Bytes, n: nat)
    requires n == |front|
    ensures (front + rest)[..n] == front
  {
  }

  lemma NoPadding(content: Bytes, offset: nat)
    requires offset <= |content|
    ensures Padded(content, offset) == content
  {
  }

  lemma AfterAfter(front: Bytes, was: Bytes, n: nat, m: nat)
    requires |front| == n
    ensures After(front + After(was, n), n + m) == After(was, n + m)
  {
  }

  /** `bs` written over `was` from `lo` on. */
  function Patch(was: Bytes, lo: nat, bs: Bytes): Bytes
    requires lo + |bs| <= |was|
  {
    was[..lo] + bs + was[lo + |bs|..]
  }

  function Piece(content: Bytes, offset: nat, n: nat): (bs: Bytes)
    requires n > 0 ==> offset + n <= |content|
    ensures |bs| == n
  {
    if n == 0 then [] else content[offset..offset + n]
  }

  lemma PatchOn(was: Bytes, a: Bytes, b: Bytes)
    requires |a| + |b| <= |was|
    ensures Patch(Patch(was, 0, a), |a|, b) == Patch(was, 0, a + b)
  {
  }

  lemma PieceOn(content: Bytes, offset: nat, n: nat, m: nat)
    requires (n > 0 ==> offset + n <= |content|) && (m > 0 ==> offset + n + m <= |content|)
    ensures Piece(content, offset, n) + Piece(content, offset + n, m) == Piece(content, offset, n + m)
  {
  }

  /** All that a read of `want` bytes at `offset` can return. */
  function Available(content: Bytes, offset: nat, want: nat): (n: nat)
    ensures n <= want && (n > 0 ==> offset + n <= |content|)
  {
    if offset <= |content| then Min(want, |content| - offset) else 0
  }

  const EFAULT := 14

  /** A file on the server: either plain, with the answers it will give, or an extended attribute that a fid has
      walked to, which the server's handler answers for. */
  class RemoteFile {
    const attr: Pending?
    const buffer: Option<u32>   // the connection's read buffer
    var content: Bytes
    var answers: seq<Answer>

    ghost predicate Valid()
      reads this, if attr == null then {} else {attr}
    {
      attr != null ==> attr.op == Walked && attr.size == |attr.buf| < WORD / 2 && content == attr.buf
    }

    constructor (content: Bytes, answers: seq<Answer>)
      ensures Valid() && attr == null && this.content == content && this.answers == answers
    {
      attr, buffer, this.content, this.answers := null, None, content, answers;
    }

    constructor Attribute(attr: Pending, buffer: Option<u32>)
      requires attr.op == Walked && attr.size == |attr.buf| < WORD / 2
      ensures Valid() && this.attr == attr && this.buffer == buffer && content == attr.buf
    {
      this.attr, this.buffer, content, answers := attr, buffer, attr.buf, [];
    }

    /** No answer is an error or shorter than it need be. */
    predicate Prompt(size: nat)
      reads this`answers
    {
      attr == null && forall a | a in answers :: a.Give? && a.k >= size
    }

    method Next(ghost size: nat) returns (a: Answer)
      requires size < 0x1_0000_0000
      modifies this`answers
      ensures old(Prompt(size)) ==> a.Give? && a.k >= size && Prompt(size)
    {
      if answers == [] { return Give(0x1_0000_0000); }
      a := answers[0];
      answers := answers[1..];
    }

    /** readAt: one Tread. Nothing returned for a non-empty buffer means end of file. */
    method ReadAt(p: array<byte>, lo: nat, hi: nat, offset: nat, ghost size: nat) returns (n: nat, err: Option<Error>)
      requires Valid() && lo <= hi <= p.Length && hi - lo <= size < 0x1_0000_0000 && (attr != null ==> offset < WORD)
      modifies this`answers, p
      ensures Valid() && n <= hi - lo && (n > 0 ==> offset + n <= |content|)
      ensures p[..] == Patch(old(p[..]), lo, Piece(content, offset, n))
      ensures old(Prompt(size)) ==> Prompt(size)
      ensures old(Prompt(size)) || (attr != null && Readable(buffer, content, offset, hi - lo)) ==>
                n == Available(content, offset, hi - lo) && err == if n == 0 && hi > lo then Some(Eof) else None
    {
      if attr != null {
        n, err := ReadAttribute(p, lo, hi, offset);
        return;
      }
      var a := Next(size);
      if a.Fault? {
        assert Patch(p[..], lo, []) == p[..];
        return 0, Some(Errno(a.e));
      }
      n := Available(content, offset, Min(a.k, hi - lo));
      CopyIn(p, lo, Piece(content, offset, n));
      err := if n == 0 && hi > lo then Some(Eof) else None;
    }

    /** What the handler answers, as the client sees it. */
    method ReadAttribute(p: array<byte>, lo: nat, hi: nat, offset: u64) returns (n: nat, err: Option<Error>)
      requires Valid() && attr != null && lo <= hi <= p.Length && hi - lo < 0x1_0000_0000
      modifies p
      ensures n <= hi - lo && (n > 0 ==> offset + n <= |content|)
      ensures p[..] == Patch(old(p[..]), lo, Piece(content, offset, n))
      ensures Readable(buffer, content, offset, hi - lo) ==>
                n == Available(content, offset, hi - lo) && err == if n == 0 && hi > lo then Some(Eof) else None
    {
      hide ReadAttr;
      var r := attr.Read(buffer, offset, hi - lo);
      ReadRange(buffer, content, offset, hi - lo);
      if !r.Data? {
        assert Patch(p[..], lo, []) == p[..];
        return 0, Some(Errno(if r.Failed? then r.errno else EFAULT));
      }
      n := |r.bytes|;
      CopyIn(p, lo, r.bytes);
      err := if n == 0 && hi > lo then Some(Eof) else None;
    }

    /** writeAt: one Twrite. */
    method WriteAt(data: Bytes, offset: nat, ghost size: nat) returns (n: nat, err: Option<Error>)
      requires attr == null && |data| <= size < 0x1_0000_0000
      modifies this
      ensures n <= |data| && content == Overwrite(old(content), offset, data[..n])
      ensures old(Prompt(size)) ==> Prompt(size) && n == |data| && err == None
    {
      var a := Next(size);
      if a.Fault? { return 0, Some(Errno(a.e)); }
      n := Min(a.k, |data|);
      content := Overwrite(content, offset, data[..n]);
      err := None;
    }
  }

  method CopyIn(p: array<byte>, lo: nat, bs: Bytes)
    requires lo + |bs| <= p.Length
    modifies p
    ensures p[..] == Patch(old(p[..]), lo, bs)
  {
    hide Patch;
    var i := 0;
    ghost var was := p[..];
    PatchNone(was, lo);
    assert bs[..0] == [];
    while i < |bs|
      invariant 0 <= i <= |bs| && p[..] == Patch(was, lo, bs[..i])
    {
      ghost var before := p[..];
      p[lo + i] := bs[i];
      assert p[..] == before[lo + i := bs[i]];
      PatchMore(was, lo, bs, i);
      i := i + 1;
    }
    assert bs[..|bs|] == bs;
  }

  lemma PatchNone(was: Bytes, lo: nat)
    requires lo <= |was|
    ensures Patch(was, lo, []) == was
  {
  }

  lemma PatchMore(was: Bytes, lo: nat, bs: Bytes, i: nat)
    requires i < |bs| && lo + |bs| <= |was|
    ensures |Patch(was, lo, bs[..i])| == |was|
    ensures Patch(was, lo, bs[..i])[lo + i := bs[i]] == Patch(was, lo, bs[..i + 1])
  {
  }

  /** ReadAt: whatever the server does, a contiguous piece of the file from `offset` on, in place; and if it never
      falls short, all there is, exactly as one large read would give, with an end-of-file error just when the file
      ends on a chunk boundary. A range of an attribute is read whole when the chunks fit the server's buffer. */
  method ChunkedRead(file: RemoteFile, chunkSize: nat, p: array<byte>, offset: nat)
      returns (total: nat, err: Option<Error>)
    requires file.Valid() && 1 <= chunkSize < 0x1_0000_0000 && (file.attr != null ==> offset + p.Length < WORD)
    modifies file`answers, p
    ensures file.Valid() && total <= p.Length && (total > 0 ==> offset + total <= |file.content|)
    ensures p[..] == Patch(old(p[..]), 0, Piece(file.content, offset, total))
    ensures old(file.Prompt(chunkSize)) ==>
              && total == Available(file.content, offset, p.Length)
              && err == if total < p.Length && total % chunkSize == 0 then Some(Eof) else None
    ensures (&& file.attr != null && 0 < p.Length && offset + p.Length <= |file.content|
             && file.buffer.Some? && chunkSize <= Min(file.buffer.value, Transport.MAXIMUM))
            ==> total == p.Length && err == None
  {
    hide Patch, Piece, RemoteFile.Prompt;
    if p.Length == 0 {
      total, err := file.ReadAt(p, 0, 0, offset, chunkSize);
      return;
    }
    total := 0;
    Untouched(p[..], file.content, offset);
    while true
      invariant total <= p.Length && (total > 0 ==> offset + total <= |file.content|) && total % chunkSize == 0
      invariant p[..] == Patch(old(p[..]), 0, Piece(file.content, offset, total))
      invariant file.Valid() && (old(file.Prompt(chunkSize)) ==> file.Prompt(chunkSize))
      decreases p.Length - total
    {
      if total == p.Length { return total, None; }
      var n, e;
      if p.Length < total + chunkSize {
        n, e := file.ReadAt(p, total, p.Length, offset + total, chunkSize);
      } else {
        n, e := file.ReadAt(p, total, total + chunkSize, offset + total, chunkSize);
      }
      PieceOn(file.content, offset, total, n);
      PatchOn(old(p[..]), Piece(file.content, offset, total), Piece(file.content, offset + total, n));
      Remainder(total, n, chunkSize);
      total := total + n;
      if e.Some? { return total, e; }
      if n < chunkSize { return total, None; }
    }
  }

  lemma Untouched(was: Bytes, content: Bytes, offset: nat)
    ensures was == Patch(was, 0, Piece(content, offset, 0))
  {
  }

  lemma Remainder(a: nat, n: nat, c: nat)
    requires c > 0 && a % c == 0 && n <= c
    ensures (a + n) % c == if n == c then 0 else n
  {
    var q := a / c;
    if n == c {
      assert a + n == (q + 1) * c + 0;
      Multiple(a + n, q + 1, c, 0);
    } else {
      Multiple(a + n, q, c, n);
    }
  }

  lemma Multiple(x: nat, q: nat, c: nat, r: nat)
    requires r < c && x == q * c + r
    ensures x % c == r
  {
    var d := x / c - q;
    assert d * c == r - x % c;
    Stretch(d, c);
  }

  lemma Stretch(d: int, c: int)
    requires c > 0
    ensures (d >= 1 ==> d * c >= c) && (d <= -1 ==> d * c <= -c)
  {
  }

  /** WriteAt: the file receives a prefix of the data, as one write of it; all of it when the server never falls
      short. */
  method ChunkedWrite(file: RemoteFile, chunkSize: nat, p: Bytes, offset: nat) returns (total: nat, err: Option<Error>)
    requires file.attr == null && 1 <= chunkSize < 0x1_0000_0000
    modifies file
    ensures total <= |p| && file.content == Overwrite(old(file.content), offset, p[..total])
    ensures old(file.Prompt(chunkSize)) ==> total == |p| && err == None
  {
    hide Overwrite, RemoteFile.Prompt;
    if |p| == 0 {
      total, err := file.WriteAt(p, offset, chunkSize);
      return;
    }
    total := 0;
    Unwritten(file.content, offset);
    while true
      invariant total <= |p| && file.content == Overwrite(old(file.content), offset, p[..total])
      invariant old(file.Prompt(chunkSize)) ==> file.Prompt(chunkSize)
      decreases |p| - total
    {
      if total == |p| { return total, None; }
      var piece := if |p| < total + chunkSize then p[total..] else p[total..total + chunkSize];
      var n, e := file.WriteAt(piece, offset + total, chunkSize);
      OverwriteTwice(old(file.content), offset, p[..total], piece[..n]);
      assert p[..total] + piece[..n] == p[..total + n];
      total := total + n;
      if e.Some? { return total, e; }
      if n < chunkSize { return total, None; }
    }
  }

  lemma Unwritten(content: Bytes, offset: nat)
    ensures Overwrite(content, offset, []) == content
  {
  }
}
