/** The server's side of extended attributes: the value read through an xattr fid, and the write that takes effect on
    clunk. */
module Attributes {
  import opened Options
  import opened Wire
  import Transport

  const REPLACE := 2
  const EINVAL := 22
  const ENOBUFS := 105
  const WORD := 0x1_0000_0000_0000_0000

  /** A crash is a panic of the handler, which the server answers with EFAULT. */
  datatype Outcome = Data(bytes: Bytes) | Wrote(n: nat) | Failed(errno: nat) | Crash

  /** What a clunk asks of the backing file. */
  datatype Effect = Nothing | Set(name: Bytes, value: Bytes, flags: nat) | Remove(name: Bytes) | Rejected

  datatype Op = NoOp | Creating | Walked

  /** The pending attribute operation of a fid. */
  class Pending {
    var op: Op
    var name: Bytes
    var size: u64
    var flags: nat
    var buf: Bytes

    constructor ()
      ensures op == NoOp && buf == []
    {
      op, name, size, flags, buf := NoOp, [], 0, 0, [];
    }

    /** Txattrcreate. */
    method Create(name: Bytes, size: u64, flags: nat)
      modifies this
      ensures op == Creating && this.name == name && this.size == size && this.flags == flags && buf == []
    {
      op, this.name, this.size, this.flags, buf := Creating, name, size, flags, [];
    }

    /** Txattrwalk, once the value is at hand. The limit is compared with the low 32 bits of the length. */
    method Walk(name: Bytes, value: Bytes) returns (ok: bool)
      requires |value| < WORD / 2
      modifies this
      ensures ok <==> |value| % 0x1_0000_0000 <= Transport.MAXIMUM
      ensures if ok then op == Walked && this.name == name && size == |value| && buf == value else unchanged(this)
    {
      if |value| % 0x1_0000_0000 > Transport.MAXIMUM { return false; }
      op, this.name, size, buf := Walked, name, |value|, value;
      ok := true;
    }

    /** Tread on a walked attribute, into a buffer of the negotiated message size; before a Tversion there is none.
        The end of the range is computed modulo 2^64. */
    method Read(buffer: Option<u32>, offset: u64, count: u32) returns (r: Outcome)
      requires op == Walked
      ensures r == ReadAttr(buffer, size, buf, offset, count)
    {
      if count > Transport.MAXIMUM { return Failed(ENOBUFS); }
      if buffer.None? { return Crash; }
      if count == 0 { return if size == 0 then Data([]) else Failed(EINVAL); }
      if (offset + count) % 0x1_0000_0000_0000_0000 > |buf| { return Failed(EINVAL); }
      if count > buffer.value || offset > |buf| { return Crash; }
      r := Data(buf[offset..Min(offset + count, |buf|)]);
    }

    /** Twrite while an attribute is being created. */
    method Write(offset: u64, data: Bytes) returns (r: Outcome)
      requires op == Creating
      modifies this`buf
      ensures (buf, r) == WriteAttr(size, old(buf), offset, data)
    {
      if |buf| != offset { return Failed(EINVAL); }
      if (offset + |data|) % 0x1_0000_0000_0000_0000 > size { return Failed(EINVAL); }
      buf := buf + data;
      r := Wrote(|data|);
    }

    /** Tclunk. */
    method Clunk() returns (e: Effect)
      ensures e == ClunkAttr(op, name, size, flags, buf)
    {
      if op != Creating { return Nothing; }
      if |buf| != size { return Rejected; }
      if flags == REPLACE && size == 0 { return Remove(name); }
      e := Set(name, buf, flags);
    }
  }

  function ReadAttr(buffer: Option<u32>, size: nat, buf: Bytes, offset: u64, count: u32): Outcome
  {
    if count > Transport.MAXIMUM then Failed(ENOBUFS)
    else if buffer.None? then Crash
    else if count == 0 then (if size == 0 then Data([]) else Failed(EINVAL))
    else if (offset + count) % 0x1_0000_0000_0000_0000 > |buf| then Failed(EINVAL)
    else if count > buffer.value || offset > |buf| then Crash
    else Data(buf[offset..Min(offset + count, |buf|)])
  }

  function WriteAttr(size: u64, buf: Bytes, offset: u64, data: Bytes): (Bytes, Outcome)
  {
    if |buf| != offset || (offset + |data|) % 0x1_0000_0000_0000_0000 > size then (buf, Failed(EINVAL))
    else (buf + data, Wrote(|data|))
  }

  function ClunkAttr(op: Op, name: Bytes, size: u64, flags: nat, buf: Bytes): Effect
  {
    if op != Creating then Nothing
    else if |buf| != size then Rejected
    else if flags == REPLACE && size == 0 then Remove(name)
    else Set(name, buf, flags)
  }

  // ---- reading ----------------------------------------------------------------------------------

  /** The end of the range as the 64-bit sum gives it: past the value's end, it is refused. */
  predicate SeemsWithin(buf: Bytes, offset: u64, count: u32)
  {
    offset + count <= |buf| || (offset + count >= WORD && offset + count - WORD <= |buf|)
  }

  /** The range lies within the value, and within the buffer it is copied to. */
  predicate Readable(buffer: Option<u32>, buf: Bytes, offset: nat, count: nat)
  {
    && count <= Transport.MAXIMUM && buffer.Some?
    && if count == 0 then buf == [] else offset + count <= |buf| && count <= buffer.value
  }

  /** A range is read whole exactly when it lies within the value and the buffer. Below the largest count the handler
      panics exactly when nothing was negotiated, when the sum wraps into the value, or when the range lies within
      the value but not within the buffer. */
  lemma ReadRange(buffer: Option<u32>, buf: Bytes, offset: u64, count: u32)
    requires |buf| < WORD / 2
    ensures var r := ReadAttr(buffer, |buf|, buf, offset, count);
            && (r.Data? <==> Readable(buffer, buf, offset, count))
            && (r.Data? ==> r == Data(if count == 0 then [] else buf[offset..offset + count]))
            && (r == Crash <==>
                  && count <= Transport.MAXIMUM
                  && (buffer.None?
                      || (count > 0 && SeemsWithin(buf, offset, count) && !Readable(buffer, buf, offset, count))))
  {
  }

  /** The smallest such cases: no bytes of nothing before a Tversion, one byte at the last 64-bit offset, and two
      bytes into a buffer of one. */
  lemma ReadsCrash()
    ensures ReadAttr(None, 0, [], 0, 0) == Crash
    ensures ReadAttr(Some(Transport.MAXIMUM), 0, [], 0xFFFF_FFFF_FFFF_FFFF, 1) == Crash
    ensures ReadAttr(Some(1), 2, [0, 0], 0, 2) == Crash
  {
  }

  // ---- writing -----------------------------------------------------------------------------------

  datatype Request = Request(offset: u64, data: Bytes)

  /** The value gathered from a list of writes, and the pieces that were accepted, in order. */
  function Gather(size: u64, buf: Bytes, writes: seq<Request>): (Bytes, seq<Bytes>)
    decreases |writes|
  {
    if writes == [] then (buf, [])
    else
      var (buf', r) := WriteAttr(size, buf, writes[0].offset, writes[0].data);
      var (end, accepted) := Gather(size, buf', writes[1..]);
      (end, if r.Wrote? then [writes[0].data] + accepted else accepted)
  }

  function Concat(parts: seq<Bytes>): Bytes
  {
    if parts == [] then [] else parts[0] + Concat(parts[1..])
  }

  /** The buffer is the concatenation of the accepted writes. */
  lemma {:induction false} Gathered(size: u64, buf: Bytes, writes: seq<Request>)
    ensures var (end, accepted) := Gather(size, buf, writes); end == buf + Concat(accepted)
    decreases |writes|
  {
    if writes == [] {
      assert buf + [] == buf;
    } else {
      var (buf', r) := WriteAttr(size, buf, writes[0].offset, writes[0].data);
      Gathered(size, buf', writes[1..]);
      var accepted := Gather(size, buf', writes[1..]).1;
      if r.Wrote? { assert buf + writes[0].data + Concat(accepted) == buf + Concat([writes[0].data] + accepted); }
    }
  }

  /** On clunk the backing file receives exactly the accepted writes in order, if their length is the declared one;
      else nothing. */
  lemma ClunkSets(name: Bytes, size: u64, flags: nat, writes: seq<Request>)
    ensures var (buf, accepted) := Gather(size, [], writes);
            ClunkAttr(Creating, name, size, flags, buf)
            == if |Concat(accepted)| != size then Rejected
               else if flags == REPLACE && size == 0 then Remove(name)
               else Set(name, Concat(accepted), flags)
  {
    Gathered(size, [], writes);
  }

  /** The writes that carry these pieces one after the other. */
  function Tiled(pieces: seq<Bytes>, offset: nat): seq<Request>
    requires offset + |Concat(pieces)| < 0x1_0000_0000_0000_0000
    decreases |pieces|
  {
    if pieces == [] then [] else [Request(offset, pieces[0])] + Tiled(pieces[1..], offset + |pieces[0]|)
  }

  /** A value written in order, in pieces of any sizes, is accepted whole. */
  lemma {:induction false} InOrder(size: u64, buf: Bytes, pieces: seq<Bytes>)
    requires |buf| + |Concat(pieces)| <= size
    ensures Gather(size, buf, Tiled(pieces, |buf|)) == (buf + Concat(pieces), pieces)
    decreases |pieces|
  {
    hide WriteAttr;
    if pieces == [] {
      assert buf + [] == buf;
    } else {
      NextAccepted(size, buf, pieces[0]);
      InOrder(size, buf + pieces[0], pieces[1..]);
      var writes := Tiled(pieces, |buf|);
      assert writes[0] == Request(|buf|, pieces[0]) && writes[1..] == Tiled(pieces[1..], |buf + pieces[0]|);
      assert buf + pieces[0] + Concat(pieces[1..]) == buf + Concat(pieces);
      assert [pieces[0]] + pieces[1..] == pieces;
    }
  }

  lemma NextAccepted(size: u64, buf: Bytes, data: Bytes)
    requires |buf| + |data| <= size
    ensures WriteAttr(size, buf, |buf|, data) == (buf + data, Wrote(|data|))
  {
  }

  lemma WriteThrough(name: Bytes, flags: nat, pieces: seq<Bytes>)
    requires |Concat(pieces)| < 0x1_0000_0000_0000_0000 && !(flags == REPLACE && Concat(pieces) == [])
    ensures var value := Concat(pieces);
            ClunkAttr(Creating, name, |value|, flags, Gather(|value|, [], Tiled(pieces, 0)).0)
                == Set(name, value, flags)
  {
    var value := Concat(pieces);
    InOrder(|value|, [], pieces);
    assert [] + value == value;
  }

  lemma {:induction false} GatherMore(size: u64, buf: Bytes, writes: seq<Request>, w: Request)
    ensures var (end, accepted) := Gather(size, buf, writes);
            var (end', r) := WriteAttr(size, end, w.offset, w.data);
            Gather(size, buf, writes + [w]) == (end', if r.Wrote? then accepted + [w.data] else accepted)
    decreases |writes|
  {
    hide WriteAttr;
    if writes == [] {
      assert writes + [w] == [w] && [w][1..] == [];
      var end := WriteAttr(size, buf, w.offset, w.data).0;
      assert Gather(size, end, []) == (end, []) && [w.data] + [] == [] + [w.data];
    } else {
      assert (writes + [w])[1..] == writes[1..] + [w];
      var (buf', r) := WriteAttr(size, buf, writes[0].offset, writes[0].data);
      GatherMore(size, buf', writes[1..], w);
      var accepted, d := Gather(size, buf', writes[1..]).1, writes[0].data;
      assert [d] + (accepted + [w.data]) == [d] + accepted + [w.data];
    }
  }

  /** Txattrcreate, any writes, and Tclunk on one fid: the backing file is asked to set exactly the accepted writes
      in order, if their length is the declared one, and otherwise for nothing; each write is answered as it was
      taken. */
  method WriteAndClunk(name: Bytes, size: u64, flags: nat, writes: seq<Request>)
      returns (e: Effect, replies: seq<Outcome>)
    ensures var accepted := Gather(size, [], writes).1;
            e == if |Concat(accepted)| != size then Rejected
                 else if flags == REPLACE && size == 0 then Remove(name)
                 else Set(name, Concat(accepted), flags)
    ensures |replies| == |writes|
    ensures forall i | 0 <= i < |writes| ::
              replies[i] == WriteAttr(size, Gather(size, [], writes[..i]).0, writes[i].offset, writes[i].data).1
  {
    hide WriteAttr, ClunkAttr;
    var attr := new Pending();
    attr.Create(name, size, flags);
    replies := [];
    var i := 0;
    assert writes[..0] == [];
    while i < |writes|
      invariant 0 <= i <= |writes| && |replies| == i && attr.op == Creating && attr.name == name && attr.size == size
      invariant attr.flags == flags
      invariant attr.buf == Gather(size, [], writes[..i]).0
      invariant forall j | 0 <= j < i ::
                  replies[j] == WriteAttr(size, Gather(size, [], writes[..j]).0, writes[j].offset, writes[j].data).1
    {
      var r := attr.Write(writes[i].offset, writes[i].data);
      GatherMore(size, [], writes[..i], writes[i]);
      assert writes[..i + 1] == writes[..i] + [writes[i]];
      replies := replies + [r];
      i := i + 1;
    }
    assert writes[..|writes|] == writes;
    e := attr.Clunk();
    ClunkSets(name, size, flags, writes);
  }
}
