/** The client's side of extended attributes: a value read in chunks through the server's handler, and the list of
    names. */
module Xattrs {
  import opened Options
  import opened Wire
  import opened Chunks
  import opened Attributes
  import Transport

  /** GetXattr: the server walks to the attribute, the client learns its size and reads it with its chunk loop. No
      request runs past the end or over the buffer, so none is refused or panics, and the client has exactly the
      value. */
  method GetXattr(name: Bytes, value: Bytes, msize: u32, payloadSize: nat) returns (r: Bytes, err: Option<Error>)
    requires |value| < WORD / 2 && 1 <= payloadSize <= msize <= Transport.MAXIMUM
    ensures if |value| % 0x1_0000_0000 <= Transport.MAXIMUM then err == None && r == value
            else err == Some(Errno(EINVAL)) && r == []
  {
    var attr := new Pending();
    var ok := attr.Walk(name, value);
    if !ok { return [], Some(Errno(EINVAL)); }
    if attr.size == 0 { return [], None; }
    var file := new RemoteFile.Attribute(attr, Some(msize));
    var p := new byte[attr.size];
    var n, e := ChunkedRead(file, payloadSize, p, 0);
    assert p[..] == value;
    return p[..n], e;
  }

  // ---- listing ------------------------------------------------------------------------------------

  const NUL: byte := 0

  /** strings.Join with NUL. */
  function Join(names: seq<Bytes>): Bytes
  {
    if names == [] then [] else if |names| == 1 then names[0] else names[0] + [NUL] + Join(names[1..])
  }

  /** What the server sends for the empty name. */
  function Listing(names: seq<Bytes>): Bytes
  {
    Join(names) + [NUL]
  }

  /** strings.Split at NUL, from a segment already begun, with empty segments dropped. */
  function Names(buf: Bytes, segment: Bytes): seq<Bytes>
    decreases |buf|
  {
    if buf == [] then Kept(segment)
    else if buf[0] == NUL then Kept(segment) + Names(buf[1..], [])
    else Names(buf[1..], segment + [buf[0]])
  }

  function Kept(segment: Bytes): seq<Bytes>
  {
    if segment == [] then [] else [segment]
  }

  predicate Plain(name: Bytes)
  {
    name != [] && NUL !in name
  }

  lemma {:induction false} NamesPlain(buf: Bytes, segment: Bytes)
    requires NUL !in segment
    ensures forall n | n in Names(buf, segment) :: Plain(n)
    decreases |buf|
  {
    if buf != [] {
      if buf[0] == NUL { NamesPlain(buf[1..], []); } else { NamesPlain(buf[1..], segment + [buf[0]]); }
    }
  }

  lemma {:induction false} OneName(name: Bytes, rest: Bytes, segment: Bytes)
    requires NUL !in name
    ensures Names(name + [NUL] + rest, segment) == Kept(segment + name) + Names(rest, [])
    decreases |name|
  {
    var all := name + [NUL] + rest;
    if name == [] {
      assert all[1..] == rest && segment + name == segment;
    } else {
      assert all[1..] == name[1..] + [NUL] + rest;
      OneName(name[1..], rest, segment + [name[0]]);
      assert segment + [name[0]] + name[1..] == segment + name;
    }
  }

  lemma {:induction false} PlainReturn(names: seq<Bytes>)
    requires forall n | n in names :: Plain(n)
    ensures Names(Listing(names), []) == names
  {
    if names == [] {
      assert Listing(names)[1..] == [];
    } else if |names| == 1 {
      assert Plain(names[0]);
      assert Listing(names) == names[0] + [NUL] + [];
      OneName(names[0], [], []);
      assert [] + names[0] == names[0];
    } else {
      assert Plain(names[0]);
      assert Listing(names) == names[0] + [NUL] + Listing(names[1..]);
      OneName(names[0], Listing(names[1..]), []);
      PlainReturn(names[1..]);
      assert [] + names[0] == names[0] && [names[0]] + names[1..] == names;
    }
  }

  /** The name list comes back exactly when every name is non-empty and free of NUL. */
  lemma ListReturns(names: seq<Bytes>)
    ensures Names(Listing(names), []) == names <==> forall n | n in names :: Plain(n)
  {
    NamesPlain(Listing(names), []);
    if forall n | n in names :: Plain(n) { PlainReturn(names); }
  }

  /** ListXattrs: the client's list is the backing file's exactly when its names are plain. */
  method ListXattrs(names: seq<Bytes>, msize: u32, payloadSize: nat) returns (r: seq<Bytes>, err: Option<Error>)
    requires |Listing(names)| < WORD / 2 && 1 <= payloadSize <= msize <= Transport.MAXIMUM
    ensures if |Listing(names)| % 0x1_0000_0000 <= Transport.MAXIMUM
            then err == None && (r == names <==> forall n | n in names :: Plain(n))
            else err == Some(Errno(EINVAL)) && r == []
  {
    hide Listing;
    var value;
    value, err := GetXattr([], Listing(names), msize, payloadSize);
    if err.Some? { return [], err; }
    ListReturns(names);
    r := Names(value, []);
  }
}
