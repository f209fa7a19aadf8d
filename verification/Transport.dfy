/** Framing: a header of length, type and tag, the fixed part, the payload; and the receiver that takes frames off a
    byte stream. */
module Transport {
  import opened Options
  import opened Wire
  import opened Records
  import opened Messages
  import opened Codec

  const HEADER := 7
  const MAXIMUM := 4 * 1024 * 1024

  type Lookup = (u16, byte) -> bool

  datatype Outcome = Got(tag: u16, m: Message) | Rejected(tag: u16) | Invalid | ConnError

  // ---- sending ------------------------------------------------------------------------

  function Frame(tag: u16, m: Message): Bytes
  {
    LittleEndian((HEADER + |Fixed(m)| + |PayloadOf(m)|) % 0x1_0000_0000, 4) + [Type(m)] + LittleEndian(tag, 2)
        + Fixed(m) + PayloadOf(m)
  }

  // ---- receiving ----------------------------------------------------------------------

  /** The fixed part of the messages that carry a payload. */
  function FixedSize(t: byte): nat
  {
    if t == 118 then 16 else 4
  }

  predicate Carries(t: byte)
  {
    t == 41 || t == 117 || t == 118
  }

  function Size(data: Bytes): u32
    requires |data| >= HEADER
  {
    Limits();
    Value(data[..4])
  }

  function TypeOf(data: Bytes): byte
    requires |data| >= HEADER
  {
    data[4]
  }

  function Tag(data: Bytes): u16
    requires |data| >= HEADER
  {
    Limits();
    Value(data[5..7])
  }

  function Drop(data: Bytes, n: nat): Bytes
  {
    if n <= |data| then data[n..] else []
  }

  predicate Registered(lookup: Lookup)
  {
    forall g: u16, t: byte :: lookup(g, t) ==> Kinds(t).Some?
  }

  /** recv: the outcome, and what is left of the stream. */
  function Recv(data: Bytes, msize: u32, lookup: Lookup): (Outcome, Bytes)
    requires Registered(lookup)
  {
    if |data| < HEADER then (ConnError, [])
    else
      var size, t, tag := Size(data), TypeOf(data), Tag(data);
      if size < HEADER || size > MAXIMUM || size > msize then (ConnError, data[HEADER..])
      else if !lookup(tag, t) then (Rejected(tag), Drop(data, size))
      else RecvBody(data, tag, t, size)
  }

  /** The rest of recv, once a message to decode into is found. */
  function RecvBody(data: Bytes, tag: u16, t: byte, size: u32): (Outcome, Bytes)
    requires HEADER <= |data| && HEADER <= size && Kinds(t).Some?
  {
    if Carries(t) && FixedSize(t) > size - HEADER then (Invalid, Drop(data, size))
    else if |data| < size then (ConnError, [])
    else
      var fixed := HEADER + if Carries(t) then FixedSize(t) else size - HEADER;
      match Decode(t, data[HEADER..fixed], data[fixed..size])
      case None => (Invalid, data[size..])
      case Some(m) => (Got(tag, m), data[size..])
  }

  /** Whatever comes of a frame short of a connection error, the stream is left where the frame ends. */
  lemma InSync(data: Bytes, msize: u32, lookup: Lookup)
    requires Registered(lookup) && Recv(data, msize, lookup).0 != ConnError
    ensures |data| >= HEADER && HEADER <= Size(data) <= msize && Size(data) <= MAXIMUM
    ensures Recv(data, msize, lookup).1 == Drop(data, Size(data))
    ensures Recv(data, msize, lookup).0.Got? ==> Size(data) <= |data|
  {
    hide Decode, Kinds;
  }

  /** What becomes of a frame: a bad length or an early end costs the connection; a type or tag that the receiver
      does not look for, a fixed part that does not fit and one that does not decode cost the frame only. */
  lemma Classified(data: Bytes, msize: u32, lookup: Lookup)
    requires Registered(lookup) && |data| >= HEADER
    ensures var size, t, tag, o := Size(data), TypeOf(data), Tag(data), Recv(data, msize, lookup).0;
            if size < HEADER || size > msize || size > MAXIMUM then o == ConnError
            else if !lookup(tag, t) then o == Rejected(tag)
            else if Carries(t) && size < HEADER + FixedSize(t) then o == Invalid
            else if |data| < size then o == ConnError
            else o == Invalid || (o.Got? && o.tag == tag)
  {
    hide Decode, Kinds;
  }

  lemma EarlyEnd(data: Bytes, msize: u32, lookup: Lookup)
    requires Registered(lookup) && |data| < HEADER
    ensures Recv(data, msize, lookup) == (ConnError, [])
  {
  }

  /** A frame that is refused or cannot be decoded does not disturb what follows it. */
  lemma Resumes(bad: Bytes, rest: Bytes, msize: u32, lookup: Lookup)
    requires Registered(lookup) && |bad| >= HEADER && Size(bad) == |bad|
    requires Recv(bad + rest, msize, lookup).0 != ConnError
    ensures Recv(bad + rest, msize, lookup).1 == rest
  {
    hide Recv, Kinds;
    assert (bad + rest)[..4] == bad[..4] && (bad + rest)[|bad|..] == rest;
    InSync(bad + rest, msize, lookup);
  }

  // ---- a frame comes back ---------------------------------------------------------------

  predicate FrameFits(m: Message, msize: u32)
  {
    HEADER + |Fixed(m)| + |PayloadOf(m)| <= msize && HEADER + |Fixed(m)| + |PayloadOf(m)| <= MAXIMUM
  }

  /** The length in the header is cut to 32 bits. */
  lemma FrameHeader(tag: u16, m: Message, rest: Bytes)
    ensures var data := Frame(tag, m) + rest; var size := HEADER + |Fixed(m)| + |PayloadOf(m)|;
            && |data| >= size && Size(data) == size % 0x1_0000_0000 && TypeOf(data) == Type(m) && Tag(data) == tag
            && data[HEADER..HEADER + |Fixed(m)|] == Fixed(m) && data[HEADER + |Fixed(m)|..size] == PayloadOf(m)
            && data[size..] == rest
  {
    hide Fixed, PayloadOf, Type, LittleEndian, Value;
    Limits();
    var size := HEADER + |Fixed(m)| + |PayloadOf(m)|;
    var data := Frame(tag, m) + rest;
    ValueOf(size % 0x1_0000_0000, 4);
    ValueOf(tag, 2);
    assert data[..4] == LittleEndian(size % 0x1_0000_0000, 4);
    assert data[5..7] == LittleEndian(tag, 2);
  }

  lemma CarriesPayload(m: Message)
    ensures Carries(Type(m)) <==> Payload(m).Some?
    ensures Carries(Type(m)) <==> m.Rread? || m.Rreaddir? || m.Twrite?
  {
    hide *;
    PayloadTypes(m);
    PayloadThere(m);
  }

  lemma PayloadTypes(m: Message)
    ensures Carries(Type(m)) <==> m.Rread? || m.Rreaddir? || m.Twrite?
  {
    hide Payload, PayloadOf, ToParts, Type, Kinds;
    if m.Rread? || m.Rreaddir? || m.Twrite? { CarrierType(m); }
    if !m.Rreaddir? && Carries(Type(m)) { Rebuilt(m); }
  }

  lemma CarrierType(m: Message)
    requires m.Rread? || m.Rreaddir? || m.Twrite?
    ensures Carries(Type(m))
  {
  }

  lemma PayloadThere(m: Message)
    ensures Payload(m).Some? <==> m.Rread? || m.Rreaddir? || m.Twrite?
  {
    hide Type, ToParts, PutDirents, Fitting;
  }

  lemma CarriedSize(m: Message)
    ensures Carries(Type(m)) <==> Payload(m).Some?
    ensures Carries(Type(m)) ==> |Fixed(m)| == FixedSize(Type(m))
  {
    hide PutDirents, Fitting, Payload, PayloadOf, Carries;
    CarriesPayload(m);
    if m.Rread? || m.Rreaddir? {
      OneField(ToParts(m));
    } else if m.Twrite? {
      ThreeFields(ToParts(m));
    }
  }

  lemma OneField(ps: seq<Part>)
    requires |ps| == 1 && ps[0].F?
    ensures PutParts(ps) == Put(ps[0].f)
  {
    assert PutParts(ps[1..]) == [];
    assert PutAll([ps[0].f]) == Put(ps[0].f) + PutAll([ps[0].f][1..]);
  }

  lemma ThreeFields(ps: seq<Part>)
    requires |ps| == 3 && ps[0].F? && ps[1].F? && ps[2].F?
    ensures |PutParts(ps)| == |Put(ps[0].f)| + |Put(ps[1].f)| + |Put(ps[2].f)|
  {
    assert ps[1..][1..] == ps[2..];
    OneField(ps[2..]);
    OneField([ps[1]]);
    OneField([ps[0]]);
    assert PutParts([ps[1]]) == PutPart(ps[1]) + PutParts([ps[1]][1..]);
    assert PutParts([ps[0]]) == PutPart(ps[0]) + PutParts([ps[0]][1..]);
    assert PutParts(ps[1..]) == PutPart(ps[1]) + PutParts(ps[2..]);
  }

  /** A frame at the head of the stream is received as the message sent. */
  lemma FrameReturns(tag: u16, m: Message, rest: Bytes, msize: u32, lookup: Lookup)
    requires Registered(lookup) && lookup(tag, Type(m)) && WellFormed(m) && FrameFits(m, msize)
    ensures Recv(Frame(tag, m) + rest, msize, lookup) == (Got(tag, m), rest)
  {
    hide Fixed, Type, Decode, WellFormed, Kinds, Frame, Size, TypeOf, Tag;
    FrameHeader(tag, m, rest);
    CarriedSize(m);
    RoundTrip(m);
    var data := Frame(tag, m) + rest;
    var size := HEADER + |Fixed(m)| + |PayloadOf(m)|;
    if Payload(m).None? {
      assert data[HEADER..size] == Fixed(m) && data[size..size] == [];
    }
  }

  /** A frame longer than the receiver takes ends the connection. */
  lemma FrameTooLong(tag: u16, m: Message, rest: Bytes, msize: u32, lookup: Lookup)
    requires Registered(lookup) && !FrameFits(m, msize) && HEADER + |Fixed(m)| + |PayloadOf(m)| < 0x1_0000_0000
    ensures Recv(Frame(tag, m) + rest, msize, lookup).0 == ConnError
  {
    hide Fixed, PayloadOf, Type, Decode, Kinds, Frame;
    FrameHeader(tag, m, rest);
  }

  // ---- streams of frames -------------------------------------------------------------------

  datatype Sent = Sent(tag: u16, m: Message)

  function Stream(msgs: seq<Sent>): Bytes
  {
    if msgs == [] then [] else Frame(msgs[0].tag, msgs[0].m) + Stream(msgs[1..])
  }

  /** Receiving `n` times, as long as each receive succeeds. */
  function RecvAll(data: Bytes, msize: u32, lookup: Lookup, n: nat): (seq<Sent>, Bytes)
    requires Registered(lookup)
    decreases n
  {
    if n == 0 then ([], data)
    else
      match Recv(data, msize, lookup)
      case (Got(tag, m), rest) =>
        var (ms, end) := RecvAll(rest, msize, lookup, n - 1);
        ([Sent(tag, m)] + ms, end)
      case (_, rest) => ([], rest)
  }

  /** What is sent is received: the same tags and messages, in order, and nothing is left over or eaten. */
  lemma {:induction false} StreamReturns(msgs: seq<Sent>, rest: Bytes, msize: u32, lookup: Lookup)
    requires Registered(lookup)
    requires forall x | x in msgs :: lookup(x.tag, Type(x.m)) && WellFormed(x.m) && FrameFits(x.m, msize)
    ensures RecvAll(Stream(msgs) + rest, msize, lookup, |msgs|) == (msgs, rest)
  {
    hide Frame, Type, WellFormed, FrameFits, Recv, Kinds;
    if msgs == [] {
      assert Stream(msgs) + rest == rest;
    } else {
      var x := msgs[0];
      assert Stream(msgs) + rest == Frame(x.tag, x.m) + (Stream(msgs[1..]) + rest);
      FrameReturns(x.tag, x.m, Stream(msgs[1..]) + rest, msize, lookup);
      StreamReturns(msgs[1..], rest, msize, lookup);
      assert [x] + msgs[1..] == msgs;
    }
  }
}
