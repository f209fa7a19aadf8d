/** send and recv as the code runs them: buffers filled in place, a payload buffer reused from an earlier message
    when its length is right. */
module Connections {
  import opened Options
  import opened Wire
  import opened Records
  import opened Messages
  import opened Codec
  import opened Transport
  import opened Buffers

  class Connection {
    var input: Bytes
    var output: Bytes

    constructor (input: Bytes)
      ensures this.input == input && output == []
    {
      this.input, output := input, [];
    }

    // ---- sending ----------------------------------------------------------------------

    /** Encodes the fixed part, then writes header, fixed part and payload. */
    method Send(tag: u16, m: Message)
      modifies this`output
      ensures output == old(output) + Frame(tag, m)
    {
      hide ToParts, PutParts, LittleEndian, PayloadOf, Type;
      var body := new Buffer([]);
      var ps, i := ToParts(m), 0;
      EncodeNone(ps);
      while i < |ps|
        invariant 0 <= i <= |ps| && body.data == PutParts(ps[..i])
        invariant output == old(output)
      {
        body.WriteFields(Fields(ps[i]));
        OneMorePart(ps, i);
        i := i + 1;
      }
      assert ps[..|ps|] == ps;
      var payload := PayloadOf(m);
      var header := new Buffer([]);
      header.Append(LittleEndian((HEADER + |body.data| + |payload|) % 0x1_0000_0000, 4));
      header.Append([Type(m)]);
      header.Append(LittleEndian(tag, 2));
      output := output + (header.data + body.data + payload);
    }

    // ---- receiving --------------------------------------------------------------------

    /** Fills the buffer or, at the end of the stream, fails having eaten what there was. */
    method ReadFull(a: array<byte>) returns (ok: bool)
      modifies this`input, a
      ensures ok == (|old(input)| >= a.Length)
      ensures ok ==> a[..] == old(input)[..a.Length] && input == old(input)[a.Length..]
      ensures !ok ==> input == []
    {
      var i := 0;
      while i < a.Length
        invariant 0 <= i <= a.Length && i <= |old(input)| && input == old(input)[i..] && a[..i] == old(input)[..i]
      {
        if input == [] { return false; }
        a[i] := input[0];
        input := input[1..];
        i := i + 1;
      }
      ok := true;
    }

    method Discard(n: nat)
      modifies this`input
      ensures input == Drop(old(input), n)
    {
      input := if n <= |input| then input[n..] else [];
    }

    method Receive(msize: u32, lookup: Lookup, slot: array?<byte>) returns (o: Outcome)
      requires Registered(lookup)
      modifies this`input, slot
      ensures (o, input) == Recv(old(input), msize, lookup)
    {
      hide Kinds, Value, Drop, RecvBody;
      ghost var data := input;
      var hdr := new byte[HEADER];
      var ok := ReadFull(hdr);
      if !ok { return ConnError; }
      var size, t, tag := ReadHeader(hdr[..]);
      assert size == Size(data) && t == TypeOf(data) && tag == Tag(data) by { SameHeader(data); }
      if size < HEADER || size > MAXIMUM || size > msize { return ConnError; }
      if !lookup(tag, t) {
        DropAfter(data, HEADER, size - HEADER);
        Discard(size - HEADER);
        return Rejected(tag);
      }
      o := ReceiveBody(tag, t, size, slot, data);
    }

    /** Reads the fixed part and the payload into buffers of their exact lengths, and decodes them. */
    method ReceiveBody(tag: u16, t: byte, size: u32, slot: array?<byte>, ghost data: Bytes) returns (o: Outcome)
      requires HEADER <= |data| && HEADER <= size && Kinds(t).Some? && input == data[HEADER..]
      modifies this`input, slot
      ensures (o, input) == RecvBody(data, tag, t, size)
    {
      hide Decode, Kinds, Drop;
      var remaining := size - HEADER;
      var n := remaining;
      if Carries(t) {
        n := FixedSize(t);
        if n > remaining {
          DropAfter(data, HEADER, remaining);
          Discard(remaining);
          return Invalid;
        }
      }
      var fixed := new byte[n];
      var payload := slot;
      if payload == null || payload.Length != remaining - n {
        payload := new byte[remaining - n];
      }
      var ok := ReadFull(fixed);
      if !ok { return ConnError; }
      assert fixed[..] == data[HEADER..HEADER + n];
      ok := ReadFull(payload);
      if !ok { return ConnError; }
      assert payload[..] == data[HEADER + n..size];
      var m := DecodeInto(t, fixed[..], payload[..]);
      if m.None? { return Invalid; }
      o := Got(tag, m.value);
    }
  }

  method ReadHeader(hdr: Bytes) returns (size: u32, t: byte, tag: u16)
    requires |hdr| == HEADER
    ensures size == Size(hdr) && t == TypeOf(hdr) && tag == Tag(hdr)
  {
    hide Value;
    Limits();
    var b := new Buffer(hdr);
    size := b.ReadInt(4);
    assert hdr[4..][..1] == [hdr[4]] && hdr[4..][1..] == hdr[5..] && hdr[5..][..2] == hdr[5..7];
    t := b.ReadInt(1);
    OneValue(hdr[4]);
    tag := b.ReadInt(2);
  }

  lemma OneValue(b: byte)
    ensures Value([b]) == b
  {
  }

  lemma SameHeader(data: Bytes)
    requires |data| >= HEADER
    ensures Size(data[..HEADER]) == Size(data) && TypeOf(data[..HEADER]) == TypeOf(data)
    ensures Tag(data[..HEADER]) == Tag(data)
  {
    hide Value;
    assert data[..HEADER][..4] == data[..4] && data[..HEADER][5..7] == data[5..7];
  }

  lemma DropAfter(data: Bytes, n: nat, m: nat)
    requires n <= |data|
    ensures Drop(data[n..], m) == Drop(data, n + m)
  {
  }

  /** A decoder at work: part by part, then the count against the payload. */
  method DecodeInto(t: byte, fixed: Bytes, payload: Bytes) returns (m: Option<Message>)
    requires Kinds(t).Some?
    ensures m == Decode(t, fixed, payload)
  {
    hide Kinds, GetPart, FromParts, CountAgrees;
    var b := new Buffer(fixed);
    var ks := Kinds(t).value;
    var ps, i := [], 0;
    GetNone(ks, Buf(fixed, false));
    while i < |ks|
      invariant 0 <= i <= |ks| && (ps, b.View()) == GetParts(ks[..i], Buf(fixed, false)) && Fit(ps, ks[..i])
    {
      var p := ReadPart(b, ks[i]);
      OneMoreGot(ks, i, Buf(fixed, false));
      ps := ps + [p];
      i := i + 1;
    }
    assert ks[..|ks|] == ks;
    if b.overflow || !CountAgrees(t, ps, payload) { return None; }
    m := Some(FromParts(t, ps, payload));
  }

  method ReadPart(b: Buffer, k: PartKind) returns (p: Part)
    modifies b
    ensures (p, b.View()) == GetPart(k, old(b.View()))
  {
    hide FieldKinds, GetAll, PartOf;
    var fs := b.ReadFields(FieldKinds(k));
    p := PartOf(k, fs);
  }

  /** Reading an entry takes at least its fixed members off the buffer. */
  lemma EntryEats(b: Buf)
    requires !GetPart(KDirent, b).1.overflow
    ensures |GetPart(KDirent, b).1.data| < |b.data|
  {
    hide GetAll, PartOf;
    Eats(DIRENT_KINDS, b);
  }

  lemma Eats(ks: seq<Kind>, b: Buf)
    requires ks != [] && ks[0] == KU8 && !GetAll(ks, b).1.overflow
    ensures |GetAll(ks, b).1.data| < |b.data|
  {
    hide GetAll;
    GetAllStep(ks, b);
    var b1 := Get(ks[0], b).1;
    GetAllMore(ks[1..], b1, []);
    Shrinks(ks[1..], b1);
  }

  lemma {:induction false} Shrinks(ks: seq<Kind>, b: Buf)
    ensures |GetAll(ks, b).1.data| <= |b.data|
  {
    hide Get;
    if ks != [] {
      OneShrinks(ks[0], b);
      Shrinks(ks[1..], Get(ks[0], b).1);
    }
  }

  lemma OneShrinks(k: Kind, b: Buf)
    ensures |Get(k, b).1.data| <= |b.data|
  {
    hide Value, TakeStrings, TakeQids;
    Limits();
    match k
    case KStrs => StringsShrink(TakeInt(b, 2).1, TakeInt(b, 2).0);
    case KQids => QidsShrink(TakeInt(b, 2).1, TakeInt(b, 2).0);
    case _ =>
  }

  lemma {:induction false} StringsShrink(b: Buf, n: nat)
    ensures |TakeStrings(b, n).1.data| <= |b.data|
    decreases n
  {
    hide Value;
    if n > 0 { StringsShrink(TakeString(b).1, n - 1); }
  }

  lemma {:induction false} QidsShrink(b: Buf, n: nat)
    ensures |TakeQids(b, n).1.data| <= |b.data|
    decreases n
  {
    hide Value;
    if n > 0 { QidsShrink(TakeQid(b).1, n - 1); }
  }

  lemma EncodeNone(ps: seq<Part>)
    ensures PutParts(ps[..0]) == []
  {
  }

  lemma {:induction false} OneMorePart(ps: seq<Part>, i: nat)
    requires i < |ps|
    ensures PutParts(ps[..i + 1]) == PutParts(ps[..i]) + PutPart(ps[i])
  {
    hide PutPart;
    if i == 0 {
      assert ps[..1][1..] == [];
    } else {
      OneMorePart(ps[1..], i - 1);
      assert ps[..i + 1][1..] == ps[1..][..i] && ps[..i][1..] == ps[1..][..i - 1];
    }
  }

  lemma GetNone(ks: seq<PartKind>, b: Buf)
    ensures GetParts(ks[..0], b) == ([], b)
  {
  }

  lemma {:induction false} OneMoreGot(ks: seq<PartKind>, i: nat, b: Buf)
    requires i < |ks|
    ensures var (ps, b1) := GetParts(ks[..i], b); var (p, b2) := GetPart(ks[i], b1);
            GetParts(ks[..i + 1], b) == (ps + [p], b2)
    decreases i
  {
    hide GetPart;
    if i > 0 {
      var (p0, b0) := GetPart(ks[0], b);
      OneMoreGot(ks[1..], i - 1, b0);
      var (ps, b1) := GetParts(ks[1..][..i - 1], b0);
      assert [p0] + (ps + [GetPart(ks[i], b1).0]) == [p0] + ps + [GetPart(ks[i], b1).0];
      assert ks[..i][1..] == ks[1..][..i - 1] && ks[..i + 1][1..] == ks[1..][..i];
    } else {
      var (p, b2) := GetPart(ks[0], b);
      assert ks[..0] == [] && ks[..1][0] == ks[0] && ks[..1][1..] == [];
      assert [p] + [] == [] + [p];
    }
  }
}
