/** Encoding and decoding whole messages. */
module Codec {
  import opened Options
  import opened Wire
  import opened Records
  import opened Messages

  /** The bytes before the payload. */
  function Fixed(m: Message): Bytes
  {
    PutParts(ToParts(m))
  }

  /** The count that travels with a data payload is checked against the payload's length. */
  predicate CountAgrees(t: byte, ps: seq<Part>, payload: Bytes)
    requires Fits(t, ps)
  {
    match t
    case 117 => ps[0].f.w == |payload| % 0x1_0000_0000
    case 118 => ps[2].f.w == |payload| % 0x1_0000_0000
    case _ => true
  }

  /** A decoder's result: None when its buffer was overrun. */
  function Decode(t: byte, fixed: Bytes, payload: Bytes): Option<Message>
    requires Kinds(t).Some?
  {
    var (ps, b) := GetParts(Kinds(t).value, Buf(fixed, false));
    if b.overflow || !CountAgrees(t, ps, payload) then None else Some(FromParts(t, ps, payload))
  }

  // ---- what a reader can return ---------------------------------------------------------

  lemma {:induction false} TakeStringsShort(b: Buf, n: nat)
    requires n < 0x1_0000
    ensures forall s | s in TakeStrings(b, n).0 :: |s| < 0x1_0000
    decreases n
  {
    Limits();
    if n > 0 { TakeStringsShort(TakeString(b).1, n - 1); }
  }

  lemma GotNarrow(k: Kind, b: Buf)
    ensures var f := Get(k, b).0; Counted(f) && Narrow(f) == f
  {
    hide TakeInt, TakeStrings, TakeQids;
    Limits();
    match k
    case KStrs => var (n, b1) := TakeInt(b, 2); TakeStringsShort(b1, n);
    case _ =>
  }

  lemma {:induction false} AllGotNarrow(ks: seq<Kind>, b: Buf)
    ensures var fs := GetAll(ks, b).0; (forall f | f in fs :: Counted(f)) && NarrowAll(fs) == fs
  {
    hide Get, Counted, Narrow;
    if ks != [] {
      GotNarrow(ks[0], b);
      AllGotNarrow(ks[1..], Get(ks[0], b).1);
      var fs := GetAll(ks, b).0;
      assert fs[1..] == GetAll(ks[1..], Get(ks[0], b).1).0;
    }
  }

  predicate PartSound(p: Part)
  {
    PartCounted(p) && NarrowPart(p) == p
  }

  /** A part read off the wire could have been written. */
  lemma PartGotSound(k: PartKind, fs: seq<Field>)
    requires KindsOf(fs) == FieldKinds(k) && (forall f | f in fs :: Counted(f)) && NarrowAll(fs) == fs
    ensures PartSound(PartOf(k, fs))
  {
    hide NarrowAll, Bits, Bit, AttrBits, SetAttrBits, AttrOf, FsStatOf, AttrFields, FsStatFields, SetAttrOf, AuthOf;
    hide PartSound;
    Has(fs, FieldKinds(k));
    forall i | 0 <= i < |fs| ensures Counted(fs[i]) && Narrow(fs[i]) == fs[i] { assert fs[i] in fs; }
    match k
    case K(_) => FieldSound(fs[0]);
    case KSetAttr => SetAttrKept(fs);
    case KAuth => AuthKept(fs);
    case KDirent => assert Counted(fs[5]); DirentCounted(DirentOf(fs));
    case _ => NumbersSound(PartOf(k, fs));
  }

  lemma FieldSound(f: Field)
    requires Counted(f) && Narrow(f) == f
    ensures PartSound(F(f))
  {
  }

  /** Parts made of plain numbers always survive. */
  lemma NumbersSound(p: Part)
    requires p.QidPart? || p.AttrMaskPart? || p.AttrPart? || p.SetAttrMaskPart? || p.FsStatPart?
    ensures PartSound(p)
  {
    hide AttrBits, SetAttrBits;
  }

  lemma SetAttrKept(fs: seq<Field>)
    requires KindsOf(fs) == SETATTR_KINDS && forall i | 0 <= i < |fs| :: Narrow(fs[i]) == fs[i]
    ensures PartSound(SetAttrPart(SetAttrOf(fs)))
  {
    Has(fs, SETATTR_KINDS);
    assert Narrow(fs[0]) == fs[0];
  }

  lemma AuthKept(fs: seq<Field>)
    requires KindsOf(fs) == AUTH_KINDS && forall i | 0 <= i < |fs| :: Counted(fs[i]) && Narrow(fs[i]) == fs[i]
    ensures PartSound(AuthPart(AuthOf(fs)))
  {
    Has(fs, AUTH_KINDS);
    assert Narrow(fs[0]) == fs[0] && Counted(fs[1]) && Counted(fs[2]);
  }

  lemma {:induction false} PartsGotSound(ks: seq<PartKind>, b: Buf)
    ensures forall p | p in GetParts(ks, b).0 :: PartSound(p)
  {
    hide PartSound, GetAll, PartOf, FieldKinds, NarrowAll, Counted;
    if ks != [] {
      AllGotNarrow(FieldKinds(ks[0]), b);
      PartGotSound(ks[0], GetAll(FieldKinds(ks[0]), b).0);
      PartsGotSound(ks[1..], GetPart(ks[0], b).1);
    }
  }

  // ---- directory entries ------------------------------------------------------------------

  predicate Named(ds: seq<Dirent>)
  {
    forall d | d in ds :: |d.name| < 0x1_0000
  }

  lemma DirentSize(d: Dirent)
    ensures |PutPart(DirentPart(d))| == 24 + |d.name|
  {
    hide LittleEndian;
    var fs := DirentFields(d);
    assert PutAll(fs[6..]) == [];
    assert fs[5..][1..] == fs[6..] && fs[4..][1..] == fs[5..] && fs[3..][1..] == fs[4..] && fs[2..][1..] == fs[3..]
           && fs[1..][1..] == fs[2..];
    assert |PutAll(fs[5..])| == 2 + |d.name|;
    assert |PutAll(fs[4..])| == 3 + |d.name|;
    assert |PutAll(fs[3..])| == 11 + |d.name|;
    assert |PutAll(fs[2..])| == 19 + |d.name|;
    assert |PutAll(fs[1..])| == 23 + |d.name|;
  }

  lemma DirentCounted(d: Dirent)
    requires |d.name| < 0x1_0000
    ensures PartSound(DirentPart(d))
  {
  }

  lemma EmptyOverruns()
    ensures GetPart(KDirent, Buf([], false)).1.overflow
  {
    hide GetAll;
    if !GetPart(KDirent, Buf([], false)).1.overflow {
      assert GetAll(DIRENT_KINDS, Buf([], false)).1.overflow by { Starved(DIRENT_KINDS); }
    }
  }

  lemma Starved(ks: seq<Kind>)
    requires ks != [] && ks[0] == KU8
    ensures GetAll(ks, Buf([], false)).1.overflow
  {
    hide GetAll;
    var b := Get(ks[0], Buf([], false)).1;
    assert b.overflow;
    GetAllStep(ks, Buf([], false));
    if !GetAll(ks[1..], b).1.overflow { GetAllMore(ks[1..], b, []); }
  }

  lemma GetAllStep(ks: seq<Kind>, b: Buf)
    requires ks != []
    ensures GetAll(ks, b).1 == GetAll(ks[1..], Get(ks[0], b).1).1
  {
  }

  /** The decoder of an entry list finds exactly the entries encoded, and stops. */
  lemma {:induction false} DirentsBack(ds: seq<Dirent>)
    requires Named(ds)
    ensures GetDirents(Buf(PutDirents(ds), false)) == ds
  {
    hide GetPart, PutPart, PartSound;
    if ds == [] {
      EmptyOverruns();
    } else {
      var p, rest := DirentPart(ds[0]), PutDirents(ds[1..]);
      DirentCounted(ds[0]);
      assert PartCounted(p) && NarrowPart(p) == p by { SoundIs(p); }
      PartBack(p, rest);
      DirentSize(ds[0]);
      DirentsBack(ds[1..]);
    }
  }

  lemma SoundIs(p: Part)
    requires PartSound(p)
    ensures PartCounted(p) && NarrowPart(p) == p
  {
  }

  lemma {:induction false} GotNamed(b: Buf)
    ensures Named(GetDirents(b))
    decreases |b.data|
  {
    hide GetPart, GetAll;
    var (p, b') := GetPart(KDirent, b);
    if !(b'.overflow || |b'.data| >= |b.data|) {
      GotNamed(b');
      OneGotSound(b);
      SoundNamed(p.dirent);
    }
  }

  lemma SoundNamed(d: Dirent)
    requires PartSound(DirentPart(d))
    ensures |d.name| < 0x1_0000
  {
    var fs := Fields(DirentPart(d));
    assert fs[5] == Str(d.name) && fs[5] in fs;
    assert Counted(fs[5]);
  }

  lemma OneGotSound(b: Buf)
    ensures PartSound(GetPart(KDirent, b).0)
  {
    hide PartSound, GetAll, PartOf, NarrowAll, Counted;
    AllGotNarrow(DIRENT_KINDS, b);
    PartGotSound(KDirent, GetAll(DIRENT_KINDS, b).0);
  }

  // ---- the round trip ---------------------------------------------------------------------

  /** A message survives the wire when its lengths fit sixteen bits, its fids 32, its permissions twelve,
      and, for a directory listing, all its entries fit the byte count and account for it exactly. */
  predicate WellFormed(m: Message)
  {
    && (forall p | p in ToParts(m) :: PartSound(p))
    && (m.Rreaddir? ==> Named(m.entries) && m.count == |PutDirents(m.entries)|)
  }

  lemma {:induction false} NarrowSame(ps: seq<Part>)
    requires forall p | p in ps :: PartSound(p)
    ensures NarrowParts(ps) == ps
  {
    hide PartCounted, NarrowPart;
    if ps != [] {
      assert PartSound(ps[0]);
      NarrowSame(ps[1..]);
      assert [ps[0]] + ps[1..] == ps;
    }
  }

  lemma PartsReturn(m: Message)
    requires forall p | p in ToParts(m) :: PartSound(p)
    ensures Fits(Type(m), ToParts(m))
    ensures GetParts(Kinds(Type(m)).value, Buf(Fixed(m), false)) == (ToParts(m), Buf([], false))
  {
    hide ToParts, PartCounted, NarrowPart, GetParts, PutParts, Kinds;
    Shape(m);
    assert Fixed(m) + [] == Fixed(m);
    PartsBack(ToParts(m), Kinds(Type(m)).value, []);
    NarrowSame(ToParts(m));
  }

  lemma Fits1(m: Message)
    requires Fits(Type(m), ToParts(m))
    ensures CountAgrees(Type(m), ToParts(m), PayloadOf(m))
  {
  }

  lemma {:induction false} FittingWhole(count: nat, ds: seq<Dirent>, n: nat)
    requires n <= |ds| && |PutDirents(ds)| <= count
    ensures Fitting(count, ds, n) == |ds|
    decreases |ds| - n
  {
    if n < |ds| {
      PrefixFits(ds, n + 1);
      FittingWhole(count, ds, n + 1);
    }
  }

  lemma {:induction false} PutDirentsConcat(a: seq<Dirent>, b: seq<Dirent>)
    ensures PutDirents(a + b) == PutDirents(a) + PutDirents(b)
  {
    hide PutPart;
    if a == [] {
      assert a + b == b;
    } else {
      assert (a + b)[1..] == a[1..] + b;
      PutDirentsConcat(a[1..], b);
    }
  }

  lemma PrefixFits(ds: seq<Dirent>, n: nat)
    requires n <= |ds|
    ensures |PutDirents(ds[..n])| <= |PutDirents(ds)|
  {
    assert ds == ds[..n] + ds[n..];
    PutDirentsConcat(ds[..n], ds[n..]);
  }

  lemma Listing(fixed: Bytes, count: u32, payload: Bytes)
    requires GetParts(Kinds(41).value, Buf(fixed, false)) == ([F(U32(count))], Buf([], false))
    ensures Decode(41, fixed, payload) == Some(Rreaddir(count, GetDirents(Buf(payload, false))))
  {
    hide GetParts, GetDirents;
  }

  lemma ReaddirReturns(count: u32, entries: seq<Dirent>)
    requires Named(entries) && count == |PutDirents(entries)|
    ensures var m := Rreaddir(count, entries); Decode(41, Fixed(m), PayloadOf(m)) == Some(m)
  {
    hide GetParts, GetDirents, PutDirents, Kinds, Decode, Fixed;
    var m := Rreaddir(count, entries);
    FittingWhole(count, entries, 0);
    assert entries[..|entries|] == entries;
    assert ToParts(m) == [F(U32(count))];
    PartsReturn(m);
    DirentsBack(entries);
    Listing(Fixed(m), count, PayloadOf(m));
  }

  lemma Returns(m: Message)
    requires WellFormed(m)
    ensures Fits(Type(m), ToParts(m)) && Decode(Type(m), Fixed(m), PayloadOf(m)) == Some(m)
  {
    hide ToParts, PartSound, GetParts, PutParts, Kinds, FromParts, CountAgrees, PayloadOf, PutDirents;
    PartsReturn(m);
    Fits1(m);
    if m.Rreaddir? { ReaddirReturns(m.count, m.entries); } else { Rebuilt(m); }
  }

  lemma DecodedSound(t: byte, fixed: Bytes, payload: Bytes)
    requires Kinds(t).Some? && t != 41 && Decode(t, fixed, payload).Some?
    ensures var m := Decode(t, fixed, payload).value; !m.Rreaddir? && forall p | p in ToParts(m) :: PartSound(p)
  {
    hide ToParts, PartSound, GetParts, Kinds, FromParts;
    var (ps, b) := GetParts(Kinds(t).value, Buf(fixed, false));
    PartsGotSound(Kinds(t).value, Buf(fixed, false));
    if t == 117 || t == 118 {
      DataAgain(t, ps, payload);
    } else {
      EncodedAgain(t, ps, payload);
      NotReaddir(FromParts(t, ps, payload));
    }
  }

  lemma NotReaddir(m: Message)
    requires Type(m) != 41
    ensures !m.Rreaddir?
  {
  }

  lemma DataAgain(t: byte, ps: seq<Part>, payload: Bytes)
    requires Fits(t, ps) && (t == 117 || t == 118) && CountAgrees(t, ps, payload)
    ensures ToParts(FromParts(t, ps, payload)) == ps && !FromParts(t, ps, payload).Rreaddir?
  {
  }

  /** Decode after encode returns the message exactly when it is well formed. */
  lemma RoundTrip(m: Message)
    ensures Kinds(Type(m)).Some?
    ensures Decode(Type(m), Fixed(m), PayloadOf(m)) == Some(m) <==> WellFormed(m)
  {
    hide Decode, Fixed, PayloadOf, PartSound, PutDirents, Type;
    Shape(m);
    if WellFormed(m) {
      Returns(m);
    } else if Decode(Type(m), Fixed(m), PayloadOf(m)) == Some(m) {
      if m.Rreaddir? { ReaddirExact(m.count, m.entries); }
        else { Typed(m); DecodedSound(Type(m), Fixed(m), PayloadOf(m)); }
    }
  }

  lemma Typed(m: Message)
    requires !m.Rreaddir?
    ensures Type(m) != 41
  {
  }

  lemma ReaddirExact(count: u32, entries: seq<Dirent>)
    requires var m := Rreaddir(count, entries); Decode(Type(m), Fixed(m), PayloadOf(m)) == Some(m)
    ensures WellFormed(Rreaddir(count, entries))
  {
    hide GetParts, PutParts, GetDirents, PutDirents;
    var m := Rreaddir(count, entries);
    var k := Fitting(count, entries, 0);
    GotNamed(Buf(PayloadOf(m), false));
    assert Named(entries[..k]);
    DirentsBack(entries[..k]);
    assert entries[..k] == entries;
    assert |PutDirents(entries[..0])| == 0 by { NoEntries(); }
    FittingFits(count, entries, 0);
    assert PartSound(F(U32(|PayloadOf(m)| % 0x1_0000_0000)));
    PartsReturn(m);
  }

  lemma NoEntries()
    ensures PutDirents([]) == []
  {
  }

  /** What is carried fits the byte count. */
  lemma {:induction false} FittingFits(count: nat, ds: seq<Dirent>, n: nat)
    requires n <= |ds| && |PutDirents(ds[..n])| <= count
    ensures |PutDirents(ds[..Fitting(count, ds, n)])| <= count
    decreases |ds| - n
  {
    hide PutDirents;
    if !(n == |ds| || |PutDirents(ds[..n + 1])| > count) { FittingFits(count, ds, n + 1); }
  }

  /** Every strict prefix of the encoding of a message without payload overruns. */
  lemma StrictPrefixOverruns(m: Message, n: nat)
    requires Payload(m).None? && (forall p | p in ToParts(m) :: PartCounted(p)) && n < |Fixed(m)|
    ensures Kinds(Type(m)).Some? && Decode(Type(m), Fixed(m)[..n], []) == None
  {
    hide ToParts, GetParts, PutParts, PartCounted, FromParts;
    Shape(m);
    PrefixOverruns(ToParts(m), Kinds(Type(m)).value, n);
  }

  /** A data message whose count is not the length of what came with it is refused; with the right count it is taken. */
  lemma CountChecked(fid: u32, offset: u64, count: u32, payload: Bytes)
    ensures var fixed := PutParts([F(U32(count))]);
            Kinds(117).Some? && Decode(117, fixed, payload) == if count == |payload| % 0x1_0000_0000
              then Some(Rread(payload)) else None
    ensures var fixed := PutParts([F(Fid(fid)), F(U64(offset)), F(U32(count))]);
            && Kinds(118).Some?
            && Decode(118, fixed, payload)
               == if count == |payload| % 0x1_0000_0000 then Some(Twrite(fid, offset, payload)) else None
  {
    hide PutParts, GetParts;
    var r, w := [F(U32(count))], [F(Fid(fid)), F(U64(offset)), F(U32(count))];
    assert PutParts(r) + [] == PutParts(r) && PutParts(w) + [] == PutParts(w);
    PartsBack(r, Kinds(117).value, []);
    PartsBack(w, Kinds(118).value, []);
    PlainSame(r);
    PlainSame(w);
  }

  lemma PlainSame(ps: seq<Part>)
    requires forall p | p in ps :: p.F? && (p.f.U32? || p.f.U64? || (p.f.Fid? && p.f.fid < 0x1_0000_0000))
    ensures NarrowParts(ps) == ps
  {
    forall p | p in ps ensures PartSound(p) { FieldSound(p.f); }
    NarrowSame(ps);
  }
}
