/** The client's message and payload sizes, and why every data request and its answer fit one message. */
module Sizes {
  import opened Options
  import opened Wire
  import opened Records
  import opened Messages
  import opened Codec
  import opened Transport

  // ---- the registry's largest fixed size ------------------------------------------------------

  function ZeroField(k: Kind): (f: Field)
    ensures KindOf(f) == k
  {
    match k
    case KU8 => U8(0)
    case KU16 => U16(0)
    case KU32 => U32(0)
    case KU64 => U64(0)
    case KI32 => I32(0)
    case KFid => Fid(0)
    case KPerm => Perm(0)
    case KStr => Str([])
    case KStrs => Strs([])
    case KQids => Qids([])
  }

  function FieldSize(k: Kind): nat
  {
    match k
    case KU8 => 1
    case KU16 | KStr | KStrs | KQids => 2
    case KU32 | KI32 | KFid | KPerm => 4
    case KU64 => 8
  }

  function ZeroFields(ks: seq<Kind>): (fs: seq<Field>)
    ensures |fs| == |ks| && forall i | 0 <= i < |ks| :: fs[i] == ZeroField(ks[i])
  {
    if ks == [] then [] else [ZeroField(ks[0])] + ZeroFields(ks[1..])
  }

  lemma ZeroFieldsKinds(ks: seq<Kind>)
    ensures KindsOf(ZeroFields(ks)) == ks
  {
    hide ZeroField;
    var fs := ZeroFields(ks);
    forall i | 0 <= i < |ks| ensures KindsOf(fs)[i] == ks[i] { assert KindOf(ZeroField(ks[i])) == ks[i]; }
  }

  function FieldSizes(ks: seq<Kind>): nat
  {
    if ks == [] then 0 else FieldSize(ks[0]) + FieldSizes(ks[1..])
  }

  lemma ZeroFieldSize(k: Kind)
    ensures |Put(ZeroField(k))| == FieldSize(k)
  {
    hide LittleEndian;
  }

  lemma {:induction false} ZeroFieldSizes(ks: seq<Kind>)
    ensures |PutAll(ZeroFields(ks))| == FieldSizes(ks)
  {
    hide Put, ZeroField, FieldSize;
    if ks != [] {
      ZeroFieldSize(ks[0]);
      ZeroFieldSizes(ks[1..]);
    }
  }

  /** A part as a new message has it: all zeros and empty lists. */
  function ZeroPart(k: PartKind): Part
  {
    ZeroFieldsKinds(FieldKinds(k));
    PartOf(k, ZeroFields(FieldKinds(k)))
  }

  function PartSize(k: PartKind): nat
  {
    match k
    case K(k) => FieldSize(k)
    case KQid => 13
    case KAttrMask => 8
    case KAttr => 132
    case KSetAttrMask => 4
    case KSetAttr => 52
    case KFsStat => 60
    case KAuth => 12
    case KDirent => 24
  }

  lemma RunOf(k: Kind, n: nat)
    ensures FieldSizes(seq(n, _ => k)) == n * FieldSize(k)
  {
    hide FieldSize;
    var ks := seq(n, _ => k);
    if n > 0 {
      assert ks[1..] == seq(n - 1, _ => k);
      RunOf(k, n - 1);
    }
  }

  lemma {:induction false} FieldSizesConcat(a: seq<Kind>, b: seq<Kind>)
    ensures FieldSizes(a + b) == FieldSizes(a) + FieldSizes(b)
  {
    hide FieldSize;
    if a == [] {
      assert a + b == b;
    } else {
      assert (a + b)[1..] == a[1..] + b;
      FieldSizesConcat(a[1..], b);
    }
  }

  lemma ThenRun(head: seq<Kind>, k: Kind, n: nat, tail: seq<Kind>)
    ensures FieldSizes(head + seq(n, _ => k) + tail) == FieldSizes(head) + n * FieldSize(k) + FieldSizes(tail)
  {
    FieldSizesConcat(head + seq(n, _ => k), tail);
    FieldSizesConcat(head, seq(n, _ => k));
    RunOf(k, n);
  }

  lemma Alone(k: Kind)
    ensures FieldSizes([k]) == FieldSize(k)
  {
    assert [k][1..] == [];
  }

  lemma Short(a: Kind, b: Kind, c: Kind)
    ensures FieldSizes([a]) == FieldSize(a) && FieldSizes([a, b]) == FieldSize(a) + FieldSize(b)
    ensures FieldSizes([a, b, c]) == FieldSize(a) + FieldSize(b) + FieldSize(c) && FieldSizes([]) == 0
  {
    Alone(a);
    Alone(b);
    Alone(c);
    assert [a, b] == [a] + [b] && [a, b, c] == [a, b] + [c];
    FieldSizesConcat([a], [b]);
    FieldSizesConcat([a, b], [c]);
  }

  lemma AttrSize()
    ensures FieldSizes(ATTR_KINDS) == 132
  {
    hide FieldSizes;
    ThenRun([KU32, KU32, KU32], KU64, 15, []);
    Short(KU32, KU32, KU32);
    assert ATTR_KINDS == [KU32, KU32, KU32] + seq(15, _ => KU64) + [];
  }

  lemma SetAttrSize()
    ensures FieldSizes(SETATTR_KINDS) == 52
  {
    hide FieldSizes;
    ThenRun([KPerm, KU32, KU32], KU64, 5, []);
    Short(KPerm, KU32, KU32);
    assert SETATTR_KINDS == [KPerm, KU32, KU32] + seq(5, _ => KU64) + [];
  }

  lemma FsStatSize()
    ensures FieldSizes(FSSTAT_KINDS) == 60
  {
    hide FieldSizes;
    ThenRun([KU32, KU32], KU64, 6, [KU32]);
    Short(KU32, KU32, KU32);
    assert FSSTAT_KINDS == [KU32, KU32] + seq(6, _ => KU64) + [KU32];
  }

  lemma AuthSize()
    ensures FieldSizes(AUTH_KINDS) == 12
  {
    hide FieldSizes;
    FieldSizesConcat([KFid, KStr], [KStr, KU32]);
    Short(KFid, KStr, KStr);
    Short(KStr, KU32, KU32);
    assert AUTH_KINDS == [KFid, KStr] + [KStr, KU32];
  }

  lemma DirentSizes()
    ensures FieldSizes(DIRENT_KINDS) == 24
  {
    hide FieldSizes;
    FieldSizesConcat([KU8, KU32, KU64], [KU64, KU8, KStr]);
    Short(KU8, KU32, KU64);
    Short(KU64, KU8, KStr);
    assert DIRENT_KINDS == [KU8, KU32, KU64] + [KU64, KU8, KStr];
  }

  lemma PartSizes(k: PartKind)
    ensures FieldSizes(FieldKinds(k)) == PartSize(k)
  {
    hide FieldSizes;
    match k
    case K(k) => Short(k, k, k);
    case KQid => Short(KU8, KU32, KU64);
    case KAttrMask => Short(KU64, KU64, KU64);
    case KAttr => AttrSize();
    case KSetAttrMask => Short(KU32, KU32, KU32);
    case KSetAttr => SetAttrSize();
    case KFsStat => FsStatSize();
    case KAuth => AuthSize();
    case KDirent => DirentSizes();
  }

  /** A part read from its members gives them back. */
  lemma Reread(k: PartKind, fs: seq<Field>)
    requires KindsOf(fs) == FieldKinds(k) && !k.KAttrMask? && !k.KSetAttrMask?
    ensures Fields(PartOf(k, fs)) == fs
  {
    hide Bits, AttrOf, AttrFields, FsStatOf, FsStatFields, SetAttrOf, SetAttrFields;
    Has(fs, FieldKinds(k));
    match k
    case KAttr => AttrAgain(fs);
    case KFsStat => FsStatAgain(fs);
    case KSetAttr => SetAttrAgain(fs);
    case _ =>
  }

  lemma AttrAgain(fs: seq<Field>)
    requires KindsOf(fs) == ATTR_KINDS
    ensures AttrFields(AttrOf(fs)) == fs
  {
    Has(fs, ATTR_KINDS);
  }

  lemma FsStatAgain(fs: seq<Field>)
    requires KindsOf(fs) == FSSTAT_KINDS
    ensures FsStatFields(FsStatOf(fs)) == fs
  {
    Has(fs, FSSTAT_KINDS);
  }

  lemma SetAttrAgain(fs: seq<Field>)
    requires KindsOf(fs) == SETATTR_KINDS
    ensures SetAttrFields(SetAttrOf(fs)) == fs
  {
    Has(fs, SETATTR_KINDS);
  }

  lemma ZeroKept(k: PartKind)
    ensures Fields(ZeroPart(k)) == ZeroFields(FieldKinds(k)) && PartKindOf(ZeroPart(k)) == k
  {
    hide Bits, AttrMaskOf, SetAttrMaskOf, AttrBits, SetAttrBits;
    ZeroFieldsKinds(FieldKinds(k));
    if k.KAttrMask? || k.KSetAttrMask? { NoBits(); } else { Reread(k, ZeroFields(FieldKinds(k))); }
  }

  lemma NoBits()
    ensures AttrBits(AttrMaskOf(0)) == 0 && SetAttrBits(SetAttrMaskOf(0)) == 0
  {
    hide Bits;
    forall i: nat ensures !Bit(0, i) { ZeroBit(i); }
    var m := AttrMaskBits(AttrMaskOf(0));
    assert forall i | 0 <= i < |m| :: !m[i];
    AllClear(m);
    var n := SetAttrMaskBits(SetAttrMaskOf(0));
    assert forall i | 0 <= i < |n| :: !n[i];
    AllClear(n);
  }

  lemma {:induction false} ZeroBit(i: nat)
    ensures !Bit(0, i)
  {
    if i > 0 { ZeroBit(i - 1); }
  }

  lemma {:induction false} AllClear(bs: seq<bool>)
    requires forall i | 0 <= i < |bs| :: !bs[i]
    ensures Bits(bs) == 0
  {
    if bs != [] { AllClear(bs[1..]); }
  }

  function ZeroParts(ks: seq<PartKind>): (ps: seq<Part>)
    ensures |ps| == |ks|
  {
    if ks == [] then [] else [ZeroPart(ks[0])] + ZeroParts(ks[1..])
  }

  function PartsSize(ks: seq<PartKind>): nat
  {
    if ks == [] then 0 else PartSize(ks[0]) + PartsSize(ks[1..])
  }

  /** The encoding of a new message: what calculateSize measures for a type without payload. */
  lemma {:induction false} ZeroPartsSize(ks: seq<PartKind>)
    ensures |PutParts(ZeroParts(ks))| == PartsSize(ks)
  {
    hide PartSize, ZeroPart, FieldKinds;
    if ks != [] {
      ZeroKept(ks[0]);
      ZeroFieldSizes(FieldKinds(ks[0]));
      PartSizes(ks[0]);
      ZeroPartsSize(ks[1..]);
    }
  }

  const LARGEST := 153

  /** calculateSize of a new message of a registered type: the declared size, or what encoding it takes. */
  function CreatedSize(t: byte): nat
    requires Kinds(t).Some?
  {
    if Carries(t) then FixedSize(t) else |PutParts(ZeroParts(Kinds(t).value))|
  }

  function At(ks: seq<PartKind>, i: nat): nat
  {
    if i < |ks| then PartSize(ks[i]) else 0
  }

  lemma Seven(ks: seq<PartKind>)
    requires |ks| <= 7
    ensures PartsSize(ks) == At(ks, 0) + At(ks, 1) + At(ks, 2) + At(ks, 3) + At(ks, 4) + At(ks, 5) + At(ks, 6)
  {
    hide PartSize;
    From(ks, 0);
    From(ks, 1);
    From(ks, 2);
    From(ks, 3);
    From(ks, 4);
    From(ks, 5);
    From(ks, 6);
    assert ks[0..] == ks;
  }

  lemma From(ks: seq<PartKind>, i: nat)
    ensures PartsSize(Rest(ks, i)) == At(ks, i) + PartsSize(Rest(ks, i + 1)) && Rest(ks, 0) == ks
    ensures (i >= |ks| ==> PartsSize(Rest(ks, i)) == 0)
  {
    if i < |ks| { assert ks[i..][1..] == ks[i + 1..]; }
  }

  function Rest(ks: seq<PartKind>, i: nat): seq<PartKind>
  {
    if i <= |ks| then ks[i..] else []
  }

  /** largestFixedSize: no registered type has a larger fixed part than Rgetattr's. */
  lemma Largest(t: byte)
    requires Kinds(t).Some?
    ensures CreatedSize(t) <= LARGEST && (t == 25 ==> CreatedSize(t) == LARGEST)
  {
    hide Kinds, PartsSize, PutParts;
    ZeroPartsSize(Kinds(t).value);
    if t < 50 { LowSizes(t); } else if t < 108 { MiddleSizes(t); } else { HighSizes(t); }
  }

  lemma LowSizes(t: byte)
    requires Kinds(t).Some? && t < 50
    ensures PartsSize(Kinds(t).value) <= LARGEST && (t == 25 ==> PartsSize(Kinds(t).value) == LARGEST)
  {
    hide PartsSize;
    Seven(Kinds(t).value);
  }

  lemma MiddleSizes(t: byte)
    requires Kinds(t).Some? && 50 <= t < 108
    ensures PartsSize(Kinds(t).value) <= LARGEST
  {
    hide PartsSize;
    Seven(Kinds(t).value);
  }

  lemma HighSizes(t: byte)
    requires Kinds(t).Some? && t >= 108
    ensures PartsSize(Kinds(t).value) <= LARGEST
  {
    hide PartsSize;
    Seven(Kinds(t).value);
  }

  // ---- the client's payload size ------------------------------------------------------------------

  const BLOCK := 512

  function RoundDown(p: nat, align: nat): nat
    requires align > 0
  {
    if p > align && p % align != 0 then p - p % align else p
  }

  /** WithMessageSize refuses what leaves no room for a byte of payload. */
  predicate AcceptsMessageSize(m: u32)
  {
    m > LARGEST
  }

  function PayloadSize(m: u32): nat
    requires AcceptsMessageSize(m)
  {
    RoundDown(m - LARGEST, BLOCK)
  }

  lemma PayloadBounds(m: u32)
    requires AcceptsMessageSize(m)
    ensures 1 <= PayloadSize(m) <= m - LARGEST
    ensures PayloadSize(m) > BLOCK ==> PayloadSize(m) % BLOCK == 0
    ensures m - LARGEST - PayloadSize(m) < BLOCK
  {
  }

  lemma DataFrame(tag: u16, m: Message)
    requires m.Twrite? || m.Rread?
    ensures |Frame(tag, m)| == HEADER + (if m.Twrite? then 16 else 4) + |m.data|
    ensures |Fixed(m)| == (if m.Twrite? then 16 else 4) && PayloadOf(m) == m.data
  {
    hide Fixed, LittleEndian;
    CarriedSize(m);
  }

  /** A page of entries takes its payload, which is at most the count asked for, and eleven bytes more. */
  lemma PageFrame(tag: u16, m: Message)
    requires m.Rreaddir?
    ensures |Frame(tag, m)| == HEADER + 4 + |PayloadOf(m)| && |Fixed(m)| == 4 && |PayloadOf(m)| <= m.count
  {
    hide Fixed, LittleEndian, PutDirents, Fitting;
    CarriedSize(m);
    assert m.entries[..0] == [];
    NoEntries();
    FittingFits(m.count, m.entries, 0);
  }

  /** Every write the client sends, every answer to a read it sends, and every page of at most the payload size fits the
      message size. */
  lemma RequestsFit(tag: u16, m: Message, messageSize: u32)
    requires AcceptsMessageSize(messageSize) && messageSize <= MAXIMUM
    requires if m.Rreaddir? then m.count <= PayloadSize(messageSize)
             else (m.Twrite? || m.Rread?) && |m.data| <= PayloadSize(messageSize)
    ensures FrameFits(m, messageSize) && |Frame(tag, m)| <= messageSize
  {
    hide Fixed, LittleEndian, Frame, Type;
    PayloadBounds(messageSize);
    if m.Rreaddir? { PageFrame(tag, m); } else { DataFrame(tag, m); }
  }
}
