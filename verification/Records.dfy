/** The compound values of 9P messages, each written and read member by member. */
module Records {
  import opened Wire

  datatype FsStat = FsStat(fsType: u32, blockSize: u32, blocks: u64, blocksFree: u64, blocksAvailable: u64,
                           files: u64, filesFree: u64, fsid: u64, nameLength: u32)

  datatype AttrMask = AttrMask(mode: bool, nlink: bool, uid: bool, gid: bool, rdev: bool, atime: bool, mtime: bool,
                               ctime: bool, ino: bool, size: bool, blocks: bool, btime: bool, gen: bool,
                               dataVersion: bool)

  datatype Attr = Attr(mode: u32, uid: u32, gid: u32, nlink: u64, rdev: u64, size: u64, blockSize: u64, blocks: u64,
                       atimeSec: u64, atimeNsec: u64, mtimeSec: u64, mtimeNsec: u64, ctimeSec: u64, ctimeNsec: u64,
                       btimeSec: u64, btimeNsec: u64, gen: u64, dataVersion: u64)

  datatype SetAttrMask = SetAttrMask(permissions: bool, uid: bool, gid: bool, size: bool, atime: bool, mtime: bool,
                                     ctime: bool, atimeNotSystemTime: bool, mtimeNotSystemTime: bool)

  datatype SetAttr = SetAttr(permissions: u32, uid: u32, gid: u32, size: u64, atimeSec: u64, atimeNsec: u64,
                             mtimeSec: u64, mtimeNsec: u64)

  datatype Auth = Auth(afid: u64, userName: Bytes, attachName: Bytes, uid: u32)

  datatype Dirent = Dirent(qid: Qid, offset: u64, kind: byte, name: Bytes)

  // ---- masks: the encoder ors in one bit per member, the decoder tests one bit per member ------

  function Bits(bs: seq<bool>): (n: nat)
    ensures n < Power2(|bs|)
  {
    if bs == [] then 0 else (if bs[0] then 1 else 0) + 2 * Bits(bs[1..])
  }

  function Power2(k: nat): (n: nat)
    ensures n > 0
  {
    if k == 0 then 1 else 2 * Power2(k - 1)
  }

  predicate Bit(n: nat, i: nat)
  {
    if i == 0 then n % 2 == 1 else Bit(n / 2, i - 1)
  }

  lemma {:induction false} BitOf(bs: seq<bool>, i: nat)
    requires i < |bs|
    ensures Bit(Bits(bs), i) == bs[i]
  {
    if i > 0 {
      BitOf(bs[1..], i - 1);
      assert Bits(bs) / 2 == Bits(bs[1..]);
    }
  }

  lemma {:induction false} Power2Sum(i: nat, j: nat)
    ensures Power2(i + j) == Power2(i) * Power2(j)
  {
    if i > 0 { Power2Sum(i - 1, j); }
  }

  lemma SmallMasks()
    ensures Power2(9) == 512 && Power2(14) == 16384
  {
    assert Power2(4) == 16;
    Power2Sum(4, 4);
    assert Power2(9) == 2 * Power2(8);
    Power2Sum(9, 5);
    assert Power2(5) == 32;
  }

  function AttrMaskBits(m: AttrMask): seq<bool>
  {
    [m.mode, m.nlink, m.uid, m.gid, m.rdev, m.atime, m.mtime, m.ctime, m.ino, m.size, m.blocks, m.btime, m.gen,
     m.dataVersion]
  }

  function AttrBits(m: AttrMask): u64
  {
    SmallMasks();
    Bits(AttrMaskBits(m))
  }

  function AttrMaskOf(n: u64): AttrMask
  {
    AttrMask(Bit(n, 0), Bit(n, 1), Bit(n, 2), Bit(n, 3), Bit(n, 4), Bit(n, 5), Bit(n, 6), Bit(n, 7),
             Bit(n, 8), Bit(n, 9), Bit(n, 10), Bit(n, 11), Bit(n, 12), Bit(n, 13))
  }

  lemma AttrMaskBack(m: AttrMask)
    ensures AttrMaskOf(AttrBits(m)) == m
  {
    hide Bits, Bit;
    var bs := AttrMaskBits(m);
    forall i: nat | i < 14 ensures Bit(Bits(bs), i) == bs[i] { BitOf(bs, i); }
  }

  function SetAttrMaskBits(m: SetAttrMask): seq<bool>
  {
    [m.permissions, m.uid, m.gid, m.size, m.atime, m.mtime, m.ctime, m.atimeNotSystemTime, m.mtimeNotSystemTime]
  }

  function SetAttrBits(m: SetAttrMask): u32
  {
    SmallMasks();
    Bits(SetAttrMaskBits(m))
  }

  function SetAttrMaskOf(n: u32): SetAttrMask
  {
    SetAttrMask(Bit(n, 0), Bit(n, 1), Bit(n, 2), Bit(n, 3), Bit(n, 4), Bit(n, 5), Bit(n, 6), Bit(n, 7), Bit(n, 8))
  }

  lemma SetAttrMaskBack(m: SetAttrMask)
    ensures SetAttrMaskOf(SetAttrBits(m)) == m
  {
    hide Bits, Bit;
    var bs := SetAttrMaskBits(m);
    forall i: nat | i < 9 ensures Bit(Bits(bs), i) == bs[i] { BitOf(bs, i); }
  }

  // ---- members in the order the encoders write them ------------------------------------

  function QidFields(q: Qid): seq<Field>
  {
    [U8(q.kind), U32(q.version), U64(q.path)]
  }

  function AuthFields(a: Auth): seq<Field>
  {
    [Fid(a.afid), Str(a.userName), Str(a.attachName), U32(a.uid)]
  }

  function FsStatFields(f: FsStat): seq<Field>
  {
    [U32(f.fsType), U32(f.blockSize), U64(f.blocks), U64(f.blocksFree), U64(f.blocksAvailable), U64(f.files),
     U64(f.filesFree), U64(f.fsid), U32(f.nameLength)]
  }

  function AttrFields(a: Attr): seq<Field>
  {
    [U32(a.mode), U32(a.uid), U32(a.gid), U64(a.nlink), U64(a.rdev), U64(a.size), U64(a.blockSize), U64(a.blocks),
     U64(a.atimeSec), U64(a.atimeNsec), U64(a.mtimeSec), U64(a.mtimeNsec), U64(a.ctimeSec), U64(a.ctimeNsec),
     U64(a.btimeSec), U64(a.btimeNsec), U64(a.gen), U64(a.dataVersion)]
  }

  function SetAttrFields(s: SetAttr): seq<Field>
  {
    [Perm(s.permissions), U32(s.uid), U32(s.gid), U64(s.size), U64(s.atimeSec), U64(s.atimeNsec), U64(s.mtimeSec),
     U64(s.mtimeNsec)]
  }

  function DirentFields(d: Dirent): seq<Field>
  {
    QidFields(d.qid) + [U64(d.offset), U8(d.kind), Str(d.name)]
  }

  // ---- members in the order the decoders read them -------------------------------------

  const QID_KINDS := [KU8, KU32, KU64]
  const AUTH_KINDS := [KFid, KStr, KStr, KU32]
  const FSSTAT_KINDS := [KU32, KU32, KU64, KU64, KU64, KU64, KU64, KU64, KU32]
  const ATTR_KINDS :=
      [KU32, KU32, KU32, KU64, KU64, KU64, KU64, KU64, KU64, KU64, KU64, KU64, KU64, KU64, KU64, KU64, KU64, KU64]
  const SETATTR_KINDS := [KPerm, KU32, KU32, KU64, KU64, KU64, KU64, KU64]
  const DIRENT_KINDS := [KU8, KU32, KU64, KU64, KU8, KStr]

  function QidOf(fs: seq<Field>): Qid
    requires KindsOf(fs) == QID_KINDS
  {
    Has(fs, QID_KINDS);
    Qid(fs[0].b, fs[1].w, fs[2].d)
  }

  function AuthOf(fs: seq<Field>): Auth
    requires KindsOf(fs) == AUTH_KINDS
  {
    Has(fs, AUTH_KINDS);
    Auth(fs[0].fid, fs[1].s, fs[2].s, fs[3].w)
  }

  function FsStatOf(fs: seq<Field>): FsStat
    requires KindsOf(fs) == FSSTAT_KINDS
  {
    Has(fs, FSSTAT_KINDS);
    FsStat(fs[0].w, fs[1].w, fs[2].d, fs[3].d, fs[4].d, fs[5].d, fs[6].d, fs[7].d, fs[8].w)
  }

  function AttrOf(fs: seq<Field>): Attr
    requires KindsOf(fs) == ATTR_KINDS
  {
    Has(fs, ATTR_KINDS);
    Attr(fs[0].w, fs[1].w, fs[2].w, fs[3].d, fs[4].d, fs[5].d, fs[6].d, fs[7].d, fs[8].d, fs[9].d, fs[10].d, fs[11].d,
         fs[12].d, fs[13].d, fs[14].d, fs[15].d, fs[16].d, fs[17].d)
  }

  function SetAttrOf(fs: seq<Field>): SetAttr
    requires KindsOf(fs) == SETATTR_KINDS
  {
    Has(fs, SETATTR_KINDS);
    SetAttr(fs[0].perm, fs[1].w, fs[2].w, fs[3].d, fs[4].d, fs[5].d, fs[6].d, fs[7].d)
  }

  function DirentOf(fs: seq<Field>): Dirent
    requires KindsOf(fs) == DIRENT_KINDS
  {
    Has(fs, DIRENT_KINDS);
    Dirent(Qid(fs[0].b, fs[1].w, fs[2].d), fs[3].d, fs[4].b, fs[5].s)
  }

  lemma Has(fs: seq<Field>, ks: seq<Kind>)
    requires KindsOf(fs) == ks
    ensures |fs| == |ks| && forall i | 0 <= i < |fs| :: KindOf(fs[i]) == ks[i]
  {
    assert forall i | 0 <= i < |fs| :: KindsOf(fs)[i] == KindOf(fs[i]);
  }

  // ---- parts of a message ------------------------------------------------------------------

  datatype Part =
    | F(f: Field)
    | QidPart(qid: Qid)
    | AttrMaskPart(attrMask: AttrMask)
    | AttrPart(attr: Attr)
    | SetAttrMaskPart(setAttrMask: SetAttrMask)
    | SetAttrPart(setAttr: SetAttr)
    | FsStatPart(stat: FsStat)
    | AuthPart(auth: Auth)
    | DirentPart(dirent: Dirent)

  datatype PartKind = K(k: Kind) | KQid | KAttrMask | KAttr | KSetAttrMask | KSetAttr | KFsStat | KAuth | KDirent

  function PartKindOf(p: Part): PartKind
  {
    match p
    case F(f) => K(KindOf(f))
    case QidPart(_) => KQid
    case AttrMaskPart(_) => KAttrMask
    case AttrPart(_) => KAttr
    case SetAttrMaskPart(_) => KSetAttrMask
    case SetAttrPart(_) => KSetAttr
    case FsStatPart(_) => KFsStat
    case AuthPart(_) => KAuth
    case DirentPart(_) => KDirent
  }

  function Fields(p: Part): seq<Field>
  {
    match p
    case F(f) => [f]
    case QidPart(q) => QidFields(q)
    case AttrMaskPart(m) => [U64(AttrBits(m))]
    case AttrPart(a) => AttrFields(a)
    case SetAttrMaskPart(m) => [U32(SetAttrBits(m))]
    case SetAttrPart(s) => SetAttrFields(s)
    case FsStatPart(f) => FsStatFields(f)
    case AuthPart(a) => AuthFields(a)
    case DirentPart(d) => DirentFields(d)
  }

  function FieldKinds(k: PartKind): seq<Kind>
  {
    match k
    case K(k) => [k]
    case KQid => QID_KINDS
    case KAttrMask => [KU64]
    case KAttr => ATTR_KINDS
    case KSetAttrMask => [KU32]
    case KSetAttr => SETATTR_KINDS
    case KFsStat => FSSTAT_KINDS
    case KAuth => AUTH_KINDS
    case KDirent => DIRENT_KINDS
  }

  function PartOf(k: PartKind, fs: seq<Field>): (p: Part)
    requires KindsOf(fs) == FieldKinds(k)
    ensures PartKindOf(p) == k
  {
    Has(fs, FieldKinds(k));
    match k
    case K(_) => F(fs[0])
    case KQid => QidPart(QidOf(fs))
    case KAttrMask => AttrMaskPart(AttrMaskOf(fs[0].d))
    case KAttr => AttrPart(AttrOf(fs))
    case KSetAttrMask => SetAttrMaskPart(SetAttrMaskOf(fs[0].w))
    case KSetAttr => SetAttrPart(SetAttrOf(fs))
    case KFsStat => FsStatPart(FsStatOf(fs))
    case KAuth => AuthPart(AuthOf(fs))
    case KDirent => DirentPart(DirentOf(fs))
  }

  lemma PartShape(p: Part)
    ensures KindsOf(Fields(p)) == FieldKinds(PartKindOf(p))
  {
    hide Bits, AttrBits, SetAttrBits;
    match p
    case AttrPart(a) => AttrShape(a);
    case _ =>
  }

  lemma AttrShape(a: Attr)
    ensures KindsOf(AttrFields(a)) == ATTR_KINDS
  {
  }

  /** Reading a part's members back in order rebuilds the part. */
  lemma PartRebuilt(p: Part)
    ensures KindsOf(Fields(p)) == FieldKinds(PartKindOf(p)) && PartOf(PartKindOf(p), Fields(p)) == p
  {
    hide Bits, AttrBits, SetAttrBits, Bit, AttrMaskOf, SetAttrMaskOf;
    PartShape(p);
    match p
    case AttrMaskPart(m) => AttrMaskBack(m);
    case SetAttrMaskPart(m) => SetAttrMaskBack(m);
    case _ =>
  }

  // ---- writing and reading parts --------------------------------------------------------------

  function PutPart(p: Part): Bytes
  {
    PutAll(Fields(p))
  }

  function PutParts(ps: seq<Part>): Bytes
  {
    if ps == [] then [] else PutPart(ps[0]) + PutParts(ps[1..])
  }

  function GetPart(k: PartKind, b: Buf): (r: (Part, Buf))
    ensures PartKindOf(r.0) == k
  {
    var (fs, b') := GetAll(FieldKinds(k), b);
    (PartOf(k, fs), b')
  }

  function GetParts(ks: seq<PartKind>, b: Buf): (r: (seq<Part>, Buf))
    ensures Fit(r.0, ks)
  {
    if ks == [] then ([], b)
    else
      var (p, b1) := GetPart(ks[0], b);
      var (ps, b2) := GetParts(ks[1..], b1);
      ([p] + ps, b2)
  }

  /** The parts are of these kinds, in this order. */
  predicate Fit(ps: seq<Part>, ks: seq<PartKind>)
  {
    |ps| == |ks| && forall i | 0 <= i < |ps| :: PartKindOf(ps[i]) == ks[i]
  }

  predicate PartCounted(p: Part)
  {
    forall f | f in Fields(p) :: Counted(f)
  }

  /** What a reader makes of a part whose lengths fit. */
  function NarrowPart(p: Part): Part
  {
    match p
    case F(f) => F(Narrow(f))
    case SetAttrPart(s) => SetAttrPart(s.(permissions := s.permissions % PERMISSIONS))
    case AuthPart(a) => AuthPart(a.(afid := a.afid % 0x1_0000_0000))
    case _ => p
  }

  function NarrowParts(ps: seq<Part>): (r: seq<Part>)
    ensures |r| == |ps| && forall i | 0 <= i < |ps| :: r[i] == NarrowPart(ps[i])
  {
    if ps == [] then [] else [NarrowPart(ps[0])] + NarrowParts(ps[1..])
  }

  lemma NarrowFields(p: Part)
    ensures NarrowAll(Fields(p)) == Fields(NarrowPart(p)) && PartKindOf(NarrowPart(p)) == PartKindOf(p)
  {
    hide NarrowAll, Bits, AttrBits, SetAttrBits;
  }

  lemma PartBack(p: Part, rest: Bytes)
    requires PartCounted(p)
    ensures GetPart(PartKindOf(p), Buf(PutPart(p) + rest, false)) == (NarrowPart(p), Buf(rest, false))
  {
    hide Fields, PutAll, GetAll, PartOf, NarrowPart, FieldKinds, PartKindOf;
    PartShape(p);
    FieldsBack(Fields(p), rest);
    NarrowFields(p);
    PartRebuilt(NarrowPart(p));
  }

  lemma {:induction false} PartsBack(ps: seq<Part>, ks: seq<PartKind>, rest: Bytes)
    requires Fit(ps, ks) && forall p | p in ps :: PartCounted(p)
    ensures GetParts(ks, Buf(PutParts(ps) + rest, false)) == (NarrowParts(ps), Buf(rest, false))
  {
    hide GetPart, PutPart, NarrowPart, PartCounted;
    if ps == [] {
      assert PutParts(ps) + rest == rest;
    } else {
      assert PutParts(ps) + rest == PutPart(ps[0]) + (PutParts(ps[1..]) + rest);
      PartBack(ps[0], PutParts(ps[1..]) + rest);
      PartsBack(ps[1..], ks[1..], rest);
    }
  }

  lemma {:induction false} GetPartsMore(ks: seq<PartKind>, b: Buf, more: Bytes)
    requires !GetParts(ks, b).1.overflow
    ensures !b.overflow
    ensures GetParts(ks, Buf(b.data + more, b.overflow))
              == (GetParts(ks, b).0, Buf(GetParts(ks, b).1.data + more, false))
  {
    hide GetAll, PartOf, FieldKinds;
    if ks != [] {
      GetPartsMore(ks[1..], GetPart(ks[0], b).1, more);
      GetAllMore(FieldKinds(ks[0]), b, more);
    }
  }

  /** Every strict prefix of an encoding overruns. */
  lemma PrefixOverruns(ps: seq<Part>, ks: seq<PartKind>, n: nat)
    requires Fit(ps, ks) && (forall p | p in ps :: PartCounted(p)) && n < |PutParts(ps)|
    ensures GetParts(ks, Buf(PutParts(ps)[..n], false)).1.overflow
  {
    hide GetParts, PutParts, Fit, PartCounted;
    var p, more := PutParts(ps)[..n], PutParts(ps)[n..];
    if !GetParts(ks, Buf(p, false)).1.overflow {
      GetPartsMore(ks, Buf(p, false), more);
      assert p + more == PutParts(ps) + [];
      PartsBack(ps, ks, []);
    }
  }

  /** A mark once set stays set. */
  lemma Sticky(ks: seq<PartKind>, b: Buf)
    requires b.overflow
    ensures GetParts(ks, b).1.overflow
  {
    if !GetParts(ks, b).1.overflow {
      GetPartsMore(ks, b, []);
    }
  }
}
