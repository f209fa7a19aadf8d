/** The messages of 9P2000.L, with the extensions for walking with attributes and for creating as a user:
    what each encoder writes, what each decoder expects, and how a decoder fills its message. */
module Messages {
  import opened Options
  import opened Wire
  import opened Records

  datatype Message =
    | Rlerror(error: u32)
    | Tstatfs(fid: u64)
    | Rstatfs(stat: FsStat)
    | Tlopen(fid: u64, flags: u32)
    | Rlopen(qid: Qid, ioUnit: u32)
    | Tlcreate(fid: u64, name: Bytes, flags: u32, permissions: u32, gid: u32)
    | Rlcreate(qid: Qid, ioUnit: u32)
    | Tsymlink(directory: u64, name: Bytes, target: Bytes, gid: u32)
    | Rsymlink(qid: Qid)
    | Tmknod(directory: u64, name: Bytes, mode: u32, major: u32, minor: u32, gid: u32)
    | Rmknod(qid: Qid)
    | Trename(fid: u64, directory: u64, name: Bytes)
    | Rrename
    | Treadlink(fid: u64)
    | Rreadlink(target: Bytes)
    | Tgetattr(fid: u64, mask: AttrMask)
    | Rgetattr(valid: AttrMask, qid: Qid, attr: Attr)
    | Tsetattr(fid: u64, setValid: SetAttrMask, setAttr: SetAttr)
    | Rsetattr
    | Txattrwalk(fid: u64, newFid: u64, name: Bytes)
    | Rxattrwalk(size: u64)
    | Txattrcreate(fid: u64, name: Bytes, size: u64, flags: u32)
    | Rxattrcreate
    | Treaddir(directory: u64, offset: u64, count: u32)
    | Rreaddir(count: u32, entries: seq<Dirent>)
    | Tfsync(fid: u64)
    | Rfsync
    | Tlock(fid: u64, lockType: byte, flags: u32, start: u64, length: u64, pid: i32, client: Bytes)
    | Rlock(status: byte)
    | Tlink(directory: u64, targetFid: u64, name: Bytes)
    | Rlink
    | Tmkdir(directory: u64, name: Bytes, permissions: u32, gid: u32)
    | Rmkdir(qid: Qid)
    | Trenameat(oldDirectory: u64, oldName: Bytes, newDirectory: u64, newName: Bytes)
    | Rrenameat
    | Tunlinkat(directory: u64, name: Bytes, flags: u32)
    | Runlinkat
    | Tversion(msize: u32, version: Bytes)
    | Rversion(msize: u32, version: Bytes)
    | Tauth(auth: Auth)
    | Rauth(qid: Qid)
    | Tattach(fid: u64, auth: Auth)
    | Rattach(qid: Qid)
    | Tflush(oldTag: u16)
    | Rflush
    | Twalk(fid: u64, newFid: u64, names: seq<Bytes>)
    | Rwalk(qids: seq<Qid>)
    | Tread(fid: u64, offset: u64, count: u32)
    | Rread(data: Bytes)
    | Twrite(fid: u64, offset: u64, data: Bytes)
    | Rwrite(count: u32)
    | Tclunk(fid: u64)
    | Rclunk
    | Tremove(fid: u64)
    | Rremove
    | Twalkgetattr(fid: u64, newFid: u64, names: seq<Bytes>)
    | Rwalkgetattr(valid: AttrMask, attr: Attr, qids: seq<Qid>)
    | Tucreate(fid: u64, name: Bytes, flags: u32, permissions: u32, gid: u32, uid: u32)
    | Rucreate(qid: Qid, ioUnit: u32)
    | Tumkdir(directory: u64, name: Bytes, permissions: u32, gid: u32, uid: u32)
    | Rumkdir(qid: Qid)
    | Tumknod(directory: u64, name: Bytes, mode: u32, major: u32, minor: u32, gid: u32, uid: u32)
    | Rumknod(qid: Qid)
    | Tusymlink(directory: u64, name: Bytes, target: Bytes, gid: u32, uid: u32)
    | Rusymlink(qid: Qid)

  function Type(m: Message): byte
  {
    match m
    case Rlerror(_) => 7
    case Tstatfs(_) => 8
    case Rstatfs(_) => 9
    case Tlopen(_, _) => 12
    case Rlopen(_, _) => 13
    case Tlcreate(_, _, _, _, _) => 14
    case Rlcreate(_, _) => 15
    case Tsymlink(_, _, _, _) => 16
    case Rsymlink(_) => 17
    case Tmknod(_, _, _, _, _, _) => 18
    case Rmknod(_) => 19
    case Trename(_, _, _) => 20
    case Rrename => 21
    case Treadlink(_) => 22
    case Rreadlink(_) => 23
    case Tgetattr(_, _) => 24
    case Rgetattr(_, _, _) => 25
    case Tsetattr(_, _, _) => 26
    case Rsetattr => 27
    case Txattrwalk(_, _, _) => 30
    case Rxattrwalk(_) => 31
    case Txattrcreate(_, _, _, _) => 32
    case Rxattrcreate => 33
    case Treaddir(_, _, _) => 40
    case Rreaddir(_, _) => 41
    case Tfsync(_) => 50
    case Rfsync => 51
    case Tlock(_, _, _, _, _, _, _) => 52
    case Rlock(_) => 53
    case Tlink(_, _, _) => 70
    case Rlink => 71
    case Tmkdir(_, _, _, _) => 72
    case Rmkdir(_) => 73
    case Trenameat(_, _, _, _) => 74
    case Rrenameat => 75
    case Tunlinkat(_, _, _) => 76
    case Runlinkat => 77
    case Tversion(_, _) => 100
    case Rversion(_, _) => 101
    case Tauth(_) => 102
    case Rauth(_) => 103
    case Tattach(_, _) => 104
    case Rattach(_) => 105
    case Tflush(_) => 108
    case Rflush => 109
    case Twalk(_, _, _) => 110
    case Rwalk(_) => 111
    case Tread(_, _, _) => 116
    case Rread(_) => 117
    case Twrite(_, _, _) => 118
    case Rwrite(_) => 119
    case Tclunk(_) => 120
    case Rclunk => 121
    case Tremove(_) => 122
    case Rremove => 123
    case Twalkgetattr(_, _, _) => 126
    case Rwalkgetattr(_, _, _) => 127
    case Tucreate(_, _, _, _, _, _) => 128
    case Rucreate(_, _) => 129
    case Tumkdir(_, _, _, _, _) => 130
    case Rumkdir(_) => 131
    case Tumknod(_, _, _, _, _, _, _) => 132
    case Rumknod(_) => 133
    case Tusymlink(_, _, _, _, _) => 134
    case Rusymlink(_) => 135
  }

  // ---- encoders -------------------------------------------------------------------------

  function PutDirents(ds: seq<Dirent>): Bytes
  {
    if ds == [] then [] else PutPart(DirentPart(ds[0])) + PutDirents(ds[1..])
  }

  /** How many entries an Rreaddir carries: encoding stops at the first that would exceed `count` bytes. */
  function Fitting(count: nat, ds: seq<Dirent>, n: nat): (k: nat)
    requires n <= |ds|
    ensures n <= k <= |ds|
    decreases |ds| - n
  {
    if n == |ds| || |PutDirents(ds[..n + 1])| > count then n else Fitting(count, ds, n + 1)
  }

  /** The bytes that travel after the fixed part. */
  function Payload(m: Message): Option<Bytes>
  {
    match m
    case Rread(data) => Some(data)
    case Twrite(_, _, data) => Some(data)
    case Rreaddir(count, entries) => Some(PutDirents(entries[..Fitting(count, entries, 0)]))
    case _ => None
  }

  function PayloadOf(m: Message): Bytes
  {
    if Payload(m).Some? then Payload(m).value else []
  }

  function ToParts(m: Message): seq<Part>
  {
    match m
    case Rlerror(error) => [F(U32(error))]
    case Tstatfs(fid) => [F(Fid(fid))]
    case Rstatfs(stat) => [FsStatPart(stat)]
    case Tlopen(fid, flags) => [F(Fid(fid)), F(U32(flags))]
    case Rlopen(qid, ioUnit) => [QidPart(qid), F(U32(ioUnit))]
    case Tlcreate(fid, name, flags, permissions, gid) =>
      [F(Fid(fid)), F(Str(name)), F(U32(flags)), F(Perm(permissions)), F(U32(gid))]
    case Rlcreate(qid, ioUnit) => [QidPart(qid), F(U32(ioUnit))]
    case Tsymlink(directory, name, target, gid) => [F(Fid(directory)), F(Str(name)), F(Str(target)), F(U32(gid))]
    case Rsymlink(qid) => [QidPart(qid)]
    case Tmknod(directory, name, mode, major, minor, gid) =>
      [F(Fid(directory)), F(Str(name)), F(U32(mode)), F(U32(major)), F(U32(minor)), F(U32(gid))]
    case Rmknod(qid) => [QidPart(qid)]
    case Trename(fid, directory, name) => [F(Fid(fid)), F(Fid(directory)), F(Str(name))]
    case Rrename => []
    case Treadlink(fid) => [F(Fid(fid))]
    case Rreadlink(target) => [F(Str(target))]
    case Tgetattr(fid, mask) => [F(Fid(fid)), AttrMaskPart(mask)]
    case Rgetattr(valid, qid, attr) => [AttrMaskPart(valid), QidPart(qid), AttrPart(attr)]
    case Tsetattr(fid, setValid, setAttr) => [F(Fid(fid)), SetAttrMaskPart(setValid), SetAttrPart(setAttr)]
    case Rsetattr => []
    case Txattrwalk(fid, newFid, name) => [F(Fid(fid)), F(Fid(newFid)), F(Str(name))]
    case Rxattrwalk(size) => [F(U64(size))]
    case Txattrcreate(fid, name, size, flags) => [F(Fid(fid)), F(Str(name)), F(U64(size)), F(U32(flags))]
    case Rxattrcreate => []
    case Treaddir(directory, offset, count) => [F(Fid(directory)), F(U64(offset)), F(U32(count))]
    case Tfsync(fid) => [F(Fid(fid))]
    case Rfsync => []
    case Tlock(fid, lockType, flags, start, length, pid, client) =>
      [F(Fid(fid)), F(U8(lockType)), F(U32(flags)), F(U64(start)), F(U64(length)), F(I32(pid)), F(Str(client))]
    case Rlock(status) => [F(U8(status))]
    case Tlink(directory, targetFid, name) => [F(Fid(directory)), F(Fid(targetFid)), F(Str(name))]
    case Rlink => []
    case Tmkdir(directory, name, permissions, gid) =>
      [F(Fid(directory)), F(Str(name)), F(Perm(permissions)), F(U32(gid))]
    case Rmkdir(qid) => [QidPart(qid)]
    case Trenameat(oldDirectory, oldName, newDirectory, newName) =>
      [F(Fid(oldDirectory)), F(Str(oldName)), F(Fid(newDirectory)), F(Str(newName))]
    case Rrenameat => []
    case Tunlinkat(directory, name, flags) => [F(Fid(directory)), F(Str(name)), F(U32(flags))]
    case Runlinkat => []
    case Tversion(msize, version) => [F(U32(msize)), F(Str(version))]
    case Rversion(msize, version) => [F(U32(msize)), F(Str(version))]
    case Tauth(auth) => [AuthPart(auth)]
    case Rauth(qid) => [QidPart(qid)]
    case Tattach(fid, auth) => [F(Fid(fid)), AuthPart(auth)]
    case Rattach(qid) => [QidPart(qid)]
    case Tflush(oldTag) => [F(U16(oldTag))]
    case Rflush => []
    case Twalk(fid, newFid, names) => [F(Fid(fid)), F(Fid(newFid)), F(Strs(names))]
    case Rwalk(qids) => [F(Qids(qids))]
    case Tread(fid, offset, count) => [F(Fid(fid)), F(U64(offset)), F(U32(count))]
    case Rwrite(count) => [F(U32(count))]
    case Tclunk(fid) => [F(Fid(fid))]
    case Rclunk => []
    case Tremove(fid) => [F(Fid(fid))]
    case Rremove => []
    case Twalkgetattr(fid, newFid, names) => [F(Fid(fid)), F(Fid(newFid)), F(Strs(names))]
    case Rwalkgetattr(valid, attr, qids) => [AttrMaskPart(valid), AttrPart(attr), F(Qids(qids))]
    case Tucreate(fid, name, flags, permissions, gid, uid) =>
      [F(Fid(fid)), F(Str(name)), F(U32(flags)), F(Perm(permissions)), F(U32(gid)), F(U32(uid))]
    case Rucreate(qid, ioUnit) => [QidPart(qid), F(U32(ioUnit))]
    case Tumkdir(directory, name, permissions, gid, uid) =>
      [F(Fid(directory)), F(Str(name)), F(Perm(permissions)), F(U32(gid)), F(U32(uid))]
    case Rumkdir(qid) => [QidPart(qid)]
    case Tumknod(directory, name, mode, major, minor, gid, uid) =>
      [F(Fid(directory)), F(Str(name)), F(U32(mode)), F(U32(major)), F(U32(minor)), F(U32(gid)), F(U32(uid))]
    case Rumknod(qid) => [QidPart(qid)]
    case Tusymlink(directory, name, target, gid, uid) =>
      [F(Fid(directory)), F(Str(name)), F(Str(target)), F(U32(gid)), F(U32(uid))]
    case Rusymlink(qid) => [QidPart(qid)]
    case Rread(data) => [F(U32(|data| % 0x1_0000_0000))]
    case Twrite(fid, offset, data) => [F(Fid(fid)), F(U64(offset)), F(U32(|data| % 0x1_0000_0000))]
    case Rreaddir(_, _) => [F(U32(|PayloadOf(m)| % 0x1_0000_0000))]
  }

  // ---- decoders -------------------------------------------------------------------------

  function OpenKinds(t: byte): Option<seq<PartKind>>
  {
    match t
    case 7 => Some([K(KU32)])
    case 8 => Some([K(KFid)])
    case 9 => Some([KFsStat])
    case 12 => Some([K(KFid), K(KU32)])
    case 13 => Some([KQid, K(KU32)])
    case 14 => Some([K(KFid), K(KStr), K(KU32), K(KPerm), K(KU32)])
    case 15 => Some([KQid, K(KU32)])
    case _ => None
  }

  function NodeKinds(t: byte): Option<seq<PartKind>>
  {
    match t
    case 16 => Some([K(KFid), K(KStr), K(KStr), K(KU32)])
    case 17 => Some([KQid])
    case 18 => Some([K(KFid), K(KStr), K(KU32), K(KU32), K(KU32), K(KU32)])
    case 19 => Some([KQid])
    case 20 => Some([K(KFid), K(KFid), K(KStr)])
    case 21 => Some([])
    case _ => None
  }

  function AttrKinds(t: byte): Option<seq<PartKind>>
  {
    match t
    case 22 => Some([K(KFid)])
    case 23 => Some([K(KStr)])
    case 24 => Some([K(KFid), KAttrMask])
    case 25 => Some([KAttrMask, KQid, KAttr])
    case 26 => Some([K(KFid), KSetAttrMask, KSetAttr])
    case 27 => Some([])
    case _ => None
  }

  function DirKinds(t: byte): Option<seq<PartKind>>
  {
    match t
    case 30 => Some([K(KFid), K(KFid), K(KStr)])
    case 31 => Some([K(KU64)])
    case 32 => Some([K(KFid), K(KStr), K(KU64), K(KU32)])
    case 33 => Some([])
    case 40 => Some([K(KFid), K(KU64), K(KU32)])
    case 41 => Some([K(KU32)])
    case _ => None
  }

  function LockKinds(t: byte): Option<seq<PartKind>>
  {
    match t
    case 50 => Some([K(KFid)])
    case 51 => Some([])
    case 52 => Some([K(KFid), K(KU8), K(KU32), K(KU64), K(KU64), K(KI32), K(KStr)])
    case 53 => Some([K(KU8)])
    case 70 => Some([K(KFid), K(KFid), K(KStr)])
    case 71 => Some([])
    case _ => None
  }

  function LinkKinds(t: byte): Option<seq<PartKind>>
  {
    match t
    case 72 => Some([K(KFid), K(KStr), K(KPerm), K(KU32)])
    case 73 => Some([KQid])
    case 74 => Some([K(KFid), K(KStr), K(KFid), K(KStr)])
    case 75 => Some([])
    case 76 => Some([K(KFid), K(KStr), K(KU32)])
    case 77 => Some([])
    case _ => None
  }

  function SessionKinds(t: byte): Option<seq<PartKind>>
  {
    match t
    case 100 => Some([K(KU32), K(KStr)])
    case 101 => Some([K(KU32), K(KStr)])
    case 102 => Some([KAuth])
    case 103 => Some([KQid])
    case 104 => Some([K(KFid), KAuth])
    case 105 => Some([KQid])
    case _ => None
  }

  function WalkKinds(t: byte): Option<seq<PartKind>>
  {
    match t
    case 108 => Some([K(KU16)])
    case 109 => Some([])
    case 110 => Some([K(KFid), K(KFid), K(KStrs)])
    case 111 => Some([K(KQids)])
    case 116 => Some([K(KFid), K(KU64), K(KU32)])
    case 117 => Some([K(KU32)])
    case _ => None
  }

  function IoKinds(t: byte): Option<seq<PartKind>>
  {
    match t
    case 118 => Some([K(KFid), K(KU64), K(KU32)])
    case 119 => Some([K(KU32)])
    case 120 => Some([K(KFid)])
    case 121 => Some([])
    case 122 => Some([K(KFid)])
    case 123 => Some([])
    case _ => None
  }

  function ExtraKinds(t: byte): Option<seq<PartKind>>
  {
    match t
    case 126 => Some([K(KFid), K(KFid), K(KStrs)])
    case 127 => Some([KAttrMask, KAttr, K(KQids)])
    case 128 => Some([K(KFid), K(KStr), K(KU32), K(KPerm), K(KU32), K(KU32)])
    case 129 => Some([KQid, K(KU32)])
    case _ => None
  }

  function MakeKinds(t: byte): Option<seq<PartKind>>
  {
    match t
    case 130 => Some([K(KFid), K(KStr), K(KPerm), K(KU32), K(KU32)])
    case 131 => Some([KQid])
    case 132 => Some([K(KFid), K(KStr), K(KU32), K(KU32), K(KU32), K(KU32), K(KU32)])
    case _ => None
  }

  function UserKinds(t: byte): Option<seq<PartKind>>
  {
    match t
    case 133 => Some([KQid])
    case 134 => Some([K(KFid), K(KStr), K(KStr), K(KU32), K(KU32)])
    case 135 => Some([KQid])
    case _ => None
  }

  /** What the decoder of a registered message type reads; None when the type is not registered. */
  function Kinds(t: byte): Option<seq<PartKind>>
  {
    if t < 16 then OpenKinds(t)
    else if t < 22 then NodeKinds(t)
    else if t < 30 then AttrKinds(t)
    else if t < 50 then DirKinds(t)
    else if t < 72 then LockKinds(t)
    else if t < 100 then LinkKinds(t)
    else if t < 108 then SessionKinds(t)
    else if t < 118 then WalkKinds(t)
    else if t < 124 then IoKinds(t)
    else if t < 130 then ExtraKinds(t)
    else if t < 133 then MakeKinds(t)
    else UserKinds(t)
  }

  predicate Fits(t: byte, ps: seq<Part>)
  {
    Kinds(t).Some? && Fit(ps, Kinds(t).value)
  }

  /** The entries of a directory payload: decoding stops at the first that overruns. */
  function GetDirents(b: Buf): (ds: seq<Dirent>)
    decreases |b.data|
  {
    var (p, b') := GetPart(KDirent, b);
    if b'.overflow || |b'.data| >= |b.data| then [] else [p.dirent] + GetDirents(b')
  }

  function OpenFrom(t: byte, ps: seq<Part>, payload: Bytes): Message
    requires Fits(t, ps) && 0 <= t < 16
  {
    match t
    case 7 => Rlerror(ps[0].f.w)
    case 8 => Tstatfs(ps[0].f.fid)
    case 9 => Rstatfs(ps[0].stat)
    case 12 => Tlopen(ps[0].f.fid, ps[1].f.w)
    case 13 => Rlopen(ps[0].qid, ps[1].f.w)
    case 14 => Tlcreate(ps[0].f.fid, ps[1].f.s, ps[2].f.w, ps[3].f.perm, ps[4].f.w)
    case 15 => Rlcreate(ps[0].qid, ps[1].f.w)
  }

  function NodeFrom(t: byte, ps: seq<Part>, payload: Bytes): Message
    requires Fits(t, ps) && 16 <= t < 22
  {
    match t
    case 16 => Tsymlink(ps[0].f.fid, ps[1].f.s, ps[2].f.s, ps[3].f.w)
    case 17 => Rsymlink(ps[0].qid)
    case 18 => Tmknod(ps[0].f.fid, ps[1].f.s, ps[2].f.w, ps[3].f.w, ps[4].f.w, ps[5].f.w)
    case 19 => Rmknod(ps[0].qid)
    case 20 => Trename(ps[0].f.fid, ps[1].f.fid, ps[2].f.s)
    case 21 => Rrename
  }

  function AttrFrom(t: byte, ps: seq<Part>, payload: Bytes): Message
    requires Fits(t, ps) && 22 <= t < 30
  {
    match t
    case 22 => Treadlink(ps[0].f.fid)
    case 23 => Rreadlink(ps[0].f.s)
    case 24 => Tgetattr(ps[0].f.fid, ps[1].attrMask)
    case 25 => Rgetattr(ps[0].attrMask, ps[1].qid, ps[2].attr)
    case 26 => Tsetattr(ps[0].f.fid, ps[1].setAttrMask, ps[2].setAttr)
    case 27 => Rsetattr
  }

  function DirFrom(t: byte, ps: seq<Part>, payload: Bytes): Message
    requires Fits(t, ps) && 30 <= t < 50
  {
    match t
    case 30 => Txattrwalk(ps[0].f.fid, ps[1].f.fid, ps[2].f.s)
    case 31 => Rxattrwalk(ps[0].f.d)
    case 32 => Txattrcreate(ps[0].f.fid, ps[1].f.s, ps[2].f.d, ps[3].f.w)
    case 33 => Rxattrcreate
    case 40 => Treaddir(ps[0].f.fid, ps[1].f.d, ps[2].f.w)
    case 41 => Rreaddir(ps[0].f.w, GetDirents(Buf(payload, false)))
  }

  function LockFrom(t: byte, ps: seq<Part>, payload: Bytes): Message
    requires Fits(t, ps) && 50 <= t < 72
  {
    match t
    case 50 => Tfsync(ps[0].f.fid)
    case 51 => Rfsync
    case 52 => Tlock(ps[0].f.fid, ps[1].f.b, ps[2].f.w, ps[3].f.d, ps[4].f.d, ps[5].f.i, ps[6].f.s)
    case 53 => Rlock(ps[0].f.b)
    case 70 => Tlink(ps[0].f.fid, ps[1].f.fid, ps[2].f.s)
    case 71 => Rlink
  }

  function LinkFrom(t: byte, ps: seq<Part>, payload: Bytes): Message
    requires Fits(t, ps) && 72 <= t < 100
  {
    match t
    case 72 => Tmkdir(ps[0].f.fid, ps[1].f.s, ps[2].f.perm, ps[3].f.w)
    case 73 => Rmkdir(ps[0].qid)
    case 74 => Trenameat(ps[0].f.fid, ps[1].f.s, ps[2].f.fid, ps[3].f.s)
    case 75 => Rrenameat
    case 76 => Tunlinkat(ps[0].f.fid, ps[1].f.s, ps[2].f.w)
    case 77 => Runlinkat
  }

  function SessionFrom(t: byte, ps: seq<Part>, payload: Bytes): Message
    requires Fits(t, ps) && 100 <= t < 108
  {
    match t
    case 100 => Tversion(ps[0].f.w, ps[1].f.s)
    case 101 => Rversion(ps[0].f.w, ps[1].f.s)
    case 102 => Tauth(ps[0].auth)
    case 103 => Rauth(ps[0].qid)
    case 104 => Tattach(ps[0].f.fid, ps[1].auth)
    case 105 => Rattach(ps[0].qid)
  }

  function WalkFrom(t: byte, ps: seq<Part>, payload: Bytes): Message
    requires Fits(t, ps) && 108 <= t < 118
  {
    match t
    case 108 => Tflush(ps[0].f.h)
    case 109 => Rflush
    case 110 => Twalk(ps[0].f.fid, ps[1].f.fid, ps[2].f.ss)
    case 111 => Rwalk(ps[0].f.qs)
    case 116 => Tread(ps[0].f.fid, ps[1].f.d, ps[2].f.w)
    case 117 => Rread(payload)
  }

  function IoFrom(t: byte, ps: seq<Part>, payload: Bytes): Message
    requires Fits(t, ps) && 118 <= t < 124
  {
    match t
    case 118 => Twrite(ps[0].f.fid, ps[1].f.d, payload)
    case 119 => Rwrite(ps[0].f.w)
    case 120 => Tclunk(ps[0].f.fid)
    case 121 => Rclunk
    case 122 => Tremove(ps[0].f.fid)
    case 123 => Rremove
  }

  function ExtraFrom(t: byte, ps: seq<Part>, payload: Bytes): Message
    requires Fits(t, ps) && 124 <= t < 130
  {
    match t
    case 126 => Twalkgetattr(ps[0].f.fid, ps[1].f.fid, ps[2].f.ss)
    case 127 => Rwalkgetattr(ps[0].attrMask, ps[1].attr, ps[2].f.qs)
    case 128 => Tucreate(ps[0].f.fid, ps[1].f.s, ps[2].f.w, ps[3].f.perm, ps[4].f.w, ps[5].f.w)
    case 129 => Rucreate(ps[0].qid, ps[1].f.w)
  }

  function MakeFrom(t: byte, ps: seq<Part>, payload: Bytes): Message
    requires Fits(t, ps) && 130 <= t < 133
  {
    match t
    case 130 => Tumkdir(ps[0].f.fid, ps[1].f.s, ps[2].f.perm, ps[3].f.w, ps[4].f.w)
    case 131 => Rumkdir(ps[0].qid)
    case 132 => Tumknod(ps[0].f.fid, ps[1].f.s, ps[2].f.w, ps[3].f.w, ps[4].f.w, ps[5].f.w, ps[6].f.w)
  }

  function UserFrom(t: byte, ps: seq<Part>, payload: Bytes): Message
    requires Fits(t, ps) && 133 <= t < 256
  {
    match t
    case 133 => Rumknod(ps[0].qid)
    case 134 => Tusymlink(ps[0].f.fid, ps[1].f.s, ps[2].f.s, ps[3].f.w, ps[4].f.w)
    case 135 => Rusymlink(ps[0].qid)
  }

  /** How the decoder of type `t` fills its message. */
  function FromParts(t: byte, ps: seq<Part>, payload: Bytes): Message
    requires Fits(t, ps)
  {
    if t < 16 then OpenFrom(t, ps, payload)
    else if t < 22 then NodeFrom(t, ps, payload)
    else if t < 30 then AttrFrom(t, ps, payload)
    else if t < 50 then DirFrom(t, ps, payload)
    else if t < 72 then LockFrom(t, ps, payload)
    else if t < 100 then LinkFrom(t, ps, payload)
    else if t < 108 then SessionFrom(t, ps, payload)
    else if t < 118 then WalkFrom(t, ps, payload)
    else if t < 124 then IoFrom(t, ps, payload)
    else if t < 130 then ExtraFrom(t, ps, payload)
    else if t < 133 then MakeFrom(t, ps, payload)
    else UserFrom(t, ps, payload)
  }

  // ---- encoder and decoder agree on every message -------------------------------------------

  lemma OpenShape(m: Message)
    requires 0 <= Type(m) < 16
    ensures Fits(Type(m), ToParts(m))
  {
    hide Payload, PayloadOf, NodeKinds, AttrKinds, DirKinds, LockKinds, LinkKinds, SessionKinds, WalkKinds, IoKinds;
    hide ExtraKinds, MakeKinds, UserKinds;
  }

  lemma NodeShape(m: Message)
    requires 16 <= Type(m) < 22
    ensures Fits(Type(m), ToParts(m))
  {
    hide Payload, PayloadOf, OpenKinds, AttrKinds, DirKinds, LockKinds, LinkKinds, SessionKinds, WalkKinds, IoKinds;
    hide ExtraKinds, MakeKinds, UserKinds;
  }

  lemma AttrShape(m: Message)
    requires 22 <= Type(m) < 30
    ensures Fits(Type(m), ToParts(m))
  {
    hide Payload, PayloadOf, OpenKinds, NodeKinds, DirKinds, LockKinds, LinkKinds, SessionKinds, WalkKinds, IoKinds;
    hide ExtraKinds, MakeKinds, UserKinds;
  }

  lemma DirShape(m: Message)
    requires 30 <= Type(m) < 50
    ensures Fits(Type(m), ToParts(m))
  {
    hide Payload, PayloadOf, OpenKinds, NodeKinds, AttrKinds, LockKinds, LinkKinds, SessionKinds, WalkKinds, IoKinds;
    hide ExtraKinds, MakeKinds, UserKinds;
  }

  lemma LockShape(m: Message)
    requires 50 <= Type(m) < 72
    ensures Fits(Type(m), ToParts(m))
  {
    hide Payload, PayloadOf, OpenKinds, NodeKinds, AttrKinds, DirKinds, LinkKinds, SessionKinds, WalkKinds, IoKinds;
    hide ExtraKinds, MakeKinds, UserKinds;
  }

  lemma LinkShape(m: Message)
    requires 72 <= Type(m) < 100
    ensures Fits(Type(m), ToParts(m))
  {
    hide Payload, PayloadOf, OpenKinds, NodeKinds, AttrKinds, DirKinds, LockKinds, SessionKinds, WalkKinds, IoKinds;
    hide ExtraKinds, MakeKinds, UserKinds;
  }

  lemma SessionShape(m: Message)
    requires 100 <= Type(m) < 108
    ensures Fits(Type(m), ToParts(m))
  {
    hide Payload, PayloadOf, OpenKinds, NodeKinds, AttrKinds, DirKinds, LockKinds, LinkKinds, WalkKinds, IoKinds;
    hide ExtraKinds, MakeKinds, UserKinds;
  }

  lemma WalkShape(m: Message)
    requires 108 <= Type(m) < 118
    ensures Fits(Type(m), ToParts(m))
  {
    hide Payload, PayloadOf, OpenKinds, NodeKinds, AttrKinds, DirKinds, LockKinds, LinkKinds, SessionKinds, IoKinds;
    hide ExtraKinds, MakeKinds, UserKinds;
  }

  lemma IoShape(m: Message)
    requires 118 <= Type(m) < 124
    ensures Fits(Type(m), ToParts(m))
  {
    hide Payload, PayloadOf, OpenKinds, NodeKinds, AttrKinds, DirKinds, LockKinds, LinkKinds, SessionKinds, WalkKinds;
    hide ExtraKinds, MakeKinds, UserKinds;
  }

  lemma ExtraShape(m: Message)
    requires 124 <= Type(m) < 130
    ensures Fits(Type(m), ToParts(m))
  {
    hide Payload, PayloadOf, OpenKinds, NodeKinds, AttrKinds, DirKinds, LockKinds, LinkKinds, SessionKinds, WalkKinds;
    hide IoKinds, MakeKinds, UserKinds;
  }

  lemma MakeShape(m: Message)
    requires 130 <= Type(m) < 133
    ensures Fits(Type(m), ToParts(m))
  {
    hide Payload, PayloadOf, OpenKinds, NodeKinds, AttrKinds, DirKinds, LockKinds, LinkKinds, SessionKinds, WalkKinds;
    hide IoKinds, ExtraKinds, UserKinds;
  }

  lemma UserShape(m: Message)
    requires 133 <= Type(m) < 256
    ensures Fits(Type(m), ToParts(m))
  {
    hide Payload, PayloadOf, OpenKinds, NodeKinds, AttrKinds, DirKinds, LockKinds, LinkKinds, SessionKinds, WalkKinds;
    hide IoKinds, ExtraKinds, MakeKinds;
  }

  /** Every decoder expects what its encoder writes. */
  lemma Shape(m: Message)
    ensures Fits(Type(m), ToParts(m))
  {
    hide Fits, ToParts;
    if Type(m) < 16 { OpenShape(m); }
    else if Type(m) < 22 { NodeShape(m); }
    else if Type(m) < 30 { AttrShape(m); }
    else if Type(m) < 50 { DirShape(m); }
    else if Type(m) < 72 { LockShape(m); }
    else if Type(m) < 100 { LinkShape(m); }
    else if Type(m) < 108 { SessionShape(m); }
    else if Type(m) < 118 { WalkShape(m); }
    else if Type(m) < 124 { IoShape(m); }
    else if Type(m) < 130 { ExtraShape(m); }
    else if Type(m) < 133 { MakeShape(m); }
    else { UserShape(m); }
  }

  lemma OpenBack(m: Message)
    requires 0 <= Type(m) < 16 && !m.Rreaddir? && Fits(Type(m), ToParts(m))
    ensures OpenFrom(Type(m), ToParts(m), PayloadOf(m)) == m
  {
    hide Fits, Kinds;
  }

  lemma NodeBack(m: Message)
    requires 16 <= Type(m) < 22 && !m.Rreaddir? && Fits(Type(m), ToParts(m))
    ensures NodeFrom(Type(m), ToParts(m), PayloadOf(m)) == m
  {
    hide Fits, Kinds;
  }

  lemma AttrBack(m: Message)
    requires 22 <= Type(m) < 30 && !m.Rreaddir? && Fits(Type(m), ToParts(m))
    ensures AttrFrom(Type(m), ToParts(m), PayloadOf(m)) == m
  {
    hide Fits, Kinds;
  }

  lemma DirBack(m: Message)
    requires 30 <= Type(m) < 50 && !m.Rreaddir? && Fits(Type(m), ToParts(m))
    ensures DirFrom(Type(m), ToParts(m), PayloadOf(m)) == m
  {
    hide Fits, Kinds;
  }

  lemma LockBack(m: Message)
    requires 50 <= Type(m) < 72 && !m.Rreaddir? && Fits(Type(m), ToParts(m))
    ensures LockFrom(Type(m), ToParts(m), PayloadOf(m)) == m
  {
    hide Fits, Kinds;
  }

  lemma LinkBack(m: Message)
    requires 72 <= Type(m) < 100 && !m.Rreaddir? && Fits(Type(m), ToParts(m))
    ensures LinkFrom(Type(m), ToParts(m), PayloadOf(m)) == m
  {
    hide Fits, Kinds;
  }

  lemma SessionBack(m: Message)
    requires 100 <= Type(m) < 108 && !m.Rreaddir? && Fits(Type(m), ToParts(m))
    ensures SessionFrom(Type(m), ToParts(m), PayloadOf(m)) == m
  {
    hide Fits, Kinds;
  }

  lemma WalkBack(m: Message)
    requires 108 <= Type(m) < 118 && !m.Rreaddir? && Fits(Type(m), ToParts(m))
    ensures WalkFrom(Type(m), ToParts(m), PayloadOf(m)) == m
  {
    hide Fits, Kinds;
  }

  lemma IoBack(m: Message)
    requires 118 <= Type(m) < 124 && !m.Rreaddir? && Fits(Type(m), ToParts(m))
    ensures IoFrom(Type(m), ToParts(m), PayloadOf(m)) == m
  {
    hide Fits, Kinds;
  }

  lemma ExtraBack(m: Message)
    requires 124 <= Type(m) < 130 && !m.Rreaddir? && Fits(Type(m), ToParts(m))
    ensures ExtraFrom(Type(m), ToParts(m), PayloadOf(m)) == m
  {
    hide Fits, Kinds;
  }

  lemma MakeBack(m: Message)
    requires 130 <= Type(m) < 133 && !m.Rreaddir? && Fits(Type(m), ToParts(m))
    ensures MakeFrom(Type(m), ToParts(m), PayloadOf(m)) == m
  {
    hide Fits, Kinds;
  }

  lemma UserBack(m: Message)
    requires 133 <= Type(m) < 256 && !m.Rreaddir? && Fits(Type(m), ToParts(m))
    ensures UserFrom(Type(m), ToParts(m), PayloadOf(m)) == m
  {
    hide Fits, Kinds;
  }

  /** Every decoder puts each part where the encoder took it from. */
  lemma Rebuilt(m: Message)
    requires !m.Rreaddir?
    ensures Fits(Type(m), ToParts(m))
    ensures FromParts(Type(m), ToParts(m), PayloadOf(m)) == m
  {
    hide Fits, ToParts, PayloadOf, OpenFrom, NodeFrom, AttrFrom, DirFrom, LockFrom, LinkFrom, SessionFrom, WalkFrom;
    hide IoFrom, ExtraFrom, MakeFrom, UserFrom;
    Shape(m);
    if Type(m) < 16 { OpenBack(m); }
    else if Type(m) < 22 { NodeBack(m); }
    else if Type(m) < 30 { AttrBack(m); }
    else if Type(m) < 50 { DirBack(m); }
    else if Type(m) < 72 { LockBack(m); }
    else if Type(m) < 100 { LinkBack(m); }
    else if Type(m) < 108 { SessionBack(m); }
    else if Type(m) < 118 { WalkBack(m); }
    else if Type(m) < 124 { IoBack(m); }
    else if Type(m) < 130 { ExtraBack(m); }
    else if Type(m) < 133 { MakeBack(m); }
    else { UserBack(m); }
  }

  lemma OpenAgain(t: byte, ps: seq<Part>, payload: Bytes)
    requires Fits(t, ps) && 0 <= t < 16
    ensures Type(OpenFrom(t, ps, payload)) == t && ToParts(OpenFrom(t, ps, payload)) == ps
  {
    hide Payload, PayloadOf, NodeKinds, AttrKinds, DirKinds, LockKinds, LinkKinds, SessionKinds, WalkKinds, IoKinds;
    hide ExtraKinds, MakeKinds, UserKinds;
  }

  lemma NodeAgain(t: byte, ps: seq<Part>, payload: Bytes)
    requires Fits(t, ps) && 16 <= t < 22
    ensures Type(NodeFrom(t, ps, payload)) == t && ToParts(NodeFrom(t, ps, payload)) == ps
  {
    hide Payload, PayloadOf, OpenKinds, AttrKinds, DirKinds, LockKinds, LinkKinds, SessionKinds, WalkKinds, IoKinds;
    hide ExtraKinds, MakeKinds, UserKinds;
  }

  lemma AttrAgain(t: byte, ps: seq<Part>, payload: Bytes)
    requires Fits(t, ps) && 22 <= t < 30
    ensures Type(AttrFrom(t, ps, payload)) == t && ToParts(AttrFrom(t, ps, payload)) == ps
  {
    hide Payload, PayloadOf, OpenKinds, NodeKinds, DirKinds, LockKinds, LinkKinds, SessionKinds, WalkKinds, IoKinds;
    hide ExtraKinds, MakeKinds, UserKinds;
  }

  lemma DirAgain(t: byte, ps: seq<Part>, payload: Bytes)
    requires Fits(t, ps) && 30 <= t < 50 && t != 41
    ensures Type(DirFrom(t, ps, payload)) == t && ToParts(DirFrom(t, ps, payload)) == ps
  {
    hide *;
    if t < 32 { XattrAgain(t, ps, payload); } else { DirAgainLater(t, ps, payload); }
  }

  lemma XattrAgain(t: byte, ps: seq<Part>, payload: Bytes)
    requires Fits(t, ps) && 30 <= t < 32
    ensures Type(DirFrom(t, ps, payload)) == t && ToParts(DirFrom(t, ps, payload)) == ps
  {
    hide Payload, PayloadOf, OpenKinds, NodeKinds, AttrKinds, LockKinds, LinkKinds, SessionKinds, WalkKinds, IoKinds;
    hide ExtraKinds, MakeKinds, UserKinds, GetDirents;
  }

  lemma DirAgainLater(t: byte, ps: seq<Part>, payload: Bytes)
    requires Fits(t, ps) && 32 <= t < 50 && t != 41
    ensures Type(DirFrom(t, ps, payload)) == t && ToParts(DirFrom(t, ps, payload)) == ps
  {
    hide Payload, PayloadOf, OpenKinds, NodeKinds, AttrKinds, LockKinds, LinkKinds, SessionKinds, WalkKinds, IoKinds;
    hide ExtraKinds, MakeKinds, UserKinds, GetDirents;
  }

  lemma LockAgain(t: byte, ps: seq<Part>, payload: Bytes)
    requires Fits(t, ps) && 50 <= t < 72
    ensures Type(LockFrom(t, ps, payload)) == t && ToParts(LockFrom(t, ps, payload)) == ps
  {
    hide Payload, PayloadOf, OpenKinds, NodeKinds, AttrKinds, DirKinds, LinkKinds, SessionKinds, WalkKinds, IoKinds;
    hide ExtraKinds, MakeKinds, UserKinds;
  }

  lemma LinkAgain(t: byte, ps: seq<Part>, payload: Bytes)
    requires Fits(t, ps) && 72 <= t < 100
    ensures Type(LinkFrom(t, ps, payload)) == t && ToParts(LinkFrom(t, ps, payload)) == ps
  {
    hide Payload, PayloadOf, OpenKinds, NodeKinds, AttrKinds, DirKinds, LockKinds, SessionKinds, WalkKinds, IoKinds;
    hide ExtraKinds, MakeKinds, UserKinds;
  }

  lemma SessionAgain(t: byte, ps: seq<Part>, payload: Bytes)
    requires Fits(t, ps) && 100 <= t < 108
    ensures Type(SessionFrom(t, ps, payload)) == t && ToParts(SessionFrom(t, ps, payload)) == ps
  {
    hide Payload, PayloadOf, OpenKinds, NodeKinds, AttrKinds, DirKinds, LockKinds, LinkKinds, WalkKinds, IoKinds;
    hide ExtraKinds, MakeKinds, UserKinds;
  }

  lemma WalkAgain(t: byte, ps: seq<Part>, payload: Bytes)
    requires Fits(t, ps) && 108 <= t < 118 && t != 117
    ensures Type(WalkFrom(t, ps, payload)) == t && ToParts(WalkFrom(t, ps, payload)) == ps
  {
    hide Payload, PayloadOf, OpenKinds, NodeKinds, AttrKinds, DirKinds, LockKinds, LinkKinds, SessionKinds, IoKinds;
    hide ExtraKinds, MakeKinds, UserKinds;
  }

  lemma IoAgain(t: byte, ps: seq<Part>, payload: Bytes)
    requires Fits(t, ps) && 118 <= t < 124 && t != 118
    ensures Type(IoFrom(t, ps, payload)) == t && ToParts(IoFrom(t, ps, payload)) == ps
  {
    hide Payload, PayloadOf, OpenKinds, NodeKinds, AttrKinds, DirKinds, LockKinds, LinkKinds, SessionKinds, WalkKinds;
    hide ExtraKinds, MakeKinds, UserKinds;
  }

  lemma ExtraAgain(t: byte, ps: seq<Part>, payload: Bytes)
    requires Fits(t, ps) && 124 <= t < 130
    ensures Type(ExtraFrom(t, ps, payload)) == t && ToParts(ExtraFrom(t, ps, payload)) == ps
  {
    hide Payload, PayloadOf, OpenKinds, NodeKinds, AttrKinds, DirKinds, LockKinds, LinkKinds, SessionKinds, WalkKinds;
    hide IoKinds, MakeKinds, UserKinds;
  }

  lemma MakeAgain(t: byte, ps: seq<Part>, payload: Bytes)
    requires Fits(t, ps) && 130 <= t < 133
    ensures Type(MakeFrom(t, ps, payload)) == t && ToParts(MakeFrom(t, ps, payload)) == ps
  {
    hide Payload, PayloadOf, OpenKinds, NodeKinds, AttrKinds, DirKinds, LockKinds, LinkKinds, SessionKinds, WalkKinds;
    hide IoKinds, ExtraKinds, UserKinds;
  }

  lemma UserAgain(t: byte, ps: seq<Part>, payload: Bytes)
    requires Fits(t, ps) && 133 <= t < 256
    ensures Type(UserFrom(t, ps, payload)) == t && ToParts(UserFrom(t, ps, payload)) == ps
  {
    hide Payload, PayloadOf, OpenKinds, NodeKinds, AttrKinds, DirKinds, LockKinds, LinkKinds, SessionKinds, WalkKinds;
    hide IoKinds, ExtraKinds, MakeKinds;
  }

  /** Encoding a decoded message writes the parts it was decoded from. */
  lemma EncodedAgain(t: byte, ps: seq<Part>, payload: Bytes)
    requires Fits(t, ps) && t != 41 && t != 117 && t != 118
    ensures Type(FromParts(t, ps, payload)) == t && ToParts(FromParts(t, ps, payload)) == ps
  {
    hide Fits, ToParts, Type, OpenFrom, NodeFrom, AttrFrom, DirFrom, LockFrom, LinkFrom, SessionFrom, WalkFrom, IoFrom;
    hide ExtraFrom, MakeFrom, UserFrom;
    if t < 16 { OpenAgain(t, ps, payload); }
    else if t < 22 { NodeAgain(t, ps, payload); }
    else if t < 30 { AttrAgain(t, ps, payload); }
    else if t < 50 { DirAgain(t, ps, payload); }
    else if t < 72 { LockAgain(t, ps, payload); }
    else if t < 100 { LinkAgain(t, ps, payload); }
    else if t < 108 { SessionAgain(t, ps, payload); }
    else if t < 118 { WalkAgain(t, ps, payload); }
    else if t < 124 { IoAgain(t, ps, payload); }
    else if t < 130 { ExtraAgain(t, ps, payload); }
    else if t < 133 { MakeAgain(t, ps, payload); }
    else { UserAgain(t, ps, payload); }
  }
}
