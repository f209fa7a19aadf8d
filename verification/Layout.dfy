/** The layout of 9P2000.L frames as the protocol's tables give it: type numbers, and for every message the widths,
    the order and the values of its members. Nothing here uses the encoders; the frames they make are shown to be
    laid out so. */
module Layout {
  import opened Options
  import opened Wire
  import opened Records
  import opened Messages
  import opened Codec
  import opened Transport
  import opened Readdirs
  import Sizes

  /** The number in the `w` bytes from `at` on, lowest first. */
  function Num(b: Bytes, at: nat, w: nat): nat
    requires at + w <= |b|
    decreases w
  {
    if w == 0 then 0 else b[at] + 256 * Num(b, at + 1, w - 1)
  }

  function Byte(b: Bytes, i: nat): int
    requires i < |b|
  {
    b[i]
  }

  /** Written out: bytes times powers of 256. */
  lemma Places(b: Bytes, at: nat)
    ensures at + 1 <= |b| ==> Num(b, at, 1) == Byte(b, at)
    ensures at + 2 <= |b| ==> Num(b, at, 2) == Byte(b, at) + 0x100 * Byte(b, at + 1)
    ensures at + 4 <= |b| ==>
              Num(b, at, 4) == Byte(b, at) + 0x100 * Byte(b, at + 1) + 0x1_0000 * Byte(b, at + 2)
                + 0x100_0000 * Byte(b, at + 3)
    ensures at + 8 <= |b| ==> Num(b, at, 8) == Num(b, at, 4) + 0x1_0000_0000 * Num(b, at + 4, 4)
  {
    if at + 8 <= |b| {
      assert Num(b, at, 8) == b[at] + 256 * Num(b, at + 1, 7);
      assert Num(b, at + 1, 7) == b[at + 1] + 256 * Num(b, at + 2, 6);
      assert Num(b, at + 2, 6) == b[at + 2] + 256 * Num(b, at + 3, 5);
      assert Num(b, at + 3, 5) == b[at + 3] + 256 * Num(b, at + 4, 4);
    }
    if at + 4 <= |b| {
      assert Num(b, at + 1, 3) == b[at + 1] + 256 * Num(b, at + 2, 2);
      assert Num(b, at + 2, 2) == b[at + 2] + 256 * Num(b, at + 3, 1);
      assert Num(b, at + 3, 1) == b[at + 3];
    }
    if at + 2 <= |b| { assert Num(b, at + 1, 1) == b[at + 1]; }
  }

  /** A number of `w` bytes, or bytes as they are. */
  datatype Item = N(w: nat, v: nat) | Raw(bs: Bytes)

  function Width(i: Item): nat
  {
    if i.N? then i.w else |i.bs|
  }

  predicate Here(b: Bytes, at: nat, i: Item)
  {
    at + Width(i) <= |b| && if i.N? then Num(b, at, i.w) == i.v else b[at..at + |i.bs|] == i.bs
  }

  /** Where the k-th item starts, counted from the first. */
  function Offset(items: seq<Item>, k: nat): nat
    requires k <= |items|
  {
    if k == 0 then 0 else Offset(items, k - 1) + Width(items[k - 1])
  }

  /** From `at` on, the bytes are these items, one after the other, and nothing follows them. */
  predicate Stands(b: Bytes, at: nat, items: seq<Item>)
    decreases |items|
  {
    if items == [] then at == |b|
    else Here(b, at, items[0]) && Stands(b, at + Width(items[0]), items[1..])
  }

  // ---- the tables --------------------------------------------------------------------------------

  function U1(v: nat): seq<Item> { [N(1, v)] }

  function U2(v: nat): seq<Item> { [N(2, v)] }

  function U4(v: nat): seq<Item> { [N(4, v)] }

  function U8At(v: nat): seq<Item> { [N(8, v)] }

  /** A fid is sent in 32 bits. */
  function FidAt(v: nat): seq<Item> { [N(4, v % 0x1_0000_0000)] }

  /** Permissions are the lowest twelve bits of a 32-bit mode. */
  function Twelve(v: nat): seq<Item> { [N(4, v % 0x1000)] }

  /** Two's complement. */
  function Signed(v: i32): seq<Item> { [N(4, if v < 0 then v + 0x1_0000_0000 else v)] }

  /** A string: its length in 16 bits, then its bytes. */
  function Text(s: Bytes): seq<Item> { [N(2, |s| % 0x1_0000), Raw(s)] }

  function TextRun(ss: seq<Bytes>): seq<Item>
  {
    if ss == [] then [] else Text(ss[0]) + TextRun(ss[1..])
  }

  /** A list: its length in 16 bits, then its elements. */
  function Texts(ss: seq<Bytes>): seq<Item> { [N(2, |ss| % 0x1_0000)] + TextRun(ss) }

  function QidAt(q: Qid): seq<Item> { [N(1, q.kind), N(4, q.version), N(8, q.path)] }

  function QidRun(qs: seq<Qid>): seq<Item>
  {
    if qs == [] then [] else QidAt(qs[0]) + QidRun(qs[1..])
  }

  function QidsAt(qs: seq<Qid>): seq<Item> { [N(2, |qs| % 0x1_0000)] + QidRun(qs) }

  function AuthAt(a: Auth): seq<Item>
  {
    [N(4, a.afid % 0x1_0000_0000), N(2, |a.userName| % 0x1_0000), Raw(a.userName), N(2, |a.attachName| % 0x1_0000),
     Raw(a.attachName), N(4, a.uid)]
  }

  function StatAt(f: FsStat): seq<Item>
  {
    [N(4, f.fsType), N(4, f.blockSize), N(8, f.blocks), N(8, f.blocksFree), N(8, f.blocksAvailable), N(8, f.files),
     N(8, f.filesFree), N(8, f.fsid), N(4, f.nameLength)]
  }

  function If(b: bool, v: nat): nat { if b then v else 0 }

  function MaskAt(m: AttrMask): seq<Item>
  {
    [N(8, If(m.mode, 0x1) + If(m.nlink, 0x2) + If(m.uid, 0x4) + If(m.gid, 0x8) + If(m.rdev, 0x10) + If(m.atime, 0x20)
          + If(m.mtime, 0x40) + If(m.ctime, 0x80) + If(m.ino, 0x100) + If(m.size, 0x200) + If(m.blocks, 0x400)
          + If(m.btime, 0x800) + If(m.gen, 0x1000) + If(m.dataVersion, 0x2000))]
  }

  function AttrAt(a: Attr): seq<Item>
  {
    [N(4, a.mode), N(4, a.uid), N(4, a.gid), N(8, a.nlink), N(8, a.rdev), N(8, a.size), N(8, a.blockSize),
     N(8, a.blocks), N(8, a.atimeSec), N(8, a.atimeNsec), N(8, a.mtimeSec), N(8, a.mtimeNsec), N(8, a.ctimeSec),
     N(8, a.ctimeNsec), N(8, a.btimeSec), N(8, a.btimeNsec), N(8, a.gen), N(8, a.dataVersion)]
  }

  function SetMaskAt(m: SetAttrMask): seq<Item>
  {
    [N(4, If(m.permissions, 0x1) + If(m.uid, 0x2) + If(m.gid, 0x4) + If(m.size, 0x8) + If(m.atime, 0x10)
          + If(m.mtime, 0x20) + If(m.ctime, 0x40) + If(m.atimeNotSystemTime, 0x80) + If(m.mtimeNotSystemTime, 0x100))]
  }

  function SetAttrAt(s: SetAttr): seq<Item>
  {
    [N(4, s.permissions % 0x1000), N(4, s.uid), N(4, s.gid), N(8, s.size), N(8, s.atimeSec), N(8, s.atimeNsec),
     N(8, s.mtimeSec), N(8, s.mtimeNsec)]
  }

  function DirentAt(d: Dirent): seq<Item>
  {
    [N(1, d.qid.kind), N(4, d.qid.version), N(8, d.qid.path), N(8, d.offset), N(1, d.kind),
     N(2, |d.name| % 0x1_0000), Raw(d.name)]
  }

  function DirentRun(ds: seq<Dirent>): seq<Item>
  {
    if ds == [] then [] else DirentAt(ds[0]) + DirentRun(ds[1..])
  }

  /** As many whole entries as the byte count has room for, after the number of bytes they take. */
  function Page(count: u32, ds: seq<Dirent>): seq<Item>
  {
    var k := PageLength(NamesOf(ds), count);
    U4(Weight(NamesOf(ds)[..k])) + DirentRun(ds[..k])
  }

  function Number(m: Message): byte
  {
    match m
    case Rlerror(_) => 7
    case Tstatfs(_) => 8
    case Rstatfs(_) => 9
    case Tlopen(_, _) => 12
    case Rlopen(_, _) => 13
    case Tlcreate(_, _, _, _, _) => 14
    case Rlcreate(_, _) => 15
    case Tsymlink(_, _, _, _) => 16
    case Rsymlink(_) => 17
    case Tmknod(_, _, _, _, _, _) => 18
    case Rmknod(_) => 19
    case Trename(_, _, _) => 20
    case Rrename => 21
    case Treadlink(_) => 22
    case Rreadlink(_) => 23
    case Tgetattr(_, _) => 24
    case Rgetattr(_, _, _) => 25
    case Tsetattr(_, _, _) => 26
    case Rsetattr => 27
    case Txattrwalk(_, _, _) => 30
    case Rxattrwalk(_) => 31
    case Txattrcreate(_, _, _, _) => 32
    case Rxattrcreate => 33
    case Treaddir(_, _, _) => 40
    case Rreaddir(_, _) => 41
    case Tfsync(_) => 50
    case Rfsync => 51
    case Tlock(_, _, _, _, _, _, _) => 52
    case Rlock(_) => 53
    case Tlink(_, _, _) => 70
    case Rlink => 71
    case Tmkdir(_, _, _, _) => 72
    case Rmkdir(_) => 73
    case Trenameat(_, _, _, _) => 74
    case Rrenameat => 75
    case Tunlinkat(_, _, _) => 76
    case Runlinkat => 77
    case Tversion(_, _) => 100
    case Rversion(_, _) => 101
    case Tauth(_) => 102
    case Rauth(_) => 103
    case Tattach(_, _) => 104
    case Rattach(_) => 105
    case Tflush(_) => 108
    case Rflush => 109
    case Twalk(_, _, _) => 110
    case Rwalk(_) => 111
    case Tread(_, _, _) => 116
    case Rread(_) => 117
    case Twrite(_, _, _) => 118
    case Rwrite(_) => 119
    case Tclunk(_) => 120
    case Rclunk => 121
    case Tremove(_) => 122
    case Rremove => 123
    case Twalkgetattr(_, _, _) => 126
    case Rwalkgetattr(_, _, _) => 127
    case Tucreate(_, _, _, _, _, _) => 128
    case Rucreate(_, _) => 129
    case Tumkdir(_, _, _, _, _) => 130
    case Rumkdir(_) => 131
    case Tumknod(_, _, _, _, _, _, _) => 132
    case Rumknod(_) => 133
    case Tusymlink(_, _, _, _, _) => 134
    case Rusymlink(_) => 135
  }

  function Members(m: Message): seq<Item>
  {
    match m
    case Rlerror(error) => U4(error)
    case Tstatfs(fid) => FidAt(fid)
    case Rstatfs(stat) => StatAt(stat)
    case Tlopen(fid, flags) => FidAt(fid) + U4(flags)
    case Rlopen(qid, ioUnit) => QidAt(qid) + U4(ioUnit)
    case Tlcreate(fid, name, flags, permissions, gid) =>
      FidAt(fid) + Text(name) + U4(flags) + Twelve(permissions) + U4(gid)
    case Rlcreate(qid, ioUnit) => QidAt(qid) + U4(ioUnit)
    case Tsymlink(directory, name, target, gid) => FidAt(directory) + Text(name) + Text(target) + U4(gid)
    case Rsymlink(qid) => QidAt(qid)
    case Tmknod(directory, name, mode, major, minor, gid) =>
      FidAt(directory) + Text(name) + U4(mode) + U4(major) + U4(minor) + U4(gid)
    case Rmknod(qid) => QidAt(qid)
    case Trename(fid, directory, name) => FidAt(fid) + FidAt(directory) + Text(name)
    case Rrename => []
    case Treadlink(fid) => FidAt(fid)
    case Rreadlink(target) => Text(target)
    case Tgetattr(fid, mask) => FidAt(fid) + MaskAt(mask)
    case Rgetattr(valid, qid, attr) => MaskAt(valid) + QidAt(qid) + AttrAt(attr)
    case Tsetattr(fid, setValid, setAttr) => FidAt(fid) + SetMaskAt(setValid) + SetAttrAt(setAttr)
    case Rsetattr => []
    case Txattrwalk(fid, newFid, name) => FidAt(fid) + FidAt(newFid) + Text(name)
    case Rxattrwalk(size) => U8At(size)
    case Txattrcreate(fid, name, size, flags) => FidAt(fid) + Text(name) + U8At(size) + U4(flags)
    case Rxattrcreate => []
    case Treaddir(directory, offset, count) => FidAt(directory) + U8At(offset) + U4(count)
    case Rreaddir(count, entries) => Page(count, entries)
    case Tfsync(fid) => FidAt(fid)
    case Rfsync => []
    case Tlock(fid, lockType, flags, start, length, pid, client) =>
      FidAt(fid) + U1(lockType) + U4(flags) + U8At(start) + U8At(length) + Signed(pid) + Text(client)
    case Rlock(status) => U1(status)
    case Tlink(directory, targetFid, name) => FidAt(directory) + FidAt(targetFid) + Text(name)
    case Rlink => []
    case Tmkdir(directory, name, permissions, gid) => FidAt(directory) + Text(name) + Twelve(permissions) + U4(gid)
    case Rmkdir(qid) => QidAt(qid)
    case Trenameat(oldDirectory, oldName, newDirectory, newName) =>
      FidAt(oldDirectory) + Text(oldName) + FidAt(newDirectory) + Text(newName)
    case Rrenameat => []
    case Tunlinkat(directory, name, flags) => FidAt(directory) + Text(name) + U4(flags)
    case Runlinkat => []
    case Tversion(msize, version) => U4(msize) + Text(version)
    case Rversion(msize, version) => U4(msize) + Text(version)
    case Tauth(auth) => AuthAt(auth)
    case Rauth(qid) => QidAt(qid)
    case Tattach(fid, auth) => FidAt(fid) + AuthAt(auth)
    case Rattach(qid) => QidAt(qid)
    case Tflush(oldTag) => U2(oldTag)
    case Rflush => []
    case Twalk(fid, newFid, names) => FidAt(fid) + FidAt(newFid) + Texts(names)
    case Rwalk(qids) => QidsAt(qids)
    case Tread(fid, offset, count) => FidAt(fid) + U8At(offset) + U4(count)
    case Rread(data) => U4(|data| % 0x1_0000_0000) + [Raw(data)]
    case Twrite(fid, offset, data) => FidAt(fid) + U8At(offset) + U4(|data| % 0x1_0000_0000) + [Raw(data)]
    case Rwrite(count) => U4(count)
    case Tclunk(fid) => FidAt(fid)
    case Rclunk => []
    case Tremove(fid) => FidAt(fid)
    case Rremove => []
    case Twalkgetattr(fid, newFid, names) => FidAt(fid) + FidAt(newFid) + Texts(names)
    case Rwalkgetattr(valid, attr, qids) => MaskAt(valid) + AttrAt(attr) + QidsAt(qids)
    case Tucreate(fid, name, flags, permissions, gid, uid) =>
      FidAt(fid) + Text(name) + U4(flags) + Twelve(permissions) + U4(gid) + U4(uid)
    case Rucreate(qid, ioUnit) => QidAt(qid) + U4(ioUnit)
    case Tumkdir(directory, name, permissions, gid, uid) =>
      FidAt(directory) + Text(name) + Twelve(permissions) + U4(gid) + U4(uid)
    case Rumkdir(qid) => QidAt(qid)
    case Tumknod(directory, name, mode, major, minor, gid, uid) =>
      FidAt(directory) + Text(name) + U4(mode) + U4(major) + U4(minor) + U4(gid) + U4(uid)
    case Rumknod(qid) => QidAt(qid)
    case Tusymlink(directory, name, target, gid, uid) =>
      FidAt(directory) + Text(name) + Text(target) + U4(gid) + U4(uid)
    case Rusymlink(qid) => QidAt(qid)
  }

  // ---- the encoders' parts ------------------------------------------------------------------------

  function Emit(items: seq<Item>): Bytes
  {
    if items == [] then []
    else Laid1(items[0]) + Emit(items[1..])
  }

  predicate Fit1(i: Item)
  {
    i.N? ==> i.v < Limit(i.w)
  }

  predicate AllFit(items: seq<Item>)
  {
    forall i | i in items :: Fit1(i)
  }

  lemma {:induction false} EmitConcat(a: seq<Item>, b: seq<Item>)
    ensures Emit(a + b) == Emit(a) + Emit(b)
  {
    if a == [] {
      assert a + b == b;
    } else {
      assert (a + b)[1..] == a[1..] + b;
      EmitConcat(a[1..], b);
    }
  }

  lemma {:induction false} NumOf(pre: Bytes, n: nat, w: nat, post: Bytes)
    requires n < Limit(w)
    ensures Num(pre + LittleEndian(n, w) + post, |pre|, w) == n
    decreases w
  {
    if w > 0 {
      NumOf(pre + [n % 256], n / 256, w - 1, post);
      assert pre + LittleEndian(n, w) + post == pre + [n % 256] + LittleEndian(n / 256, w - 1) + post;
    }
  }

  /** What is emitted stands where it was put. */
  lemma {:induction false} EmitStands(pre: Bytes, items: seq<Item>)
    requires AllFit(items)
    ensures Stands(pre + Emit(items), |pre|, items)
    decreases |items|
  {
    hide Stands, Laid1, Fit1;
    if items == [] {
      NothingStands(pre);
      assert pre + Emit(items) == pre;
    } else {
      assert Fit1(items[0]);
      EmitStands(pre + Laid1(items[0]), items[1..]);
      assert pre + Emit(items) == pre + Laid1(items[0]) + Emit(items[1..]);
      FirstStands(pre, items, Emit(items[1..]));
    }
  }

  lemma NothingStands(b: Bytes)
    ensures Stands(b, |b|, [])
  {
  }

  lemma FirstStands(pre: Bytes, items: seq<Item>, rest: Bytes)
    requires items != [] && Fit1(items[0])
    requires Stands(pre + Laid1(items[0]) + rest, |pre + Laid1(items[0])|, items[1..])
    ensures Stands(pre + Laid1(items[0]) + rest, |pre|, items)
  {
    hide Here, Laid1, Fit1;
    OneStands(pre, items[0], rest);
  }

  function Laid1(i: Item): (bs: Bytes)
    ensures |bs| == Width(i)
  {
    if i.N? then LittleEndian(i.v, i.w) else i.bs
  }

  lemma OneStands(pre: Bytes, i: Item, rest: Bytes)
    requires Fit1(i)
    ensures Here(pre + Laid1(i) + rest, |pre|, i)
  {
    if i.N? { NumOf(pre, i.v, i.w, rest); }
  }

  function FieldItems(f: Field): seq<Item>
  {
    match f
    case U8(n) => U1(n)
    case U16(n) => U2(n)
    case U32(n) => U4(n)
    case U64(n) => U8At(n)
    case I32(n) => Signed(n)
    case Fid(n) => FidAt(n)
    case Perm(n) => Twelve(n)
    case Str(s) => Text(s)
    case Strs(ss) => Texts(ss)
    case Qids(qs) => QidsAt(qs)
  }

  lemma EmitOne(i: Item)
    ensures Emit([i]) == if i.N? then LittleEndian(i.v, i.w) else i.bs
  {
    assert [i][1..] == [];
  }

  lemma EmitTwo(i: Item, j: Item)
    ensures Emit([i, j]) == Emit([i]) + Emit([j])
  {
    assert [i, j] == [i] + [j];
    EmitConcat([i], [j]);
  }

  lemma TextEmitted(s: Bytes)
    ensures Emit(Text(s)) == PutString(s) && AllFit(Text(s))
  {
    Limits();
    EmitOne(N(2, |s| % 0x1_0000));
    EmitOne(Raw(s));
    EmitTwo(N(2, |s| % 0x1_0000), Raw(s));
  }

  lemma {:induction false} TextsEmitted(ss: seq<Bytes>)
    ensures Emit(TextRun(ss)) == PutStrings(ss) && AllFit(TextRun(ss))
  {
    hide Text, PutString;
    if ss != [] {
      TextEmitted(ss[0]);
      TextsEmitted(ss[1..]);
      EmitConcat(Text(ss[0]), TextRun(ss[1..]));
    }
  }

  lemma QidEmitted(q: Qid)
    ensures Emit(QidAt(q)) == PutQid(q) && AllFit(QidAt(q))
  {
    Limits();
    EmitOne(N(1, q.kind));
    EmitOne(N(4, q.version));
    EmitOne(N(8, q.path));
    EmitTwo(N(4, q.version), N(8, q.path));
    assert QidAt(q) == [N(1, q.kind)] + [N(4, q.version), N(8, q.path)];
    EmitConcat([N(1, q.kind)], [N(4, q.version), N(8, q.path)]);
    OneByte(q.kind);
  }

  lemma {:induction false} QidsEmitted(qs: seq<Qid>)
    ensures Emit(QidRun(qs)) == PutQids(qs) && AllFit(QidRun(qs))
  {
    hide QidAt, PutQid;
    if qs != [] {
      QidEmitted(qs[0]);
      QidsEmitted(qs[1..]);
      EmitConcat(QidAt(qs[0]), QidRun(qs[1..]));
    }
  }

  lemma FieldEmitted(f: Field)
    ensures Emit(FieldItems(f)) == Put(f) && AllFit(FieldItems(f))
  {
    hide Emit, LittleEndian;
    Limits();
    match f
    case U8(n) => EmitOne(N(1, n)); OneByte(n);
    case U16(n) => EmitOne(N(2, n));
    case U32(n) => EmitOne(N(4, n));
    case U64(n) => EmitOne(N(8, n));
    case I32(n) => EmitOne(Signed(n)[0]);
    case Fid(n) => EmitOne(FidAt(n)[0]);
    case Perm(n) => EmitOne(Twelve(n)[0]);
    case Str(s) => TextEmitted(s);
    case Strs(ss) =>
      TextsEmitted(ss);
      EmitOne(N(2, |ss| % 0x1_0000));
      EmitConcat([N(2, |ss| % 0x1_0000)], TextRun(ss));
    case Qids(qs) =>
      QidsEmitted(qs);
      EmitOne(N(2, |qs| % 0x1_0000));
      EmitConcat([N(2, |qs| % 0x1_0000)], QidRun(qs));
  }

  function FieldsItems(fs: seq<Field>): seq<Item>
  {
    if fs == [] then [] else FieldItems(fs[0]) + FieldsItems(fs[1..])
  }

  lemma {:induction false} FieldsEmitted(fs: seq<Field>)
    ensures Emit(FieldsItems(fs)) == PutAll(fs) && AllFit(FieldsItems(fs))
  {
    hide FieldItems, Put;
    if fs != [] {
      FieldEmitted(fs[0]);
      FieldsEmitted(fs[1..]);
      EmitConcat(FieldItems(fs[0]), FieldsItems(fs[1..]));
    }
  }

  function PartItems(p: Part): seq<Item>
  {
    match p
    case F(f) => FieldItems(f)
    case QidPart(q) => QidAt(q)
    case AttrMaskPart(m) => MaskAt(m)
    case AttrPart(a) => AttrAt(a)
    case SetAttrMaskPart(m) => SetMaskAt(m)
    case SetAttrPart(s) => SetAttrAt(s)
    case FsStatPart(f) => StatAt(f)
    case AuthPart(a) => AuthAt(a)
    case DirentPart(d) => DirentAt(d)
  }

  predicate Plain(f: Field)
  {
    !f.Str? && !f.Strs? && !f.Qids?
  }

  /** A field that is a number is one item. */
  lemma {:induction false} PlainItems(fs: seq<Field>)
    requires forall i | 0 <= i < |fs| :: Plain(fs[i])
    ensures |FieldsItems(fs)| == |fs| && forall i | 0 <= i < |fs| :: [FieldsItems(fs)[i]] == FieldItems(fs[i])
  {
    if fs != [] {
      PlainItems(fs[1..]);
      assert |FieldItems(fs[0])| == 1;
      forall i | 0 <= i < |fs| ensures [FieldsItems(fs)[i]] == FieldItems(fs[i]) {
        if i > 0 { assert FieldsItems(fs)[i] == FieldsItems(fs[1..])[i - 1] && fs[1..][i - 1] == fs[i]; }
      }
    }
  }

  lemma SameItems(fs: seq<Field>, items: seq<Item>)
    requires |items| == |fs| && forall i | 0 <= i < |fs| :: Plain(fs[i]) && FieldItems(fs[i]) == [items[i]]
    ensures FieldsItems(fs) == items
  {
    hide FieldItems, Plain, FieldsItems;
    PlainItems(fs);
    forall i | 0 <= i < |fs| ensures FieldsItems(fs)[i] == items[i] {
      assert [FieldsItems(fs)[i]] == [items[i]];
    }
  }

  lemma OneField(f: Field)
    ensures FieldsItems([f]) == FieldItems(f)
  {
    assert [f][1..] == [] && FieldItems(f) + [] == FieldItems(f);
  }

  lemma {:induction false} FieldsConcat(a: seq<Field>, b: seq<Field>)
    ensures FieldsItems(a + b) == FieldsItems(a) + FieldsItems(b)
  {
    hide FieldItems;
    if a == [] {
      assert a + b == b;
    } else {
      assert (a + b)[1..] == a[1..] + b;
      FieldsConcat(a[1..], b);
    }
  }

  lemma AuthItems(a: Auth)
    ensures FieldsItems(AuthFields(a)) == AuthAt(a)
  {
    hide FieldsItems;
    var f, u, n, i := Fid(a.afid), Str(a.userName), Str(a.attachName), U32(a.uid);
    assert AuthFields(a) == [f] + [u] + [n] + [i];
    FieldsConcat([f], [u]);
    FieldsConcat([f] + [u], [n]);
    FieldsConcat([f] + [u] + [n], [i]);
    OneField(f);
    OneField(u);
    OneField(n);
    OneField(i);
  }

  lemma DirentItems(d: Dirent)
    ensures FieldsItems(DirentFields(d)) == DirentAt(d)
  {
    hide FieldsItems;
    var front := [U8(d.qid.kind), U32(d.qid.version), U64(d.qid.path), U64(d.offset), U8(d.kind)];
    assert DirentFields(d) == front + [Str(d.name)];
    FieldsConcat(front, [Str(d.name)]);
    OneField(Str(d.name));
    SameItems(front, [N(1, d.qid.kind), N(4, d.qid.version), N(8, d.qid.path), N(8, d.offset), N(1, d.kind)]);
  }

  // A mask is the sum of its members' bits.

  function Weighted(bs: seq<bool>, at: nat, p: nat): nat
    requires at <= |bs|
    decreases |bs| - at
  {
    if at == |bs| then 0 else If(bs[at], p) + Weighted(bs, at + 1, 2 * p)
  }

  lemma {:induction false} BitsWeighted(bs: seq<bool>, at: nat, p: nat)
    requires at <= |bs|
    ensures p * Bits(bs[at..]) == Weighted(bs, at, p)
    decreases |bs| - at
  {
    hide Bits, If;
    if at == |bs| { NoBitsLeft(); }
    if at < |bs| {
      BitsWeighted(bs, at + 1, 2 * p);
      assert bs[at..][1..] == bs[at + 1..];
      BitsNext(bs[at..]);
      Distribute(p, bs[at], Bits(bs[at + 1..]));
    }
  }

  lemma NoBitsLeft()
    ensures Bits([]) == 0
  {
  }

  lemma BitsNext(bs: seq<bool>)
    requires bs != []
    ensures Bits(bs) == If(bs[0], 1) + 2 * Bits(bs[1..])
  {
  }

  lemma Distribute(p: nat, b: bool, rest: nat)
    ensures p * (If(b, 1) + 2 * rest) == If(b, p) + (2 * p) * rest
  {
  }

  lemma MaskIs(m: AttrMask)
    ensures [N(8, AttrBits(m))] == MaskAt(m)
  {
    hide Bits;
    var bs := AttrMaskBits(m);
    BitsWeighted(bs, 0, 1);
    assert bs[0..] == bs;
    hide Weighted;
    WeightedSeven(bs, 0, 1);
    WeightedSeven(bs, 7, 128);
    WeightedEnd(bs, 14, 16384);
  }

  lemma WeightedSeven(bs: seq<bool>, at: nat, p: nat)
    requires at + 7 <= |bs|
    ensures Weighted(bs, at, p)
         == If(bs[at], p) + If(bs[at + 1], 2 * p) + If(bs[at + 2], 4 * p) + If(bs[at + 3], 8 * p)
            + If(bs[at + 4], 16 * p) + If(bs[at + 5], 32 * p) + If(bs[at + 6], 64 * p) + Weighted(bs, at + 7, 128 * p)
  {
    hide If;
    assert Weighted(bs, at + 1, 2 * p) == If(bs[at + 1], 2 * p) + Weighted(bs, at + 2, 4 * p);
    assert Weighted(bs, at + 2, 4 * p) == If(bs[at + 2], 4 * p) + Weighted(bs, at + 3, 8 * p);
    assert Weighted(bs, at + 3, 8 * p) == If(bs[at + 3], 8 * p) + Weighted(bs, at + 4, 16 * p);
    assert Weighted(bs, at + 4, 16 * p) == If(bs[at + 4], 16 * p) + Weighted(bs, at + 5, 32 * p);
    assert Weighted(bs, at + 5, 32 * p) == If(bs[at + 5], 32 * p) + Weighted(bs, at + 6, 64 * p);
  }

  lemma WeightedTwo(bs: seq<bool>, at: nat, p: nat)
    requires at + 2 <= |bs|
    ensures Weighted(bs, at, p) == If(bs[at], p) + If(bs[at + 1], 2 * p) + Weighted(bs, at + 2, 4 * p)
  {
    hide If;
  }

  lemma WeightedEnd(bs: seq<bool>, at: nat, p: nat)
    requires at == |bs|
    ensures Weighted(bs, at, p) == 0
  {
  }

  lemma SetMaskIs(m: SetAttrMask)
    ensures [N(4, SetAttrBits(m))] == SetMaskAt(m)
  {
    hide Bits;
    var bs := SetAttrMaskBits(m);
    BitsWeighted(bs, 0, 1);
    assert bs[0..] == bs;
    hide Weighted;
    WeightedSeven(bs, 0, 1);
    WeightedTwo(bs, 7, 128);
    WeightedEnd(bs, 9, 512);
  }

  lemma AttrItems(a: Attr)
    ensures FieldsItems(AttrFields(a)) == AttrAt(a)
  {
    hide FieldsItems;
    SameItems(AttrFields(a), AttrAt(a));
  }

  lemma SetAttrItems(s: SetAttr)
    ensures FieldsItems(SetAttrFields(s)) == SetAttrAt(s)
  {
    hide FieldsItems;
    SameItems(SetAttrFields(s), SetAttrAt(s));
  }

  lemma StatItems(f: FsStat)
    ensures FieldsItems(FsStatFields(f)) == StatAt(f)
  {
    hide FieldsItems;
    SameItems(FsStatFields(f), StatAt(f));
  }

  /** Every part is laid out as its table says. */
  lemma PartIs(p: Part)
    ensures FieldsItems(Fields(p)) == PartItems(p)
  {
    hide FieldsItems, AttrBits, SetAttrBits, MaskAt, SetMaskAt, AttrFields, AttrAt, SetAttrFields, SetAttrAt;
    hide FsStatFields, StatAt;
    match p
    case F(f) => OneField(f);
    case QidPart(q) => SameItems(QidFields(q), QidAt(q));
    case AttrMaskPart(m) => OneField(U64(AttrBits(m))); MaskIs(m);
    case AttrPart(a) => AttrItems(a);
    case SetAttrMaskPart(m) => OneField(U32(SetAttrBits(m))); SetMaskIs(m);
    case SetAttrPart(s) => SetAttrItems(s);
    case FsStatPart(f) => StatItems(f);
    case AuthPart(a) => AuthItems(a);
    case DirentPart(d) => DirentItems(d);
  }

  lemma PartEmitted(p: Part)
    ensures Emit(PartItems(p)) == PutPart(p) && AllFit(PartItems(p))
  {
    hide FieldsItems, PartItems, Fields, PutAll, Emit, AllFit;
    PartIs(p);
    FieldsEmitted(Fields(p));
  }

  function PartsItems(ps: seq<Part>): seq<Item>
  {
    if ps == [] then [] else PartItems(ps[0]) + PartsItems(ps[1..])
  }

  lemma {:induction false} PartsEmitted(ps: seq<Part>)
    ensures Emit(PartsItems(ps)) == PutParts(ps) && AllFit(PartsItems(ps))
  {
    hide PartItems, PutPart;
    if ps != [] {
      PartEmitted(ps[0]);
      PartsEmitted(ps[1..]);
      EmitConcat(PartItems(ps[0]), PartsItems(ps[1..]));
    }
  }

  lemma {:induction false} LastPart(ps: seq<Part>)
    requires ps != []
    ensures PartsItems(ps) == PartsItems(ps[..|ps| - 1]) + PartItems(ps[|ps| - 1])
  {
    hide PartItems;
    if |ps| > 1 {
      LastPart(ps[1..]);
      assert ps[1..][..|ps| - 2] == ps[..|ps| - 1][1..];
    } else {
      assert ps[1..] == [] && ps[..0] == [] && PartItems(ps[0]) + [] == [] + PartItems(ps[0]);
    }
  }

  lemma NoParts()
    ensures PartsItems([]) == []
  {
  }

  lemma OneParts(ps: seq<Part>)
    requires |ps| == 1
    ensures PartsItems(ps) == PartItems(ps[0])
  {
    hide PartItems;
    assert ps[1..] == [] && PartItems(ps[0]) + [] == PartItems(ps[0]);
  }

  lemma TwoParts(ps: seq<Part>)
    requires |ps| == 2
    ensures PartsItems(ps) == PartItems(ps[0]) + PartItems(ps[1])
  {
    hide PartItems, PartsItems;
    OneParts(ps[..1]);
    LastPart(ps);
  }

  lemma ThreeParts(ps: seq<Part>)
    requires |ps| == 3
    ensures PartsItems(ps) == PartItems(ps[0]) + PartItems(ps[1]) + PartItems(ps[2])
  {
    hide PartItems, PartsItems;
    TwoParts(ps[..2]);
    LastPart(ps);
  }

  lemma FourParts(ps: seq<Part>)
    requires |ps| == 4
    ensures PartsItems(ps) == PartItems(ps[0]) + PartItems(ps[1]) + PartItems(ps[2]) + PartItems(ps[3])
  {
    hide PartItems, PartsItems;
    ThreeParts(ps[..3]);
    LastPart(ps);
  }

  lemma FiveParts(ps: seq<Part>)
    requires |ps| == 5
    ensures PartsItems(ps) == PartItems(ps[0]) + PartItems(ps[1]) + PartItems(ps[2]) + PartItems(ps[3])
              + PartItems(ps[4])
  {
    hide PartItems, PartsItems;
    FourParts(ps[..4]);
    LastPart(ps);
  }

  lemma SixParts(ps: seq<Part>)
    requires |ps| == 6
    ensures PartsItems(ps) == PartItems(ps[0]) + PartItems(ps[1]) + PartItems(ps[2]) + PartItems(ps[3])
              + PartItems(ps[4]) + PartItems(ps[5])
  {
    hide PartItems, PartsItems;
    FiveParts(ps[..5]);
    LastPart(ps);
  }

  lemma SevenParts(ps: seq<Part>)
    requires |ps| == 7
    ensures PartsItems(ps) == PartItems(ps[0]) + PartItems(ps[1]) + PartItems(ps[2]) + PartItems(ps[3])
              + PartItems(ps[4]) + PartItems(ps[5]) + PartItems(ps[6])
  {
    hide PartItems, PartsItems;
    SixParts(ps[..6]);
    LastPart(ps);
  }

  // ---- the encoders write what the tables say -----------------------------------------------------

  lemma RlerrorMembers(m: Message)
    requires m.Rlerror? || m.Tstatfs? || m.Rstatfs? || m.Tlopen?
    ensures Members(m) == PartsItems(ToParts(m))
  {
    hide PartsItems, Payload, PayloadOf, U1, U2, U4, U8At, FidAt, Twelve, Signed, Text, Texts, QidAt, QidsAt, AuthAt;
    hide StatAt, MaskAt, AttrAt, SetMaskAt, SetAttrAt, DirentAt, Page;
    NoParts();
    match m
    case Rlerror(_) => OneParts(ToParts(m));
    case Tstatfs(_) => OneParts(ToParts(m));
    case Rstatfs(_) => OneParts(ToParts(m));
    case Tlopen(_, _) => TwoParts(ToParts(m));
  }

  lemma RlopenMembers(m: Message)
    requires m.Rlopen? || m.Tlcreate? || m.Rlcreate? || m.Tsymlink?
    ensures Members(m) == PartsItems(ToParts(m))
  {
    hide PartsItems, Payload, PayloadOf, U1, U2, U4, U8At, FidAt, Twelve, Signed, Text, Texts, QidAt, QidsAt, AuthAt;
    hide StatAt, MaskAt, AttrAt, SetMaskAt, SetAttrAt, DirentAt, Page;
    NoParts();
    match m
    case Rlopen(_, _) => TwoParts(ToParts(m));
    case Tlcreate(_, _, _, _, _) => FiveParts(ToParts(m));
    case Rlcreate(_, _) => TwoParts(ToParts(m));
    case Tsymlink(_, _, _, _) => FourParts(ToParts(m));
  }

  lemma RsymlinkMembers(m: Message)
    requires m.Rsymlink? || m.Tmknod? || m.Rmknod? || m.Trename?
    ensures Members(m) == PartsItems(ToParts(m))
  {
    hide PartsItems, Payload, PayloadOf, U1, U2, U4, U8At, FidAt, Twelve, Signed, Text, Texts, QidAt, QidsAt, AuthAt;
    hide StatAt, MaskAt, AttrAt, SetMaskAt, SetAttrAt, DirentAt, Page;
    NoParts();
    match m
    case Rsymlink(_) => OneParts(ToParts(m));
    case Tmknod(_, _, _, _, _, _) => SixParts(ToParts(m));
    case Rmknod(_) => OneParts(ToParts(m));
    case Trename(_, _, _) => ThreeParts(ToParts(m));
  }

  lemma RrenameMembers(m: Message)
    requires m.Rrename? || m.Treadlink? || m.Rreadlink? || m.Tgetattr?
    ensures Members(m) == PartsItems(ToParts(m))
  {
    hide PartsItems, Payload, PayloadOf, U1, U2, U4, U8At, FidAt, Twelve, Signed, Text, Texts, QidAt, QidsAt, AuthAt;
    hide StatAt, MaskAt, AttrAt, SetMaskAt, SetAttrAt, DirentAt, Page;
    NoParts();
    match m
    case Rrename =>
    case Treadlink(_) => OneParts(ToParts(m));
    case Rreadlink(_) => OneParts(ToParts(m));
    case Tgetattr(_, _) => TwoParts(ToParts(m));
  }

  lemma RgetattrMembers(m: Message)
    requires m.Rgetattr? || m.Tsetattr? || m.Rsetattr? || m.Txattrwalk?
    ensures Members(m) == PartsItems(ToParts(m))
  {
    hide PartsItems, Payload, PayloadOf, U1, U2, U4, U8At, FidAt, Twelve, Signed, Text, Texts, QidAt, QidsAt, AuthAt;
    hide StatAt, MaskAt, AttrAt, SetMaskAt, SetAttrAt, DirentAt, Page;
    NoParts();
    match m
    case Rgetattr(_, _, _) => ThreeParts(ToParts(m));
    case Tsetattr(_, _, _) => ThreeParts(ToParts(m));
    case Rsetattr =>
    case Txattrwalk(_, _, _) => ThreeParts(ToParts(m));
  }

  lemma RxattrwalkMembers(m: Message)
    requires m.Rxattrwalk? || m.Txattrcreate? || m.Rxattrcreate? || m.Treaddir?
    ensures Members(m) == PartsItems(ToParts(m))
  {
    hide PartsItems, Payload, PayloadOf, U1, U2, U4, U8At, FidAt, Twelve, Signed, Text, Texts, QidAt, QidsAt, AuthAt;
    hide StatAt, MaskAt, AttrAt, SetMaskAt, SetAttrAt, DirentAt, Page;
    NoParts();
    match m
    case Rxattrwalk(_) => OneParts(ToParts(m));
    case Txattrcreate(_, _, _, _) => FourParts(ToParts(m));
    case Rxattrcreate =>
    case Treaddir(_, _, _) => ThreeParts(ToParts(m));
  }

  lemma TfsyncMembers(m: Message)
    requires m.Tfsync? || m.Rfsync? || m.Tlock? || m.Rlock?
    ensures Members(m) == PartsItems(ToParts(m))
  {
    hide PartsItems, Payload, PayloadOf, U1, U2, U4, U8At, FidAt, Twelve, Signed, Text, Texts, QidAt, QidsAt, AuthAt;
    hide StatAt, MaskAt, AttrAt, SetMaskAt, SetAttrAt, DirentAt, Page;
    NoParts();
    match m
    case Tfsync(_) => OneParts(ToParts(m));
    case Rfsync =>
    case Tlock(_, _, _, _, _, _, _) => SevenParts(ToParts(m));
    case Rlock(_) => OneParts(ToParts(m));
  }

  lemma TlinkMembers(m: Message)
    requires m.Tlink? || m.Rlink? || m.Tmkdir? || m.Rmkdir?
    ensures Members(m) == PartsItems(ToParts(m))
  {
    hide PartsItems, Payload, PayloadOf, U1, U2, U4, U8At, FidAt, Twelve, Signed, Text, Texts, QidAt, QidsAt, AuthAt;
    hide StatAt, MaskAt, AttrAt, SetMaskAt, SetAttrAt, DirentAt, Page;
    NoParts();
    match m
    case Tlink(_, _, _) => ThreeParts(ToParts(m));
    case Rlink =>
    case Tmkdir(_, _, _, _) => FourParts(ToParts(m));
    case Rmkdir(_) => OneParts(ToParts(m));
  }

  lemma TrenameatMembers(m: Message)
    requires m.Trenameat? || m.Rrenameat? || m.Tunlinkat? || m.Runlinkat?
    ensures Members(m) == PartsItems(ToParts(m))
  {
    hide PartsItems, Payload, PayloadOf, U1, U2, U4, U8At, FidAt, Twelve, Signed, Text, Texts, QidAt, QidsAt, AuthAt;
    hide StatAt, MaskAt, AttrAt, SetMaskAt, SetAttrAt, DirentAt, Page;
    NoParts();
    match m
    case Trenameat(_, _, _, _) => FourParts(ToParts(m));
    case Rrenameat =>
    case Tunlinkat(_, _, _) => ThreeParts(ToParts(m));
    case Runlinkat =>
  }

  lemma TversionMembers(m: Message)
    requires m.Tversion? || m.Rversion?
    ensures Members(m) == PartsItems(ToParts(m))
  {
    hide PartsItems, Payload, PayloadOf, U1, U2, U4, U8At, FidAt, Twelve, Signed, Text, Texts, QidAt, QidsAt, AuthAt;
    hide StatAt, MaskAt, AttrAt, SetMaskAt, SetAttrAt, DirentAt, Page;
    NoParts();
    match m
    case Tversion(_, _) => TwoParts(ToParts(m));
    case Rversion(_, _) => TwoParts(ToParts(m));
  }

  lemma TauthMembers(m: Message)
    requires m.Tauth? || m.Rauth?
    ensures Members(m) == PartsItems(ToParts(m))
  {
    hide PartsItems, Payload, PayloadOf, U1, U2, U4, U8At, FidAt, Twelve, Signed, Text, Texts, QidAt, QidsAt, AuthAt;
    hide StatAt, MaskAt, AttrAt, SetMaskAt, SetAttrAt, DirentAt, Page;
    NoParts();
    match m
    case Tauth(_) => OneParts(ToParts(m));
    case Rauth(_) => OneParts(ToParts(m));
  }

  lemma TattachMembers(m: Message)
    requires m.Tattach? || m.Rattach?
    ensures Members(m) == PartsItems(ToParts(m))
  {
    hide PartsItems, Payload, PayloadOf, U1, U2, U4, U8At, FidAt, Twelve, Signed, Text, Texts, QidAt, QidsAt, AuthAt;
    hide StatAt, MaskAt, AttrAt, SetMaskAt, SetAttrAt, DirentAt, Page;
    NoParts();
    match m
    case Tattach(_, _) => TwoParts(ToParts(m));
    case Rattach(_) => OneParts(ToParts(m));
  }

  lemma TflushMembers(m: Message)
    requires m.Tflush? || m.Rflush?
    ensures Members(m) == PartsItems(ToParts(m))
  {
    hide PartsItems, Payload, PayloadOf, U1, U2, U4, U8At, FidAt, Twelve, Signed, Text, Texts, QidAt, QidsAt, AuthAt;
    hide StatAt, MaskAt, AttrAt, SetMaskAt, SetAttrAt, DirentAt, Page;
    NoParts();
    match m
    case Tflush(_) => OneParts(ToParts(m));
    case Rflush =>
  }

  lemma TwalkMembers(m: Message)
    requires m.Twalk? || m.Rwalk?
    ensures Members(m) == PartsItems(ToParts(m))
  {
    hide PartsItems, Payload, PayloadOf, U1, U2, U4, U8At, FidAt, Twelve, Signed, Text, Texts, QidAt, QidsAt, AuthAt;
    hide StatAt, MaskAt, AttrAt, SetMaskAt, SetAttrAt, DirentAt, Page;
    NoParts();
    match m
    case Twalk(_, _, _) => ThreeParts(ToParts(m));
    case Rwalk(_) => OneParts(ToParts(m));
  }

  lemma TreadMembers(m: Message)
    requires m.Tread? || m.Rwrite?
    ensures Members(m) == PartsItems(ToParts(m))
  {
    hide PartsItems, Payload, PayloadOf, U1, U2, U4, U8At, FidAt, Twelve, Signed, Text, Texts, QidAt, QidsAt, AuthAt;
    hide StatAt, MaskAt, AttrAt, SetMaskAt, SetAttrAt, DirentAt, Page;
    NoParts();
    match m
    case Tread(_, _, _) => ThreeParts(ToParts(m));
    case Rwrite(_) => OneParts(ToParts(m));
  }

  lemma TclunkMembers(m: Message)
    requires m.Tclunk? || m.Rclunk?
    ensures Members(m) == PartsItems(ToParts(m))
  {
    hide PartsItems, Payload, PayloadOf, U1, U2, U4, U8At, FidAt, Twelve, Signed, Text, Texts, QidAt, QidsAt, AuthAt;
    hide StatAt, MaskAt, AttrAt, SetMaskAt, SetAttrAt, DirentAt, Page;
    NoParts();
    match m
    case Tclunk(_) => OneParts(ToParts(m));
    case Rclunk =>
  }

  lemma TremoveMembers(m: Message)
    requires m.Tremove? || m.Rremove?
    ensures Members(m) == PartsItems(ToParts(m))
  {
    hide PartsItems, Payload, PayloadOf, U1, U2, U4, U8At, FidAt, Twelve, Signed, Text, Texts, QidAt, QidsAt, AuthAt;
    hide StatAt, MaskAt, AttrAt, SetMaskAt, SetAttrAt, DirentAt, Page;
    NoParts();
    match m
    case Tremove(_) => OneParts(ToParts(m));
    case Rremove =>
  }

  lemma TwalkgetattrMembers(m: Message)
    requires m.Twalkgetattr? || m.Rwalkgetattr?
    ensures Members(m) == PartsItems(ToParts(m))
  {
    hide PartsItems, Payload, PayloadOf, U1, U2, U4, U8At, FidAt, Twelve, Signed, Text, Texts, QidAt, QidsAt, AuthAt;
    hide StatAt, MaskAt, AttrAt, SetMaskAt, SetAttrAt, DirentAt, Page;
    NoParts();
    match m
    case Twalkgetattr(_, _, _) => ThreeParts(ToParts(m));
    case Rwalkgetattr(_, _, _) => ThreeParts(ToParts(m));
  }

  lemma TucreateMembers(m: Message)
    requires m.Tucreate? || m.Rucreate?
    ensures Members(m) == PartsItems(ToParts(m))
  {
    hide PartsItems, Payload, PayloadOf, U1, U2, U4, U8At, FidAt, Twelve, Signed, Text, Texts, QidAt, QidsAt, AuthAt;
    hide StatAt, MaskAt, AttrAt, SetMaskAt, SetAttrAt, DirentAt, Page;
    NoParts();
    match m
    case Tucreate(_, _, _, _, _, _) => SixParts(ToParts(m));
    case Rucreate(_, _) => TwoParts(ToParts(m));
  }

  lemma TumkdirMembers(m: Message)
    requires m.Tumkdir? || m.Rumkdir?
    ensures Members(m) == PartsItems(ToParts(m))
  {
    hide PartsItems, Payload, PayloadOf, U1, U2, U4, U8At, FidAt, Twelve, Signed, Text, Texts, QidAt, QidsAt, AuthAt;
    hide StatAt, MaskAt, AttrAt, SetMaskAt, SetAttrAt, DirentAt, Page;
    NoParts();
    match m
    case Tumkdir(_, _, _, _, _) => FiveParts(ToParts(m));
    case Rumkdir(_) => OneParts(ToParts(m));
  }

  lemma TumknodMembers(m: Message)
    requires m.Tumknod? || m.Rumknod?
    ensures Members(m) == PartsItems(ToParts(m))
  {
    hide PartsItems, Payload, PayloadOf, U1, U2, U4, U8At, FidAt, Twelve, Signed, Text, Texts, QidAt, QidsAt, AuthAt;
    hide StatAt, MaskAt, AttrAt, SetMaskAt, SetAttrAt, DirentAt, Page;
    NoParts();
    match m
    case Tumknod(_, _, _, _, _, _, _) => SevenParts(ToParts(m));
    case Rumknod(_) => OneParts(ToParts(m));
  }

  lemma TusymlinkMembers(m: Message)
    requires m.Tusymlink? || m.Rusymlink?
    ensures Members(m) == PartsItems(ToParts(m))
  {
    hide PartsItems, Payload, PayloadOf, U1, U2, U4, U8At, FidAt, Twelve, Signed, Text, Texts, QidAt, QidsAt, AuthAt;
    hide StatAt, MaskAt, AttrAt, SetMaskAt, SetAttrAt, DirentAt, Page;
    NoParts();
    match m
    case Tusymlink(_, _, _, _, _) => FiveParts(ToParts(m));
    case Rusymlink(_) => OneParts(ToParts(m));
  }

  lemma {:induction false} DirentsEmitted(ds: seq<Dirent>)
    ensures Emit(DirentRun(ds)) == PutDirents(ds) && AllFit(DirentRun(ds))
  {
    hide DirentAt, PutPart;
    if ds != [] {
      DirentIs(ds[0]);
      PartEmitted(DirentPart(ds[0]));
      DirentsEmitted(ds[1..]);
      EmitConcat(DirentAt(ds[0]), DirentRun(ds[1..]));
    }
  }

  lemma DirentIs(d: Dirent)
    ensures PartItems(DirentPart(d)) == DirentAt(d)
  {
  }

  /** The body of a frame, after its header. */
  lemma BodyEmitted(m: Message)
    ensures Emit(Members(m)) == Fixed(m) + PayloadOf(m) && AllFit(Members(m)) && Number(m) == Type(m)
  {
    hide Emit, Members, Fixed, PayloadOf, Number, Type;
    if m.Rread? {
      ReadEmitted(m);
    } else if m.Twrite? {
      WriteEmitted(m);
    } else if m.Rreaddir? {
      PageEmitted(m);
    } else {
      PlainMembers(m);
      SameNumber(m);
      PartsEmitted(ToParts(m));
      Unloaded(m);
    }
  }

  /** The codes the encoders use are the table's. */
  lemma SameNumber(m: Message)
    ensures Number(m) == Type(m)
  {
  }

  lemma Unloaded(m: Message)
    requires !m.Rread? && !m.Twrite? && !m.Rreaddir?
    ensures Fixed(m) + PayloadOf(m) == PutParts(ToParts(m))
  {
    hide ToParts, PutParts;
  }

  lemma PlainMembers(m: Message)
    requires !m.Rread? && !m.Twrite? && !m.Rreaddir?
    ensures Members(m) == PartsItems(ToParts(m))
  {
    hide Members, PartsItems, ToParts;
    if m.Rlerror? || m.Tstatfs? || m.Rstatfs? || m.Tlopen? {
      RlerrorMembers(m);
    } else if m.Rlopen? || m.Tlcreate? || m.Rlcreate? || m.Tsymlink? {
      RlopenMembers(m);
    } else if m.Rsymlink? || m.Tmknod? || m.Rmknod? || m.Trename? {
      RsymlinkMembers(m);
    } else if m.Rrename? || m.Treadlink? || m.Rreadlink? || m.Tgetattr? {
      RrenameMembers(m);
    } else if m.Rgetattr? || m.Tsetattr? || m.Rsetattr? || m.Txattrwalk? {
      RgetattrMembers(m);
    } else if m.Rxattrwalk? || m.Txattrcreate? || m.Rxattrcreate? || m.Treaddir? {
      RxattrwalkMembers(m);
    } else if m.Tfsync? || m.Rfsync? || m.Tlock? || m.Rlock? {
      TfsyncMembers(m);
    } else if m.Tlink? || m.Rlink? || m.Tmkdir? || m.Rmkdir? {
      TlinkMembers(m);
    } else if m.Trenameat? || m.Rrenameat? || m.Tunlinkat? || m.Runlinkat? {
      TrenameatMembers(m);
    } else if m.Tversion? || m.Rversion? {
      TversionMembers(m);
    } else if m.Tauth? || m.Rauth? {
      TauthMembers(m);
    } else if m.Tattach? || m.Rattach? {
      TattachMembers(m);
    } else if m.Tflush? || m.Rflush? {
      TflushMembers(m);
    } else if m.Twalk? || m.Rwalk? {
      TwalkMembers(m);
    } else if m.Tread? || m.Rwrite? {
      TreadMembers(m);
    } else if m.Tclunk? || m.Rclunk? {
      TclunkMembers(m);
    } else if m.Tremove? || m.Rremove? {
      TremoveMembers(m);
    } else if m.Twalkgetattr? || m.Rwalkgetattr? {
      TwalkgetattrMembers(m);
    } else if m.Tucreate? || m.Rucreate? {
      TucreateMembers(m);
    } else if m.Tumkdir? || m.Rumkdir? {
      TumkdirMembers(m);
    } else if m.Tumknod? || m.Rumknod? {
      TumknodMembers(m);
    } else if m.Tusymlink? || m.Rusymlink? {
      TusymlinkMembers(m);
    }
  }

  lemma ReadEmitted(m: Message)
    requires m.Rread?
    ensures Emit(Members(m)) == Fixed(m) + PayloadOf(m) && AllFit(Members(m)) && Number(m) == Type(m)
  {
    hide Emit, PutParts, PartsItems;
    Limits();
    PartsEmitted(ToParts(m));
    OneParts(ToParts(m));
    EmitConcat(PartsItems(ToParts(m)), [Raw(m.data)]);
    EmitOne(Raw(m.data));
  }

  lemma WriteEmitted(m: Message)
    requires m.Twrite?
    ensures Emit(Members(m)) == Fixed(m) + PayloadOf(m) && AllFit(Members(m)) && Number(m) == Type(m)
  {
    hide Emit, PutParts, PartsItems;
    Limits();
    PartsEmitted(ToParts(m));
    ThreeParts(ToParts(m));
    EmitConcat(PartsItems(ToParts(m)), [Raw(m.data)]);
    EmitOne(Raw(m.data));
  }

  lemma PageEmitted(m: Message)
    requires m.Rreaddir?
    ensures Emit(Members(m)) == Fixed(m) + PayloadOf(m) && AllFit(Members(m)) && Number(m) == Type(m)
  {
    hide Emit, PutParts, PartsItems, PutDirents, Fitting, PageLength, Weight, DirentRun;
    Limits();
    var k := PageLength(NamesOf(m.entries), m.count);
    FittingIs(m.count, m.entries);
    EncodedWeight(m.entries[..k]);
    assert NamesOf(m.entries[..k]) == NamesOf(m.entries)[..k];
    PageWeight(NamesOf(m.entries), m.count);
    PartsEmitted(ToParts(m));
    OneParts(ToParts(m));
    DirentsEmitted(m.entries[..k]);
    EmitConcat(PartsItems(ToParts(m)), DirentRun(m.entries[..k]));
  }

  lemma FrameStands(tag: u16, m: Message)
    ensures var b := Frame(tag, m); Stands(b, 0, Header(|b|, m, tag) + Members(m))
  {
    hide Emit, Members, Fixed, PayloadOf, Number, Type, Stands, LittleEndian, AllFit;
    Limits();
    BodyEmitted(m);
    var size := HEADER + |Fixed(m)| + |PayloadOf(m)|;
    var head := Header(size, m, tag);
    HeadEmitted(size % 0x1_0000_0000, Number(m), tag);
    EmitConcat(head, Members(m));
    FitConcat(head, Members(m));
    EmitStands([], head + Members(m));
    var b := Frame(tag, m);
    assert b == [] + Emit(head + Members(m)) && |b| == size;
  }

  function Header(size: nat, m: Message, tag: u16): seq<Item>
  {
    [N(4, size % 0x1_0000_0000), N(1, Number(m)), N(2, tag)]
  }

  lemma FitConcat(a: seq<Item>, b: seq<Item>)
    requires AllFit(a) && AllFit(b)
    ensures AllFit(a + b)
  {
  }

  lemma HeadEmitted(size: u32, t: byte, tag: u16)
    ensures Emit([N(4, size), N(1, t), N(2, tag)]) == LittleEndian(size, 4) + [t] + LittleEndian(tag, 2)
    ensures AllFit([N(4, size), N(1, t), N(2, tag)])
  {
    hide Emit, LittleEndian;
    Limits();
    EmitOne(N(4, size));
    EmitOne(N(1, t));
    EmitOne(N(2, tag));
    OneByte(t);
    EmitTwo(N(1, t), N(2, tag));
    assert [N(4, size), N(1, t), N(2, tag)] == [N(4, size)] + [N(1, t), N(2, tag)];
    EmitConcat([N(4, size)], [N(1, t), N(2, tag)]);
  }

  // ---- where each member is ------------------------------------------------------------------------

  lemma {:induction false} OffsetNext(items: seq<Item>, k: nat)
    requires k < |items|
    ensures Offset(items, k + 1) == Width(items[0]) + Offset(items[1..], k)
    decreases k
  {
    if k > 0 { OffsetNext(items, k - 1); }
  }

  lemma {:induction false} StandsAt(b: Bytes, at: nat, items: seq<Item>, k: nat)
    requires Stands(b, at, items) && k <= |items|
    ensures if k == |items| then |b| == at + Offset(items, k) else Here(b, at + Offset(items, k), items[k])
    decreases |items|
  {
    hide Here, Width;
    if k > 0 {
      OffsetNext(items, k - 1);
      StandsAt(b, at + Width(items[0]), items[1..], k - 1);
    }
  }

  lemma {:induction false} OffsetPast(head: seq<Item>, items: seq<Item>, k: nat)
    requires k <= |items|
    ensures Offset(head + items, |head| + k) == Offset(head, |head|) + Offset(items, k)
    decreases k
  {
    hide Width;
    if k == 0 {
      OffsetFront(head, items, |head|);
    } else {
      OffsetPast(head, items, k - 1);
      assert (head + items)[|head| + k - 1] == items[k - 1];
    }
  }

  lemma {:induction false} OffsetFront(head: seq<Item>, items: seq<Item>, k: nat)
    requires k <= |head|
    ensures Offset(head + items, k) == Offset(head, k)
    decreases k
  {
    hide Width;
    if k > 0 { OffsetFront(head, items, k - 1); }
  }

  /** * Every frame, byte by byte: the length in its first four bytes, the type number of the table in the fifth, the
      tag in * the next two, and each member of the table at its place, with its width and its value; nothing else. */
  lemma Laid(tag: u16, m: Message)
    ensures var b, items := Frame(tag, m), Members(m);
            && |b| == 7 + Offset(items, |items|) && Num(b, 0, 4) == |b| % 0x1_0000_0000 && b[4] == Number(m)
            && Num(b, 5, 2) == tag && forall k | 0 <= k < |items| :: Here(b, 7 + Offset(items, k), items[k])
  {
    hide Frame, Members, Number, Stands, Offset, Here, Num;
    var b, items := Frame(tag, m), Members(m);
    var head := Header(|b|, m, tag);
    FrameStands(tag, m);
    forall k | 0 <= k <= |items|
      ensures if k == |items| then |b| == 7 + Offset(items, k) else Here(b, 7 + Offset(items, k), items[k])
    {
      MemberAt(b, head, items, k);
    }
    HeadAt(b, head, items);
  }

  lemma MemberAt(b: Bytes, head: seq<Item>, items: seq<Item>, k: nat)
    requires k <= |items| && |head| == 3 && Width(head[0]) == 4 && Width(head[1]) == 1 && Width(head[2]) == 2
    requires Stands(b, 0, head + items)
    ensures if k == |items| then |b| == 7 + Offset(items, k) else Here(b, 7 + Offset(items, k), items[k])
  {
    hide Stands, Here, Width;
    assert Offset(head, 1) == 4;
    assert Offset(head, 2) == 5;
    assert Offset(head, 3) == 7;
    StandsAt(b, 0, head + items, 3 + k);
    OffsetPast(head, items, k);
  }

  lemma HeadAt(b: Bytes, head: seq<Item>, items: seq<Item>)
    requires |head| == 3 && Stands(b, 0, head + items) && head[0].N? && head[0].w == 4 && head[1].N? && head[1].w == 1
    requires head[2].N? && head[2].w == 2
    ensures |b| >= 7 && Num(b, 0, 4) == head[0].v && b[4] == head[1].v && Num(b, 5, 2) == head[2].v
  {
    hide Stands;
    var all := head + items;
    StandsAt(b, 0, all, 0);
    StandsAt(b, 0, all, 1);
    StandsAt(b, 0, all, 2);
    assert Offset(all, 1) == 4 && Offset(all, 2) == 5;
    Places(b, 4);
  }
}
