/** The wire format of 9P fields: little-endian integers, counted strings and counted lists, read from a buffer with
    a sticky overflow mark. */
module Wire {

  type byte = x: int | 0 <= x < 0x100
  type u16 = x: int | 0 <= x < 0x1_0000
  type u32 = x: int | 0 <= x < 0x1_0000_0000
  type u64 = x: int | 0 <= x < 0x1_0000_0000_0000_0000
  type i32 = x: int | -0x8000_0000 <= x < 0x8000_0000

  type Bytes = seq<byte>

  const PERMISSIONS := 0x1000  // permissionsMask 0o7777 keeps twelve bits

  // ---- little-endian integers ------------------------------------------------

  function Limit(w: nat): (l: nat)
    ensures l > 0
  {
    if w == 0 then 1 else 256 * Limit(w - 1)
  }

  function LittleEndian(n: nat, w: nat): (bs: Bytes)
    ensures |bs| == w
  {
    if w == 0 then [] else [n % 256] + LittleEndian(n / 256, w - 1)
  }

  function Value(bs: Bytes): (n: nat)
    ensures n < Limit(|bs|)
  {
    if bs == [] then 0 else bs[0] + 256 * Value(bs[1..])
  }

  lemma Limits()
    ensures Limit(1) == 0x100 && Limit(2) == 0x1_0000 && Limit(4) == 0x1_0000_0000
    ensures Limit(8) == 0x1_0000_0000_0000_0000
  {
    assert Limit(2) == 256 * Limit(1) && Limit(3) == 256 * Limit(2) && Limit(4) == 256 * Limit(3);
    assert Limit(5) == 256 * Limit(4) && Limit(6) == 256 * Limit(5) && Limit(7) == 256 * Limit(6);
  }

  lemma {:induction false} ValueOf(n: nat, w: nat)
    requires n < Limit(w)
    ensures Value(LittleEndian(n, w)) == n
  {
    if w > 0 {
      ValueOf(n / 256, w - 1);
      assert LittleEndian(n, w)[1..] == LittleEndian(n / 256, w - 1);
    }
  }

  // ---- fields ------------------------------------------------------------------

  datatype Qid = Qid(kind: byte, version: u32, path: u64)

  /** What an encoder writes in one call. A fid is a 64-bit value of which 32 bits travel; permissions lose all but
      twelve bits. */
  datatype Field =
    | U8(b: byte)
    | U16(h: u16)
    | U32(w: u32)
    | U64(d: u64)
    | I32(i: i32)
    | Fid(fid: u64)
    | Perm(perm: u32)
    | Str(s: Bytes)
    | Strs(ss: seq<Bytes>)
    | Qids(qs: seq<Qid>)

  datatype Kind = KU8 | KU16 | KU32 | KU64 | KI32 | KFid | KPerm | KStr | KStrs | KQids

  function KindOf(f: Field): Kind
  {
    match f
    case U8(_) => KU8
    case U16(_) => KU16
    case U32(_) => KU32
    case U64(_) => KU64
    case I32(_) => KI32
    case Fid(_) => KFid
    case Perm(_) => KPerm
    case Str(_) => KStr
    case Strs(_) => KStrs
    case Qids(_) => KQids
  }

  function KindsOf(fs: seq<Field>): seq<Kind>
  {
    seq(|fs|, i requires 0 <= i < |fs| => KindOf(fs[i]))
  }

  // ---- writing -------------------------------------------------------------------

  /** A length is written in sixteen bits, whatever it is; the bytes follow all the same. */
  function PutString(s: Bytes): Bytes
  {
    LittleEndian(|s| % 0x1_0000, 2) + s
  }

  function PutStrings(ss: seq<Bytes>): Bytes
  {
    if ss == [] then [] else PutString(ss[0]) + PutStrings(ss[1..])
  }

  function PutQid(q: Qid): (bs: Bytes)
    ensures |bs| == 13
  {
    [q.kind] + LittleEndian(q.version, 4) + LittleEndian(q.path, 8)
  }

  function PutQids(qs: seq<Qid>): Bytes
  {
    if qs == [] then [] else PutQid(qs[0]) + PutQids(qs[1..])
  }

  function Put(f: Field): Bytes
  {
    match f
    case U8(n) => [n]
    case U16(n) => LittleEndian(n, 2)
    case U32(n) => LittleEndian(n, 4)
    case U64(n) => LittleEndian(n, 8)
    case I32(n) => LittleEndian(if n < 0 then n + 0x1_0000_0000 else n, 4)
    case Fid(n) => LittleEndian(n % 0x1_0000_0000, 4)
    case Perm(n) => LittleEndian(n % PERMISSIONS, 4)
    case Str(s) => PutString(s)
    case Strs(ss) => LittleEndian(|ss| % 0x1_0000, 2) + PutStrings(ss)
    case Qids(qs) => LittleEndian(|qs| % 0x1_0000, 2) + PutQids(qs)
  }

  function PutAll(fs: seq<Field>): Bytes
  {
    if fs == [] then [] else Put(fs[0]) + PutAll(fs[1..])
  }

  // ---- reading -------------------------------------------------------------------

  /** A read buffer. A failed read leaves the data alone, yields zero and sets the mark for good. */
  datatype Buf = Buf(data: Bytes, overflow: bool)

  function Take(b: Buf, n: nat): (Bytes, Buf)
  {
    if |b.data| >= n then (b.data[..n], b.(data := b.data[n..])) else (seq(n, _ => 0), b.(overflow := true))
  }

  function TakeInt(b: Buf, n: nat): (r: (nat, Buf))
    ensures r.0 < Limit(n)
  {
    var (bs, b') := Take(b, n);
    (Value(bs), b')
  }

  /** The length is checked against what is left before the bytes are taken. */
  function TakeString(b: Buf): (Bytes, Buf)
  {
    var (n, b') := TakeInt(b, 2);
    if |b'.data| < n then ([], b'.(overflow := true)) else (b'.data[..n], b'.(data := b'.data[n..]))
  }

  function TakeStrings(b: Buf, n: nat): (r: (seq<Bytes>, Buf))
    ensures |r.0| == n
    decreases n
  {
    if n == 0 then ([], b)
    else
      var (s, b1) := TakeString(b);
      var (ss, b2) := TakeStrings(b1, n - 1);
      ([s] + ss, b2)
  }

  function TakeQid(b: Buf): (Qid, Buf)
  {
    Limits();
    var (t, b1) := TakeInt(b, 1);
    var (v, b2) := TakeInt(b1, 4);
    var (p, b3) := TakeInt(b2, 8);
    (Qid(t, v, p), b3)
  }

  function TakeQids(b: Buf, n: nat): (r: (seq<Qid>, Buf))
    ensures |r.0| == n
    decreases n
  {
    if n == 0 then ([], b)
    else
      var (q, b1) := TakeQid(b);
      var (qs, b2) := TakeQids(b1, n - 1);
      ([q] + qs, b2)
  }

  function Get(k: Kind, b: Buf): (r: (Field, Buf))
    ensures KindOf(r.0) == k
  {
    Limits();
    match k
    case KU8 => var (n, b') := TakeInt(b, 1); (U8(n), b')
    case KU16 => var (n, b') := TakeInt(b, 2); (U16(n), b')
    case KU32 => var (n, b') := TakeInt(b, 4); (U32(n), b')
    case KU64 => var (n, b') := TakeInt(b, 8); (U64(n), b')
    case KI32 => var (n, b') := TakeInt(b, 4); (I32(if n >= 0x8000_0000 then n - 0x1_0000_0000 else n), b')
    case KFid => var (n, b') := TakeInt(b, 4); (Fid(n), b')
    case KPerm => var (n, b') := TakeInt(b, 4); (Perm(n % PERMISSIONS), b')
    case KStr => var (s, b') := TakeString(b); (Str(s), b')
    case KStrs => var (n, b1) := TakeInt(b, 2); var (ss, b2) := TakeStrings(b1, n); (Strs(ss), b2)
    case KQids => var (n, b1) := TakeInt(b, 2); var (qs, b2) := TakeQids(b1, n); (Qids(qs), b2)
  }

  function GetAll(ks: seq<Kind>, b: Buf): (r: (seq<Field>, Buf))
    ensures KindsOf(r.0) == ks
  {
    if ks == [] then ([], b)
    else
      var (f, b1) := Get(ks[0], b);
      var (fs, b2) := GetAll(ks[1..], b1);
      ([f] + fs, b2)
  }

  // ---- what survives the wire -------------------------------------------------------

  /** The lengths fit their sixteen-bit counts. */
  predicate Counted(f: Field)
  {
    match f
    case Str(s) => |s| < 0x1_0000
    case Strs(ss) => |ss| < 0x1_0000 && forall s | s in ss :: |s| < 0x1_0000
    case Qids(qs) => |qs| < 0x1_0000
    case _ => true
  }

  /** What a reader makes of a counted field: fids lose their upper half, permissions all but twelve bits. */
  function Narrow(f: Field): Field
  {
    match f
    case Fid(n) => Fid(n % 0x1_0000_0000)
    case Perm(n) => Perm(n % PERMISSIONS)
    case _ => f
  }

  function NarrowAll(fs: seq<Field>): (r: seq<Field>)
    ensures |r| == |fs| && forall i | 0 <= i < |fs| :: r[i] == Narrow(fs[i])
  {
    if fs == [] then [] else [Narrow(fs[0])] + NarrowAll(fs[1..])
  }

  lemma TakePut(bs: Bytes, rest: Bytes)
    ensures Take(Buf(bs + rest, false), |bs|) == (bs, Buf(rest, false))
  {
    assert (bs + rest)[..|bs|] == bs && (bs + rest)[|bs|..] == rest;
  }

  lemma IntBack(n: nat, w: nat, rest: Bytes)
    requires n < Limit(w)
    ensures TakeInt(Buf(LittleEndian(n, w) + rest, false), w) == (n, Buf(rest, false))
  {
    TakePut(LittleEndian(n, w), rest);
    ValueOf(n, w);
  }

  lemma StringBack(s: Bytes, rest: Bytes)
    requires |s| < 0x1_0000
    ensures TakeString(Buf(PutString(s) + rest, false)) == (s, Buf(rest, false))
  {
    hide LittleEndian, TakeInt;
    Limits();
    assert PutString(s) + rest == LittleEndian(|s|, 2) + (s + rest);
    IntBack(|s|, 2, s + rest);
    TakePut(s, rest);
  }

  lemma {:induction false} StringsBack(ss: seq<Bytes>, rest: Bytes)
    requires forall s | s in ss :: |s| < 0x1_0000
    ensures TakeStrings(Buf(PutStrings(ss) + rest, false), |ss|) == (ss, Buf(rest, false))
  {
    hide TakeString, PutString;
    if ss == [] {
      assert PutStrings(ss) + rest == rest;
    } else {
      assert PutStrings(ss) + rest == PutString(ss[0]) + (PutStrings(ss[1..]) + rest);
      StringBack(ss[0], PutStrings(ss[1..]) + rest);
      StringsBack(ss[1..], rest);
      assert [ss[0]] + ss[1..] == ss;
    }
  }

  lemma QidBack(q: Qid, rest: Bytes)
    ensures TakeQid(Buf(PutQid(q) + rest, false)) == (q, Buf(rest, false))
  {
    hide LittleEndian, TakeInt;
    Limits();
    var v, p := LittleEndian(q.version, 4), LittleEndian(q.path, 8);
    assert PutQid(q) + rest == LittleEndian(q.kind, 1) + (v + (p + rest)) by { OneByte(q.kind); }
    IntBack(q.kind, 1, v + (p + rest));
    IntBack(q.version, 4, p + rest);
    IntBack(q.path, 8, rest);
  }

  lemma OneByte(b: byte)
    ensures LittleEndian(b, 1) == [b]
  {
  }

  lemma {:induction false} QidsBack(qs: seq<Qid>, rest: Bytes)
    ensures TakeQids(Buf(PutQids(qs) + rest, false), |qs|) == (qs, Buf(rest, false))
  {
    hide TakeQid, PutQid;
    if qs == [] {
      assert PutQids(qs) + rest == rest;
    } else {
      assert PutQids(qs) + rest == PutQid(qs[0]) + (PutQids(qs[1..]) + rest);
      QidBack(qs[0], PutQids(qs[1..]) + rest);
      QidsBack(qs[1..], rest);
      assert [qs[0]] + qs[1..] == qs;
    }
  }

  lemma FieldBack(f: Field, rest: Bytes)
    requires Counted(f)
    ensures Get(KindOf(f), Buf(Put(f) + rest, false)) == (Narrow(f), Buf(rest, false))
  {
    hide LittleEndian, TakeInt, TakeString, TakeStrings, TakeQids, PutString, PutStrings, PutQids;
    Limits();
    match f
    case U8(n) => OneByte(n); IntBack(n, 1, rest);
    case U16(n) => IntBack(n, 2, rest);
    case U32(n) => IntBack(n, 4, rest);
    case U64(n) => IntBack(n, 8, rest);
    case I32(n) => IntBack(if n < 0 then n + 0x1_0000_0000 else n, 4, rest);
    case Fid(n) => IntBack(n % 0x1_0000_0000, 4, rest);
    case Perm(n) => IntBack(n % PERMISSIONS, 4, rest);
    case Str(s) => StringBack(s, rest);
    case Strs(ss) =>
      assert Put(f) + rest == LittleEndian(|ss|, 2) + (PutStrings(ss) + rest);
      IntBack(|ss|, 2, PutStrings(ss) + rest);
      StringsBack(ss, rest);
    case Qids(qs) =>
      assert Put(f) + rest == LittleEndian(|qs|, 2) + (PutQids(qs) + rest);
      IntBack(|qs|, 2, PutQids(qs) + rest);
      QidsBack(qs, rest);
  }

  /** Reading back what was written yields the fields, narrowed, and leaves what follows them. */
  lemma {:induction false} FieldsBack(fs: seq<Field>, rest: Bytes)
    requires forall f | f in fs :: Counted(f)
    ensures GetAll(KindsOf(fs), Buf(PutAll(fs) + rest, false)) == (NarrowAll(fs), Buf(rest, false))
  {
    hide Get, Put, Narrow, Counted;
    if fs == [] {
      assert PutAll(fs) + rest == rest;
    } else {
      assert PutAll(fs) + rest == Put(fs[0]) + (PutAll(fs[1..]) + rest);
      assert KindsOf(fs)[1..] == KindsOf(fs[1..]);
      FieldBack(fs[0], PutAll(fs[1..]) + rest);
      FieldsBack(fs[1..], rest);
    }
  }

  // ---- overruns ------------------------------------------------------------------------

  // More bytes at the end change nothing about a read that did not overrun.

  lemma TakeMore(b: Buf, n: nat, more: Bytes)
    requires !Take(b, n).1.overflow
    ensures !b.overflow
    ensures Take(Buf(b.data + more, b.overflow), n) == (Take(b, n).0, Buf(Take(b, n).1.data + more, false))
  {
    assert (b.data + more)[..n] == b.data[..n] && (b.data + more)[n..] == b.data[n..] + more;
  }

  lemma TakeIntMore(b: Buf, n: nat, more: Bytes)
    requires !TakeInt(b, n).1.overflow
    ensures !b.overflow
    ensures TakeInt(Buf(b.data + more, b.overflow), n) == (TakeInt(b, n).0, Buf(TakeInt(b, n).1.data + more, false))
  {
    TakeMore(b, n, more);
  }

  lemma TakeStringMore(b: Buf, more: Bytes)
    requires !TakeString(b).1.overflow
    ensures !b.overflow
    ensures TakeString(Buf(b.data + more, b.overflow)) == (TakeString(b).0, Buf(TakeString(b).1.data + more, false))
  {
    hide TakeInt;
    var (n, b') := TakeInt(b, 2);
    TakeIntMore(b, 2, more);
    TakeMore(b', n, more);
  }

  lemma {:induction false} TakeStringsMore(b: Buf, n: nat, more: Bytes)
    requires !TakeStrings(b, n).1.overflow
    ensures !b.overflow
    ensures TakeStrings(Buf(b.data + more, b.overflow), n)
              == (TakeStrings(b, n).0, Buf(TakeStrings(b, n).1.data + more, false))
    decreases n
  {
    hide TakeString;
    if n > 0 {
      TakeStringsMore(TakeString(b).1, n - 1, more);
      TakeStringMore(b, more);
    }
  }

  lemma TakeQidMore(b: Buf, more: Bytes)
    requires !TakeQid(b).1.overflow
    ensures !b.overflow
    ensures TakeQid(Buf(b.data + more, b.overflow)) == (TakeQid(b).0, Buf(TakeQid(b).1.data + more, false))
  {
    hide TakeInt;
    Limits();
    var b1 := TakeInt(b, 1).1;
    var b2 := TakeInt(b1, 4).1;
    TakeIntMore(b2, 8, more);
    TakeIntMore(b1, 4, more);
    TakeIntMore(b, 1, more);
  }

  lemma {:induction false} TakeQidsMore(b: Buf, n: nat, more: Bytes)
    requires !TakeQids(b, n).1.overflow
    ensures !b.overflow
    ensures TakeQids(Buf(b.data + more, b.overflow), n) == (TakeQids(b, n).0, Buf(TakeQids(b, n).1.data + more, false))
    decreases n
  {
    hide TakeQid;
    if n > 0 {
      TakeQidsMore(TakeQid(b).1, n - 1, more);
      TakeQidMore(b, more);
    }
  }

  lemma GetMore(k: Kind, b: Buf, more: Bytes)
    requires !Get(k, b).1.overflow
    ensures !b.overflow && Get(k, Buf(b.data + more, b.overflow)) == (Get(k, b).0, Buf(Get(k, b).1.data + more, false))
  {
    hide TakeInt, TakeString, TakeStrings, TakeQids;
    Limits();
    match k
    case KU8 => TakeIntMore(b, 1, more);
    case KU16 => TakeIntMore(b, 2, more);
    case KU32 | KI32 | KFid | KPerm => TakeIntMore(b, 4, more);
    case KU64 => TakeIntMore(b, 8, more);
    case KStr => TakeStringMore(b, more);
    case KStrs =>
      var (n, b1) := TakeInt(b, 2);
      TakeStringsMore(b1, n, more);
      TakeIntMore(b, 2, more);
    case KQids =>
      var (n, b1) := TakeInt(b, 2);
      TakeQidsMore(b1, n, more);
      TakeIntMore(b, 2, more);
  }

  lemma {:induction false} GetAllMore(ks: seq<Kind>, b: Buf, more: Bytes)
    requires !GetAll(ks, b).1.overflow
    ensures !b.overflow
    ensures GetAll(ks, Buf(b.data + more, b.overflow)) == (GetAll(ks, b).0, Buf(GetAll(ks, b).1.data + more, false))
  {
    hide Get;
    if ks != [] {
      GetAllMore(ks[1..], Get(ks[0], b).1, more);
      GetMore(ks[0], b, more);
    }
  }
}
