/** Listing a directory page by page: the backing listing by entry index, the answer cut to the byte count, the
    resumption at the last offset received. */
module Readdirs {
  import opened Options
  import opened Wire
  import opened Records
  import opened Messages
  import opened Codec
  import opened Transport
  import Sizes

  /** The entry for the name at index `i`: its offset is the index of the next one. */
  function Entry(names: seq<Bytes>, qids: map<Bytes, Qid>, i: nat): Dirent
    requires i < |names| < 0x1_0000_0000_0000_0000
  {
    var q := if names[i] in qids then qids[names[i]] else Qid(0, 0, 0);
    Dirent(q, i + 1, q.kind, names[i])
  }

  function Entries(names: seq<Bytes>, qids: map<Bytes, Qid>, from: nat, to: nat): (ds: seq<Dirent>)
    requires from <= to <= |names| < 0x1_0000_0000_0000_0000
    ensures |ds| == to - from && forall i | 0 <= i < |ds| :: ds[i] == Entry(names, qids, from + i)
  {
    seq(to - from, i requires 0 <= i < to - from => Entry(names, qids, from + i))
  }

  /** Readdir of a static directory: `count` bytes are asked for, at most `count` entries are returned. */
  method Readdir(offset: u64, count: u32, names: seq<Bytes>, qids: map<Bytes, Qid>) returns (ds: seq<Dirent>)
    requires |names| < 0x1_0000_0000_0000_0000
    ensures ds == Asked(names, qids, offset, count) && |ds| == if offset >= |names| then 0
            else Min(count, |names| - offset)
    ensures forall i | 0 <= i < |ds| ::
              && ds[i].name == names[offset + i] && ds[i].offset == offset + i + 1
              && (ds[i].name in qids ==> ds[i].qid == qids[ds[i].name] && ds[i].kind == qids[ds[i].name].kind)
  {
    if offset >= |names| { return []; }
    var end := Min(offset + count, |names|);
    ds := [];
    var i := offset;
    while i < end
      invariant offset <= i <= end && ds == Entries(names, qids, offset, i)
    {
      ds := ds + [Entry(names, qids, i)];
      i := i + 1;
    }
  }

  // ---- what one answer carries --------------------------------------------------------------------

  lemma {:induction false} FittingFrom(count: nat, ds: seq<Dirent>, n: nat, k: nat)
    requires n <= k <= |ds| && (forall j | n < j <= k :: |PutDirents(ds[..j])| <= count)
    requires (k < |ds| ==> |PutDirents(ds[..k + 1])| > count)
    ensures Fitting(count, ds, n) == k
    decreases k - n
  {
    hide PutDirents;
    if n < k { FittingFrom(count, ds, n + 1, k); }
  }

  /** An answer carries the longest prefix of the entries whose encoding fits the byte count. */
  lemma LongestPrefix(count: nat, ds: seq<Dirent>, k: nat)
    requires k <= |ds|
    ensures Fitting(count, ds, 0) == k <==>
              (k > 0 ==> |PutDirents(ds[..k])| <= count) && (k < |ds| ==> |PutDirents(ds[..k + 1])| > count)
  {
    hide PutDirents;
    if (k > 0 ==> |PutDirents(ds[..k])| <= count) && (k < |ds| ==> |PutDirents(ds[..k + 1])| > count) {
      forall j | 0 < j <= k ensures |PutDirents(ds[..j])| <= count {
        PrefixFits(ds[..k], j);
        assert ds[..k][..j] == ds[..j];
      }
      FittingFrom(count, ds, 0, k);
    } else {
      FittingEnds(count, ds, 0);
    }
  }

  lemma {:induction false} FittingEnds(count: nat, ds: seq<Dirent>, n: nat)
    requires n <= |ds|
    ensures var k := Fitting(count, ds, n);
            (k > n ==> |PutDirents(ds[..k])| <= count) && (k < |ds| ==> |PutDirents(ds[..k + 1])| > count)
    decreases |ds| - n
  {
    hide PutDirents;
    if !(n == |ds| || |PutDirents(ds[..n + 1])| > count) { FittingEnds(count, ds, n + 1); }
  }

  /** The loop of Rreaddir's encoder: encode, measure, and keep the last length that fits. */
  method Cut(count: u32, ds: seq<Dirent>) returns (payload: Bytes)
    ensures payload == PayloadOf(Rreaddir(count, ds))
  {
    hide PutPart;
    var encoded, size, i := [], 0, 0;
    assert ds[..0] == [];
    while i < |ds|
      invariant 0 <= i <= |ds| && encoded == PutDirents(ds[..i]) && size == |encoded|
      invariant Fitting(count, ds, 0) == Fitting(count, ds, i)
    {
      encoded := encoded + PutPart(DirentPart(ds[i]));
      assert ds[..i + 1] == ds[..i] + [ds[i]] && [ds[i]][1..] == [];
      PutDirentsConcat(ds[..i], [ds[i]]);
      if |encoded| > count {
        PrefixIs(PutDirents(ds[..i]), PutPart(DirentPart(ds[i])));
        return encoded[..size];
      }
      size := |encoded|;
      i := i + 1;
    }
    payload := encoded[..size];
  }

  lemma PrefixIs(a: Bytes, b: Bytes)
    ensures (a + b)[..|a|] == a
  {
  }

  /** What the client decodes from the payload of an answer to a request for `count` bytes. */
  lemma DecodesPrefix(count: u32, ds: seq<Dirent>)
    requires Named(ds)
    ensures GetDirents(Buf(PayloadOf(Rreaddir(count, ds)), false)) == ds[..Fitting(count, ds, 0)]
  {
    hide GetDirents, PutDirents;
    DirentsBack(ds[..Fitting(count, ds, 0)]);
  }

  // ---- one page over the wire -----------------------------------------------------------------------

  /** Nothing on the server's side compares the count with the message size, and the receiver refuses frames above
      it: the client gets the entries exactly when the page's frame fits, and else nothing. A frame whose length fits
      its 32 bits then ends the connection. */
  lemma PageOutcome(tag: u16, count: u32, ds: seq<Dirent>, rest: Bytes, msize: u32, lookup: Lookup)
    requires Named(ds) && Registered(lookup) && lookup(tag, 41)
    ensures var page := ds[..Fitting(count, ds, 0)];
            var (o, left) := Recv(Frame(tag, Rreaddir(count, ds)) + rest, msize, lookup);
            && (o.Got? <==> PAGE + |PutDirents(page)| <= Min(msize, MAXIMUM))
            && (o.Got? ==>
                  |PutDirents(page)| < 0x1_0000_0000 && o == Got(tag, Rreaddir(|PutDirents(page)|, page))
                  && left == rest)
            && (!o.Got? && PAGE + |PutDirents(page)| < 0x1_0000_0000 ==> o == ConnError)
  {
    hide GetDirents, PutDirents, Fitting, Recv, Kinds, WellFormed, Frame, Fixed, FrameFits;
    var m, page := Rreaddir(count, ds), ds[..Fitting(count, ds, 0)];
    Sizes.PageFrame(tag, m);
    FitsIs(m, msize, PAGE + |PutDirents(page)|);
    if FrameFits(m, msize) {
      var m' := Rreaddir(|PutDirents(page)|, page);
      SameFrame(tag, count, ds);
      ShortWellFormed(page);
      FitsIs(m', msize, PAGE + |PutDirents(page)|);
      FrameReturns(tag, m', rest, msize, lookup);
    } else if PAGE + |PutDirents(page)| < 0x1_0000_0000 {
      FrameTooLong(tag, m, rest, msize, lookup);
    } else {
      Wrapped(tag, m, rest, msize, lookup);
    }
  }

  lemma FitsIs(m: Message, msize: u32, n: nat)
    requires n == HEADER + |Fixed(m)| + |PayloadOf(m)|
    ensures FrameFits(m, msize) <==> n <= Min(msize, MAXIMUM)
  {
    hide Fixed, PayloadOf;
  }

  /** The encoder cuts the entries and then writes a message that is its own whole page. */
  lemma SameFrame(tag: u16, count: u32, ds: seq<Dirent>)
    ensures var page := ds[..Fitting(count, ds, 0)];
            && |PutDirents(page)| <= count
            && (var m' := Rreaddir(|PutDirents(page)|, page);
                Frame(tag, m') == Frame(tag, Rreaddir(count, ds)) && Fixed(m') == Fixed(Rreaddir(count, ds))
                  && PayloadOf(m') == PutDirents(page))
  {
    hide PutDirents, Fitting, LittleEndian, PutParts;
    var page := ds[..Fitting(count, ds, 0)];
    Sizes.PageFrame(tag, Rreaddir(count, ds));
    FittingWhole(|PutDirents(page)|, page, 0);
    assert page[..|page|] == page;
  }

  lemma ShortWellFormed(page: seq<Dirent>)
    requires Named(page) && |PutDirents(page)| < 0x1_0000_0000
    ensures WellFormed(Rreaddir(|PutDirents(page)|, page))
  {
    hide PutDirents;
  }

  /** The few frames whose length wraps around its 32 bits arrive as too short to hold a page. */
  lemma Wrapped(tag: u16, m: Message, rest: Bytes, msize: u32, lookup: Lookup)
    requires m.Rreaddir? && Registered(lookup) && lookup(tag, 41) && PAGE + |PayloadOf(m)| >= 0x1_0000_0000
    ensures !Recv(Frame(tag, m) + rest, msize, lookup).0.Got?
  {
    hide Fixed, PayloadOf, Decode, Kinds, Frame, Size, Tag, TypeOf;
    Sizes.PageFrame(tag, m);
    FrameHeader(tag, m, rest);
  }

  // ---- the listing as a caller can foresee it, from the lengths of the names alone -------------------

  const PAGE := 11    // header and byte count

  function Weight(names: seq<Bytes>): nat
  {
    if names == [] then 0 else 24 + |names[0]| + Weight(names[1..])
  }

  /** How many names a page of `count` bytes takes. */
  function PageLength(rest: seq<Bytes>, count: int): (k: nat)
    ensures k <= |rest|
  {
    if rest == [] || 24 + |rest[0]| > count then 0 else 1 + PageLength(rest[1..], count - 24 - |rest[0]|)
  }

  datatype Ending = Complete | Truncated | Broken

  /** How many names a listing finds, and how it ends: a page too long for a message breaks the connection, and a
      page too short for its first name looks like the end of the directory. */
  function Expected(rest: seq<Bytes>, counts: nat -> u32, page: nat, msize: u32): (nat, Ending)
    decreases |rest|
  {
    var k := PageLength(rest, counts(page));
    if PAGE + Weight(rest[..k]) > Min(msize, MAXIMUM) then (0, Broken)
    else if k == 0 then (0, if rest == [] then Complete else Truncated)
    else
      var (n, e) := Expected(rest[k..], counts, page + 1, msize);
      (k + n, e)
  }

  lemma {:induction false} WeightConcat(a: seq<Bytes>, b: seq<Bytes>)
    ensures Weight(a + b) == Weight(a) + Weight(b)
  {
    if a == [] {
      assert a + b == b;
    } else {
      assert (a + b)[1..] == a[1..] + b;
      WeightConcat(a[1..], b);
    }
  }

  lemma {:induction false} PageWeight(rest: seq<Bytes>, count: nat)
    ensures var k := PageLength(rest, count);
            Weight(rest[..k]) <= count && (k < |rest| ==> Weight(rest[..k + 1]) > count)
  {
    var k := PageLength(rest, count);
    if rest != [] {
      assert rest[..1][1..] == [];
      if k > 0 {
        PageWeight(rest[1..], count - 24 - |rest[0]|);
        assert rest[..k][1..] == rest[1..][..k - 1];
        if k < |rest| { assert rest[..k + 1][1..] == rest[1..][..k]; }
      }
    }
  }

  /** At most `count` entries are looked at, which is never too few. */
  lemma {:induction false} PageCut(rest: seq<Bytes>, count: nat, n: nat)
    requires count <= n <= |rest|
    ensures PageLength(rest[..n], count) == PageLength(rest, count)
  {
    if n > 0 && 24 + |rest[0]| <= count {
      assert rest[..n][1..] == rest[1..][..n - 1];
      PageCut(rest[1..], count - 24 - |rest[0]|, n - 1);
    }
  }

  lemma {:induction false} EncodedWeight(ds: seq<Dirent>)
    ensures |PutDirents(ds)| == Weight(NamesOf(ds))
  {
    hide PutPart;
    if ds != [] {
      DirentSize(ds[0]);
      EncodedWeight(ds[1..]);
      assert NamesOf(ds)[1..] == NamesOf(ds[1..]);
    }
  }

  lemma FittingIs(count: nat, ds: seq<Dirent>)
    ensures Fitting(count, ds, 0) == PageLength(NamesOf(ds), count)
  {
    hide Fitting, PutDirents, PageLength;
    var k := PageLength(NamesOf(ds), count);
    PageWeight(NamesOf(ds), count);
    EncodedWeight(ds[..k]);
    assert NamesOf(ds[..k]) == NamesOf(ds)[..k];
    if k < |ds| {
      EncodedWeight(ds[..k + 1]);
      assert NamesOf(ds[..k + 1]) == NamesOf(ds)[..k + 1];
    }
    LongestPrefix(count, ds, k);
  }

  predicate RoomFor(names: seq<Bytes>, room: nat)
  {
    forall n | n in names :: 24 + |n| <= room
  }

  /** The first page takes some names, the rest still have room, and their weights add up. */
  lemma NextPage(rest: seq<Bytes>, room: nat, count: nat)
    requires RoomFor(rest, room) && room <= count && rest != []
    ensures var k := PageLength(rest, count);
            0 < k && RoomFor(rest[k..], room) && Weight(rest[..k]) <= count
              && Weight(rest) == Weight(rest[..k]) + Weight(rest[k..])
  {
    assert rest[0] in rest;
    var k := PageLength(rest, count);
    PageWeight(rest, count);
    WeightConcat(rest[..k], rest[k..]);
    assert rest[..k] + rest[k..] == rest;
  }

  /** A listing is complete when every count has room for the longest name and leaves the message room for the page. */
  lemma {:induction false} SafeCounts(rest: seq<Bytes>, room: nat, counts: nat -> u32, page: nat, msize: u32)
    requires RoomFor(rest, room) && forall i :: room <= counts(i) && PAGE + counts(i) <= Min(msize, MAXIMUM)
    ensures Expected(rest, counts, page, msize) == (|rest|, Complete)
    decreases |rest|
  {
    hide RoomFor, Weight, PageLength;
    assert room <= counts(page);
    if rest == [] {
      EmptyPage(counts(page));
    } else {
      NextPage(rest, room, counts(page));
      SafeCounts(rest[PageLength(rest, counts(page))..], room, counts, page + 1, msize);
    }
  }

  /** A directory that fits one message is listed whatever the counts, as long as they have room for its names. */
  lemma {:induction false} SmallDirectory(rest: seq<Bytes>, room: nat, counts: nat -> u32, page: nat, msize: u32)
    requires RoomFor(rest, room) && (forall i :: room <= counts(i)) && PAGE + Weight(rest) <= Min(msize, MAXIMUM)
    ensures Expected(rest, counts, page, msize) == (|rest|, Complete)
    decreases |rest|
  {
    hide RoomFor, Weight, PageLength;
    assert room <= counts(page);
    if rest == [] {
      EmptyPage(counts(page));
    } else {
      NextPage(rest, room, counts(page));
      SmallDirectory(rest[PageLength(rest, counts(page))..], room, counts, page + 1, msize);
    }
  }

  lemma EmptyPage(count: nat)
    ensures PageLength([], count) == 0 && Weight([]) == 0
  {
  }

  /** A listing counts as complete exactly when it found every name and the empty page after them arrived. */
  lemma {:induction false} CompleteAll(rest: seq<Bytes>, counts: nat -> u32, page: nat, msize: u32)
    ensures var (n, e) := Expected(rest, counts, page, msize);
            n <= |rest| && (e.Complete? <==> n == |rest| && PAGE <= msize)
    decreases |rest|
  {
    var k := PageLength(rest, counts(page));
    if k > 0 && PAGE + Weight(rest[..k]) <= Min(msize, MAXIMUM) { CompleteAll(rest[k..], counts, page + 1, msize); }
  }

  /** Three thousand distinct names of ten bytes. */
  function Numbered(): (names: seq<Bytes>)
    ensures |names| == 3000 && forall i | 0 <= i < 3000 :: |names[i]| == 10
  {
    seq(3000, i requires 0 <= i < 3000 => [i / 256, i % 256] + seq(8, _ => 97))
  }

  lemma {:induction false} TenWeight(names: seq<Bytes>)
    requires forall i | 0 <= i < |names| :: |names[i]| == 10
    ensures Weight(names) == 34 * |names|
  {
    if names != [] { TenWeight(names[1..]); }
  }

  /** A page of one MiB takes them all. */
  lemma AllNumbered()
    ensures PageLength(Numbered(), 0x10_0000) == 3000 && Weight(Numbered()[..3000]) == 102000
  {
    hide Numbered, PageLength, Weight;
    var names := Numbered();
    var k := PageLength(names, 0x10_0000);
    PageWeight(names, 0x10_0000);
    TenWeight(names);
    if k < |names| { TenWeight(names[..k + 1]); }
    assert names[..3000] == names;
  }

  /** So a listing with that count breaks at its first page on a connection of the default message size. */
  lemma LargeCountBreaks()
    ensures Expected(Numbered(), _ => 0x10_0000, 0, 0x1_0000) == (0, Broken)
  {
    hide Numbered, PageLength, Weight;
    AllNumbered();
  }

  // ---- the whole listing ----------------------------------------------------------------------------

  function NamesOf(ds: seq<Dirent>): (ns: seq<Bytes>)
    ensures |ns| == |ds| && forall i | 0 <= i < |ds| :: ns[i] == ds[i].name
  {
    seq(|ds|, i requires 0 <= i < |ds| => ds[i].name)
  }

  /** The entries one request gets from the directory. */
  function Asked(names: seq<Bytes>, qids: map<Bytes, Qid>, offset: nat, count: u32): seq<Dirent>
    requires |names| < 0x1_0000_0000_0000_0000
  {
    if offset >= |names| then [] else Entries(names, qids, offset, Min(offset + count, |names|))
  }

  lemma AskedPage(names: seq<Bytes>, qids: map<Bytes, Qid>, offset: nat, count: u32)
    requires |names| < 0x1_0000_0000_0000_0000 && (forall n | n in names :: |n| < 0x1_0000) && offset <= |names|
    ensures var ds := Asked(names, qids, offset, count);
            var k := PageLength(names[offset..], count);
            && Named(ds) && Fitting(count, ds, 0) == k <= |ds| && NamesOf(ds[..k]) == names[offset..][..k]
            && |PutDirents(ds[..k])| == Weight(names[offset..][..k])
            && (k > 0 ==> ds[..k][k - 1].offset == offset + k)
  {
    hide Fitting, PutDirents, PageLength, Weight;
    var ds, rest := Asked(names, qids, offset, count), names[offset..];
    forall d | d in ds ensures |d.name| < 0x1_0000 {
      var i :| 0 <= i < |ds| && ds[i] == d;
      assert d.name == names[offset + i];
    }
    FittingIs(count, ds);
    assert NamesOf(ds) == rest[..|ds|];
    if |ds| < |rest| { PageCut(rest, count, |ds|); } else { assert rest[..|ds|] == rest; }
    var k := Fitting(count, ds, 0);
    EncodedWeight(ds[..k]);
    assert NamesOf(ds[..k]) == rest[..k];
  }

  /** One Treaddir and its answer; None when the page does not arrive. */
  method Page(names: seq<Bytes>, qids: map<Bytes, Qid>, offset: u64, count: u32, tag: u16, msize: u32, lookup: Lookup)
      returns (page: Option<seq<Dirent>>)
    requires |names| < 0x1_0000_0000_0000_0000 && (forall n | n in names :: |n| < 0x1_0000) && offset <= |names|
    requires Registered(lookup) && lookup(tag, 41)
    ensures var rest := names[offset..];
            var k := PageLength(rest, count);
            && (page.Some? <==> PAGE + Weight(rest[..k]) <= Min(msize, MAXIMUM))
            && (page.Some? ==> NamesOf(page.value) == rest[..k] && (k > 0 ==> page.value[k - 1].offset == offset + k))
  {
    hide Recv, Frame, PutDirents, Fitting, PageLength, Weight, Entries;
    var ds := Readdir(offset, count, names, qids);
    AskedPage(names, qids, offset, count);
    PageOutcome(tag, count, ds, [], msize, lookup);
    var frame := Frame(tag, Rreaddir(count, ds));
    assert frame + [] == frame;
    var o := Recv(frame, msize, lookup).0;
    page := if o.Got? then Some(o.m.entries) else None;
  }

  /** With `offset` names found, the rest is as foreseen for the names that follow. */
  predicate Comes(names: seq<Bytes>, counts: nat -> u32, offset: nat, pages: nat, msize: u32)
    requires offset <= |names|
  {
    var (n, e) := Expected(names[offset..], counts, pages, msize);
    Expected(names, counts, 0, msize) == (offset + n, e)
  }

  lemma FromTheStart(names: seq<Bytes>, counts: nat -> u32, msize: u32)
    ensures Comes(names, counts, 0, 0, msize)
  {
    hide Expected;
    assert names[0..] == names;
  }

  lemma ExpectedNext(rest: seq<Bytes>, counts: nat -> u32, page: nat, msize: u32)
    ensures var k := PageLength(rest, counts(page));
            Expected(rest, counts, page, msize)
            == if PAGE + Weight(rest[..k]) > Min(msize, MAXIMUM) then (0, Broken)
               else if k == 0 then (0, if rest == [] then Complete else Truncated)
               else var (n, e) := Expected(rest[k..], counts, page + 1, msize); (k + n, e)
  {
    hide PageLength, Weight;
  }

  lemma OnePage(names: seq<Bytes>, counts: nat -> u32, offset: nat, pages: nat, msize: u32)
    requires offset <= |names| && Comes(names, counts, offset, pages, msize)
    ensures var rest := names[offset..];
            var k := PageLength(rest, counts(pages));
            if PAGE + Weight(rest[..k]) > Min(msize, MAXIMUM) then Expected(names, counts, 0, msize) == (offset, Broken)
            else if k == 0 then
              Expected(names, counts, 0, msize) == (offset, if offset == |names| then Complete else Truncated)
            else Comes(names, counts, offset + k, pages + 1, msize)
  {
    hide Weight, PageLength, Expected;
    var k := PageLength(names[offset..], counts(pages));
    ExpectedNext(names[offset..], counts, pages, msize);
    assert names[offset..][k..] == names[offset + k..];
  }

  /** Resuming at the last entry's offset: a prefix of the names, each once and in order, as long and ending as
      foreseen. */
  method ListAll(names: seq<Bytes>, qids: map<Bytes, Qid>, counts: nat -> u32, tags: nat -> u16, msize: u32,
                 lookup: Lookup)
      returns (found: seq<Bytes>, pages: nat, ending: Ending)
    requires |names| < 0x1_0000_0000_0000_0000 && (forall n | n in names :: |n| < 0x1_0000)
    requires Registered(lookup) && forall i :: lookup(tags(i), 41)
    ensures found <= names && pages <= |found| + 1 && (|found|, ending) == Expected(names, counts, 0, msize)
  {
    hide PageLength, Weight, Expected, Comes;
    found, pages := [], 0;
    var offset: u64 := 0;
    FromTheStart(names, counts, msize);
    while true
      invariant offset <= |names| && found == names[..offset] && pages <= offset
      invariant Comes(names, counts, offset, pages, msize)
      decreases |names| - offset
    {
      var page := Page(names, qids, offset, counts(pages), tags(pages), msize, lookup);
      OnePage(names, counts, offset, pages, msize);
      pages := pages + 1;
      if page.None? { return found, pages, Broken; }
      if page.value == [] {
        return found, pages, if offset == |names| then Complete else Truncated;
      }
      var k := |page.value|;
      assert names[..offset] + names[offset..][..k] == names[..offset + k];
      found := found + NamesOf(page.value);
      offset := page.value[k - 1].offset;
    }
  }

  /** The frame of that first page, as the client receives it. */
  lemma LargeCountLost(tag: u16, qids: map<Bytes, Qid>, rest: Bytes, lookup: Lookup)
    requires Registered(lookup) && lookup(tag, 41)
    ensures Recv(Frame(tag, Rreaddir(0x10_0000, Asked(Numbered(), qids, 0, 0x10_0000))) + rest, 0x1_0000, lookup).0
              == ConnError
  {
    hide Recv, Frame, PutDirents, Fitting, PageLength, Weight, Entries, Numbered;
    var names := Numbered();
    AllNumbered();
    assert names[0..] == names;
    AskedPage(names, qids, 0, 0x10_0000);
    PageOutcome(tag, 0x10_0000, Asked(names, qids, 0, 0x10_0000), rest, 0x1_0000, lookup);
  }
}
