/** Messages taken from the registry's cache keep the lists of their last use until a decoder clears them. */
module Recycling {
  import opened Wire
  import opened Records
  import opened Messages
  import opened Buffers
  import opened Connections

  /** The lists of a cached Twalk or Twalkgetattr, Rwalk or Rwalkgetattr, and Rreaddir. */
  class Recycled {
    var names: seq<Bytes>
    var qids: seq<Qid>
    var entries: seq<Dirent>

    constructor (names: seq<Bytes>, qids: seq<Qid>, entries: seq<Dirent>)
      ensures this.names == names && this.qids == qids && this.entries == entries
    {
      this.names, this.qids, this.entries := names, qids, entries;
    }

    /** Whatever names the message held, it ends with those a new message would have. */
    method DecodeNames(b: Buffer)
      modifies this`names, b
      ensures (Strs(names), b.View()) == Get(KStrs, old(b.View()))
    {
      hide TakeInt, TakeString;
      Limits();
      var n := b.ReadInt(2);
      ghost var start := b.View();
      names := [];
      var i := 0;
      while i < n
        invariant 0 <= i <= n && (names, b.View()) == TakeStrings(start, i)
      {
        var s := b.ReadString();
        NextString(start, i);
        names := names + [s];
        i := i + 1;
      }
    }

    method DecodeQids(b: Buffer)
      modifies this`qids, b
      ensures (Qids(qids), b.View()) == Get(KQids, old(b.View()))
    {
      hide TakeInt, TakeQid;
      Limits();
      var n := b.ReadInt(2);
      ghost var start := b.View();
      qids := [];
      var i := 0;
      while i < n
        invariant 0 <= i <= n && (qids, b.View()) == TakeQids(start, i)
      {
        var q := b.ReadQid();
        NextQid(start, i);
        qids := qids + [q];
        i := i + 1;
      }
    }

    /** The entry loop of Rreaddir's decoder, over a message that may hold the entries of an earlier page. */
    method DecodeEntries(payload: Bytes)
      modifies this`entries
      ensures entries == GetDirents(Buf(payload, false))
    {
      hide GetPart;
      var b := new Buffer(payload);
      entries := [];
      while true
        invariant GetDirents(Buf(payload, false)) == entries + GetDirents(b.View()) && !b.overflow && fresh(b)
        decreases |b.data|
      {
        ghost var before := b.View();
        var p := ReadPart(b, KDirent);
        if b.overflow { break; }
        assert |b.data| < |before.data| by { EntryEats(before); }
        entries := entries + [p.dirent];
      }
    }
  }
}
