/** Frames written out in full, one of each kind of message that a session is made of. */
module Vectors {
  import opened Wire
  import opened Records
  import opened Messages
  import opened Codec
  import opened Transport
  import opened Layout

  predicate One(b: Bytes, at: nat, c: byte)
  {
    at + 1 <= |b| && b[at] == c
  }

  predicate Two(b: Bytes, at: nat, c0: byte, c1: byte)
  {
    at + 2 <= |b| && b[at] == c0 && b[at + 1] == c1
  }

  predicate Four(b: Bytes, at: nat, c0: byte, c1: byte, c2: byte, c3: byte)
  {
    at + 4 <= |b| && b[at] == c0 && b[at + 1] == c1 && b[at + 2] == c2 && b[at + 3] == c3
  }

  predicate Eight(b: Bytes, at: nat, c0: byte, c1: byte, c2: byte, c3: byte, c4: byte, c5: byte, c6: byte, c7: byte)
  {
    Four(b, at, c0, c1, c2, c3) && Four(b, at + 4, c4, c5, c6, c7)
  }

  const MODE_AND_SIZE :=
    AttrMask(true, false, false, false, false, false, false, false, false, true, false, false, false, false)

  /** The digits of a number to the base 256 are what they are. */
  lemma Peel(b: Bytes, at: nat, w: nat, c: byte, rest: nat)
    requires at + w <= |b| && w > 0 && Num(b, at, w) == c + 256 * rest
    ensures b[at] == c && Num(b, at + 1, w - 1) == rest
  {
    hide Num;
    NumNext(b, at, w);
    Digits(b[at], Num(b, at + 1, w - 1), c, rest);
  }

  lemma NumNext(b: Bytes, at: nat, w: nat)
    requires at + w <= |b| && w > 0
    ensures Num(b, at, w) == b[at] + 256 * Num(b, at + 1, w - 1)
  {
  }

  lemma Digits(x: byte, more: nat, c: byte, rest: nat)
    requires x + 256 * more == c + 256 * rest
    ensures x == c && more == rest
  {
  }

  lemma FourIs(b: Bytes, at: nat, w: nat, c0: byte, c1: byte, c2: byte, c3: byte)
    requires 4 <= w && at + w <= |b| && Num(b, at, w) == c0 + 256 * (c1 + 256 * (c2 + 256 * c3))
    ensures Four(b, at, c0, c1, c2, c3) && Num(b, at + 4, w - 4) == 0
  {
    hide Num;
    Peel(b, at, w, c0, c1 + 256 * (c2 + 256 * c3));
    Peel(b, at + 1, w - 1, c1, c2 + 256 * c3);
    Peel(b, at + 2, w - 2, c2, c3);
    Peel(b, at + 3, w - 3, c3, 0);
  }

  lemma TwoIs(b: Bytes, at: nat, c0: byte, c1: byte)
    requires at + 2 <= |b| && Num(b, at, 2) == c0 + 256 * c1
    ensures Two(b, at, c0, c1)
  {
    hide Num;
    Peel(b, at, 2, c0, c1);
    Peel(b, at + 1, 1, c1, 0);
  }

  lemma MemberHere(m: Message, k: nat, off: nat)
    requires k < |Members(m)| && Offset(Members(m), k) == off
    ensures Here(Frame(1, m), 7 + off, Members(m)[k])
  {
    hide Members, Frame, Here, Offset, Number, Num;
    Laid(1, m);
  }

  lemma OneAt(m: Message, k: nat, off: nat, c: byte)
    requires k < |Members(m)| && Offset(Members(m), k) == off && Members(m)[k] == N(1, c)
    ensures One(Frame(1, m), 7 + off, c)
  {
    hide Members, Frame, Offset, Num;
    MemberHere(m, k, off);
    Peel(Frame(1, m), 7 + off, 1, c, 0);
  }

  lemma TwoAt(m: Message, k: nat, off: nat, v: nat, c0: byte, c1: byte)
    requires k < |Members(m)| && Offset(Members(m), k) == off && Members(m)[k] == N(2, v) && v == c0 + 256 * c1
    ensures Two(Frame(1, m), 7 + off, c0, c1)
  {
    hide Members, Frame, Offset, Num, Two;
    MemberHere(m, k, off);
    TwoIs(Frame(1, m), 7 + off, c0, c1);
  }

  lemma FourAt(m: Message, k: nat, off: nat, v: nat, c0: byte, c1: byte, c2: byte, c3: byte)
    requires k < |Members(m)| && Offset(Members(m), k) == off && Members(m)[k] == N(4, v)
    requires v == c0 + 256 * (c1 + 256 * (c2 + 256 * c3))
    ensures Four(Frame(1, m), 7 + off, c0, c1, c2, c3)
  {
    hide Members, Frame, Offset, Num, Four;
    MemberHere(m, k, off);
    FourIs(Frame(1, m), 7 + off, 4, c0, c1, c2, c3);
  }

  lemma EightAt(m: Message, k: nat, off: nat, v: nat, c0: byte, c1: byte, c2: byte, c3: byte)
    requires k < |Members(m)| && Offset(Members(m), k) == off && Members(m)[k] == N(8, v)
    requires v == c0 + 256 * (c1 + 256 * (c2 + 256 * c3))
    ensures Eight(Frame(1, m), 7 + off, c0, c1, c2, c3, 0, 0, 0, 0)
  {
    hide Members, Frame, Offset, Num, Four;
    MemberHere(m, k, off);
    FourIs(Frame(1, m), 7 + off, 8, c0, c1, c2, c3);
    FourIs(Frame(1, m), 11 + off, 4, 0, 0, 0, 0);
  }

  lemma RawAt(m: Message, k: nat, off: nat, bs: Bytes)
    requires k < |Members(m)| && Offset(Members(m), k) == off && Members(m)[k] == Raw(bs)
    ensures 7 + off + |bs| <= |Frame(1, m)| && Frame(1, m)[7 + off..7 + off + |bs|] == bs
  {
    hide Members, Frame, Offset, Num;
    MemberHere(m, k, off);
  }

  /** The length of a short frame and its first seven bytes. */
  lemma Ends(m: Message, size: byte)
    requires Offset(Members(m), |Members(m)|) == size - 7
    ensures var b := Frame(1, m); |b| == size && Four(b, 0, size, 0, 0, 0) && One(b, 4, Number(m)) && Two(b, 5, 1, 0)
  {
    hide Members, Frame, Offset, Number, Num, Four, Two, Here;
    Laid(1, m);
    FourIs(Frame(1, m), 0, 4, size, 0, 0, 0);
    TwoIs(Frame(1, m), 5, 1, 0);
  }

  lemma RlerrorItems(m: Message)
    requires m == Rlerror(2)
    ensures Number(m) == 7 && |Members(m)| == 1 && Offset(Members(m), 1) == 4
    ensures Members(m)[0] == N(4, 2) && Offset(Members(m), 0) == 0
  {
    var items := [N(4, 2)];
    assert Members(m) == items;
    assert Offset(items, 1) == 4;
  }

  lemma RlerrorBytes()
    ensures var b := Frame(1, Rlerror(2));
            && |b| == 11 && Four(b, 0, 11, 0, 0, 0) && One(b, 4, 7) && Two(b, 5, 1, 0) && Four(b, 7, 2, 0, 0, 0)
  {
    hide Frame, Members, Number, Offset, One, Two, Four, Eight;
    var m := Rlerror(2);
    RlerrorItems(m);
    Ends(m, 11);
    FourAt(m, 0, 0, 2, 2, 0, 0, 0);
  }

  lemma TversionItems(m: Message)
    requires m == Tversion(8192, [57, 80, 50, 48, 48, 48, 46, 76])
    ensures Number(m) == 100 && |Members(m)| == 3 && Offset(Members(m), 3) == 14
    ensures Members(m)[0] == N(4, 8192) && Offset(Members(m), 0) == 0
    ensures Members(m)[1] == N(2, 8) && Offset(Members(m), 1) == 4
    ensures Members(m)[2] == Raw([57, 80, 50, 48, 48, 48, 46, 76]) && Offset(Members(m), 2) == 6
  {
    var items := [N(4, 8192), N(2, 8), Raw([57, 80, 50, 48, 48, 48, 46, 76])];
    assert Members(m) == items;
    assert Offset(items, 1) == 4;
    assert Offset(items, 2) == 6;
    assert Offset(items, 3) == 14;
  }

  lemma TversionBytes()
    ensures var b := Frame(1, Tversion(8192, [57, 80, 50, 48, 48, 48, 46, 76]));
            && |b| == 21 && Four(b, 0, 21, 0, 0, 0) && One(b, 4, 100) && Two(b, 5, 1, 0) && Four(b, 7, 0, 32, 0, 0)
            && Two(b, 11, 8, 0) && b[13..21] == [57, 80, 50, 48, 48, 48, 46, 76]
  {
    hide Frame, Members, Number, Offset, One, Two, Four, Eight;
    var m := Tversion(8192, [57, 80, 50, 48, 48, 48, 46, 76]);
    TversionItems(m);
    Ends(m, 21);
    FourAt(m, 0, 0, 8192, 0, 32, 0, 0);
    TwoAt(m, 1, 4, 8, 8, 0);
    RawAt(m, 2, 6, [57, 80, 50, 48, 48, 48, 46, 76]);
  }

  lemma RversionItems(m: Message)
    requires m == Rversion(8192, [57, 80, 50, 48, 48, 48, 46, 76])
    ensures Number(m) == 101 && |Members(m)| == 3 && Offset(Members(m), 3) == 14
    ensures Members(m)[0] == N(4, 8192) && Offset(Members(m), 0) == 0
    ensures Members(m)[1] == N(2, 8) && Offset(Members(m), 1) == 4
    ensures Members(m)[2] == Raw([57, 80, 50, 48, 48, 48, 46, 76]) && Offset(Members(m), 2) == 6
  {
    var items := [N(4, 8192), N(2, 8), Raw([57, 80, 50, 48, 48, 48, 46, 76])];
    assert Members(m) == items;
    assert Offset(items, 1) == 4;
    assert Offset(items, 2) == 6;
    assert Offset(items, 3) == 14;
  }

  lemma RversionBytes()
    ensures var b := Frame(1, Rversion(8192, [57, 80, 50, 48, 48, 48, 46, 76]));
            && |b| == 21 && Four(b, 0, 21, 0, 0, 0) && One(b, 4, 101) && Two(b, 5, 1, 0) && Four(b, 7, 0, 32, 0, 0)
            && Two(b, 11, 8, 0) && b[13..21] == [57, 80, 50, 48, 48, 48, 46, 76]
  {
    hide Frame, Members, Number, Offset, One, Two, Four, Eight;
    var m := Rversion(8192, [57, 80, 50, 48, 48, 48, 46, 76]);
    RversionItems(m);
    Ends(m, 21);
    FourAt(m, 0, 0, 8192, 0, 32, 0, 0);
    TwoAt(m, 1, 4, 8, 8, 0);
    RawAt(m, 2, 6, [57, 80, 50, 48, 48, 48, 46, 76]);
  }

  lemma TattachItems(m: Message)
    requires m == Tattach(1, Auth(0xFFFF_FFFF, [117], [], 0))
    ensures Number(m) == 104 && |Members(m)| == 7 && Offset(Members(m), 7) == 17
    ensures Members(m)[0] == N(4, 1) && Offset(Members(m), 0) == 0
    ensures Members(m)[1] == N(4, 4294967295) && Offset(Members(m), 1) == 4
    ensures Members(m)[2] == N(2, 1) && Offset(Members(m), 2) == 8
    ensures Members(m)[3] == Raw([117]) && Offset(Members(m), 3) == 10
    ensures Members(m)[4] == N(2, 0) && Offset(Members(m), 4) == 11
    ensures Members(m)[5] == Raw([]) && Offset(Members(m), 5) == 13
    ensures Members(m)[6] == N(4, 0) && Offset(Members(m), 6) == 13
  {
    var items := [N(4, 1), N(4, 4294967295), N(2, 1), Raw([117]), N(2, 0), Raw([]), N(4, 0)];
    assert Members(m) == items;
    assert Offset(items, 1) == 4;
    assert Offset(items, 2) == 8;
    assert Offset(items, 3) == 10;
    assert Offset(items, 4) == 11;
    assert Offset(items, 5) == 13;
    assert Offset(items, 6) == 13;
    assert Offset(items, 7) == 17;
  }

  lemma TattachBytes()
    ensures var b := Frame(1, Tattach(1, Auth(0xFFFF_FFFF, [117], [], 0)));
            && |b| == 24 && Four(b, 0, 24, 0, 0, 0) && One(b, 4, 104) && Two(b, 5, 1, 0) && Four(b, 7, 1, 0, 0, 0)
            && Four(b, 11, 255, 255, 255, 255) && Two(b, 15, 1, 0) && b[17..18] == [117] && Two(b, 18, 0, 0)
            && Four(b, 20, 0, 0, 0, 0)
  {
    hide Frame, Members, Number, Offset, One, Two, Four, Eight;
    var m := Tattach(1, Auth(0xFFFF_FFFF, [117], [], 0));
    TattachItems(m);
    Ends(m, 24);
    FourAt(m, 0, 0, 1, 1, 0, 0, 0);
    FourAt(m, 1, 4, 4294967295, 255, 255, 255, 255);
    TwoAt(m, 2, 8, 1, 1, 0);
    RawAt(m, 3, 10, [117]);
    TwoAt(m, 4, 11, 0, 0, 0);
    FourAt(m, 6, 13, 0, 0, 0, 0, 0);
  }

  lemma RattachItems(m: Message)
    requires m == Rattach(Qid(128, 2, 3))
    ensures Number(m) == 105 && |Members(m)| == 3 && Offset(Members(m), 3) == 13
    ensures Members(m)[0] == N(1, 128) && Offset(Members(m), 0) == 0
    ensures Members(m)[1] == N(4, 2) && Offset(Members(m), 1) == 1
    ensures Members(m)[2] == N(8, 3) && Offset(Members(m), 2) == 5
  {
    var items := [N(1, 128), N(4, 2), N(8, 3)];
    assert Members(m) == items;
    assert Offset(items, 1) == 1;
    assert Offset(items, 2) == 5;
    assert Offset(items, 3) == 13;
  }

  lemma RattachBytes()
    ensures var b := Frame(1, Rattach(Qid(128, 2, 3)));
            && |b| == 20 && Four(b, 0, 20, 0, 0, 0) && One(b, 4, 105) && Two(b, 5, 1, 0) && One(b, 7, 128)
            && Four(b, 8, 2, 0, 0, 0) && Eight(b, 12, 3, 0, 0, 0, 0, 0, 0, 0)
  {
    hide Frame, Members, Number, Offset, One, Two, Four, Eight;
    var m := Rattach(Qid(128, 2, 3));
    RattachItems(m);
    Ends(m, 20);
    OneAt(m, 0, 0, 128);
    FourAt(m, 1, 1, 2, 2, 0, 0, 0);
    EightAt(m, 2, 5, 3, 3, 0, 0, 0);
  }

  lemma TwalkItems(m: Message)
    requires m == Twalk(1, 2, [[97]])
    ensures Number(m) == 110 && |Members(m)| == 5 && Offset(Members(m), 5) == 13
    ensures Members(m)[0] == N(4, 1) && Offset(Members(m), 0) == 0
    ensures Members(m)[1] == N(4, 2) && Offset(Members(m), 1) == 4
    ensures Members(m)[2] == N(2, 1) && Offset(Members(m), 2) == 8
    ensures Members(m)[3] == N(2, 1) && Offset(Members(m), 3) == 10
    ensures Members(m)[4] == Raw([97]) && Offset(Members(m), 4) == 12
  {
    assert TextRun([[97]][1..]) == [];
    var items := [N(4, 1), N(4, 2), N(2, 1), N(2, 1), Raw([97])];
    assert Members(m) == items;
    assert Offset(items, 1) == 4;
    assert Offset(items, 2) == 8;
    assert Offset(items, 3) == 10;
    assert Offset(items, 4) == 12;
    assert Offset(items, 5) == 13;
  }

  lemma TwalkBytes()
    ensures var b := Frame(1, Twalk(1, 2, [[97]]));
            && |b| == 20 && Four(b, 0, 20, 0, 0, 0) && One(b, 4, 110) && Two(b, 5, 1, 0) && Four(b, 7, 1, 0, 0, 0)
            && Four(b, 11, 2, 0, 0, 0) && Two(b, 15, 1, 0) && Two(b, 17, 1, 0) && b[19..20] == [97]
  {
    hide Frame, Members, Number, Offset, One, Two, Four, Eight;
    var m := Twalk(1, 2, [[97]]);
    TwalkItems(m);
    Ends(m, 20);
    FourAt(m, 0, 0, 1, 1, 0, 0, 0);
    FourAt(m, 1, 4, 2, 2, 0, 0, 0);
    TwoAt(m, 2, 8, 1, 1, 0);
    TwoAt(m, 3, 10, 1, 1, 0);
    RawAt(m, 4, 12, [97]);
  }

  lemma RwalkItems(m: Message)
    requires m == Rwalk([Qid(128, 2, 3)])
    ensures Number(m) == 111 && |Members(m)| == 4 && Offset(Members(m), 4) == 15
    ensures Members(m)[0] == N(2, 1) && Offset(Members(m), 0) == 0
    ensures Members(m)[1] == N(1, 128) && Offset(Members(m), 1) == 2
    ensures Members(m)[2] == N(4, 2) && Offset(Members(m), 2) == 3
    ensures Members(m)[3] == N(8, 3) && Offset(Members(m), 3) == 7
  {
    assert QidRun([Qid(128, 2, 3)][1..]) == [];
    var items := [N(2, 1), N(1, 128), N(4, 2), N(8, 3)];
    assert Members(m) == items;
    assert Offset(items, 1) == 2;
    assert Offset(items, 2) == 3;
    assert Offset(items, 3) == 7;
    assert Offset(items, 4) == 15;
  }

  lemma RwalkBytes()
    ensures var b := Frame(1, Rwalk([Qid(128, 2, 3)]));
            && |b| == 22 && Four(b, 0, 22, 0, 0, 0) && One(b, 4, 111) && Two(b, 5, 1, 0) && Two(b, 7, 1, 0)
            && One(b, 9, 128) && Four(b, 10, 2, 0, 0, 0) && Eight(b, 14, 3, 0, 0, 0, 0, 0, 0, 0)
  {
    hide Frame, Members, Number, Offset, One, Two, Four, Eight;
    var m := Rwalk([Qid(128, 2, 3)]);
    RwalkItems(m);
    Ends(m, 22);
    TwoAt(m, 0, 0, 1, 1, 0);
    OneAt(m, 1, 2, 128);
    FourAt(m, 2, 3, 2, 2, 0, 0, 0);
    EightAt(m, 3, 7, 3, 3, 0, 0, 0);
  }

  lemma TlopenItems(m: Message)
    requires m == Tlopen(1, 2)
    ensures Number(m) == 12 && |Members(m)| == 2 && Offset(Members(m), 2) == 8
    ensures Members(m)[0] == N(4, 1) && Offset(Members(m), 0) == 0
    ensures Members(m)[1] == N(4, 2) && Offset(Members(m), 1) == 4
  {
    var items := [N(4, 1), N(4, 2)];
    assert Members(m) == items;
    assert Offset(items, 1) == 4;
    assert Offset(items, 2) == 8;
  }

  lemma TlopenBytes()
    ensures var b := Frame(1, Tlopen(1, 2));
            && |b| == 15 && Four(b, 0, 15, 0, 0, 0) && One(b, 4, 12) && Two(b, 5, 1, 0) && Four(b, 7, 1, 0, 0, 0)
            && Four(b, 11, 2, 0, 0, 0)
  {
    hide Frame, Members, Number, Offset, One, Two, Four, Eight;
    var m := Tlopen(1, 2);
    TlopenItems(m);
    Ends(m, 15);
    FourAt(m, 0, 0, 1, 1, 0, 0, 0);
    FourAt(m, 1, 4, 2, 2, 0, 0, 0);
  }

  lemma RlopenItems(m: Message)
    requires m == Rlopen(Qid(128, 2, 3), 4)
    ensures Number(m) == 13 && |Members(m)| == 4 && Offset(Members(m), 4) == 17
    ensures Members(m)[0] == N(1, 128) && Offset(Members(m), 0) == 0
    ensures Members(m)[1] == N(4, 2) && Offset(Members(m), 1) == 1
    ensures Members(m)[2] == N(8, 3) && Offset(Members(m), 2) == 5
    ensures Members(m)[3] == N(4, 4) && Offset(Members(m), 3) == 13
  {
    var items := [N(1, 128), N(4, 2), N(8, 3), N(4, 4)];
    assert Members(m) == items;
    assert Offset(items, 1) == 1;
    assert Offset(items, 2) == 5;
    assert Offset(items, 3) == 13;
    assert Offset(items, 4) == 17;
  }

  lemma RlopenBytes()
    ensures var b := Frame(1, Rlopen(Qid(128, 2, 3), 4));
            && |b| == 24 && Four(b, 0, 24, 0, 0, 0) && One(b, 4, 13) && Two(b, 5, 1, 0) && One(b, 7, 128)
            && Four(b, 8, 2, 0, 0, 0) && Eight(b, 12, 3, 0, 0, 0, 0, 0, 0, 0) && Four(b, 20, 4, 0, 0, 0)
  {
    hide Frame, Members, Number, Offset, One, Two, Four, Eight;
    var m := Rlopen(Qid(128, 2, 3), 4);
    RlopenItems(m);
    Ends(m, 24);
    OneAt(m, 0, 0, 128);
    FourAt(m, 1, 1, 2, 2, 0, 0, 0);
    EightAt(m, 2, 5, 3, 3, 0, 0, 0);
    FourAt(m, 3, 13, 4, 4, 0, 0, 0);
  }

  lemma TlcreateItems(m: Message)
    requires m == Tlcreate(1, [97], 2, 420, 3)
    ensures Number(m) == 14 && |Members(m)| == 6 && Offset(Members(m), 6) == 19
    ensures Members(m)[0] == N(4, 1) && Offset(Members(m), 0) == 0
    ensures Members(m)[1] == N(2, 1) && Offset(Members(m), 1) == 4
    ensures Members(m)[2] == Raw([97]) && Offset(Members(m), 2) == 6
    ensures Members(m)[3] == N(4, 2) && Offset(Members(m), 3) == 7
    ensures Members(m)[4] == N(4, 420) && Offset(Members(m), 4) == 11
    ensures Members(m)[5] == N(4, 3) && Offset(Members(m), 5) == 15
  {
    var items := [N(4, 1), N(2, 1), Raw([97]), N(4, 2), N(4, 420), N(4, 3)];
    assert Members(m) == items;
    assert Offset(items, 1) == 4;
    assert Offset(items, 2) == 6;
    assert Offset(items, 3) == 7;
    assert Offset(items, 4) == 11;
    assert Offset(items, 5) == 15;
    assert Offset(items, 6) == 19;
  }

  lemma TlcreateBytes()
    ensures var b := Frame(1, Tlcreate(1, [97], 2, 420, 3));
            && |b| == 26 && Four(b, 0, 26, 0, 0, 0) && One(b, 4, 14) && Two(b, 5, 1, 0) && Four(b, 7, 1, 0, 0, 0)
            && Two(b, 11, 1, 0) && b[13..14] == [97] && Four(b, 14, 2, 0, 0, 0) && Four(b, 18, 164, 1, 0, 0)
            && Four(b, 22, 3, 0, 0, 0)
  {
    hide Frame, Members, Number, Offset, One, Two, Four, Eight;
    var m := Tlcreate(1, [97], 2, 420, 3);
    TlcreateItems(m);
    Ends(m, 26);
    FourAt(m, 0, 0, 1, 1, 0, 0, 0);
    TwoAt(m, 1, 4, 1, 1, 0);
    RawAt(m, 2, 6, [97]);
    FourAt(m, 3, 7, 2, 2, 0, 0, 0);
    FourAt(m, 4, 11, 420, 164, 1, 0, 0);
    FourAt(m, 5, 15, 3, 3, 0, 0, 0);
  }

  lemma RlcreateItems(m: Message)
    requires m == Rlcreate(Qid(128, 2, 3), 4)
    ensures Number(m) == 15 && |Members(m)| == 4 && Offset(Members(m), 4) == 17
    ensures Members(m)[0] == N(1, 128) && Offset(Members(m), 0) == 0
    ensures Members(m)[1] == N(4, 2) && Offset(Members(m), 1) == 1
    ensures Members(m)[2] == N(8, 3) && Offset(Members(m), 2) == 5
    ensures Members(m)[3] == N(4, 4) && Offset(Members(m), 3) == 13
  {
    var items := [N(1, 128), N(4, 2), N(8, 3), N(4, 4)];
    assert Members(m) == items;
    assert Offset(items, 1) == 1;
    assert Offset(items, 2) == 5;
    assert Offset(items, 3) == 13;
    assert Offset(items, 4) == 17;
  }

  lemma RlcreateBytes()
    ensures var b := Frame(1, Rlcreate(Qid(128, 2, 3), 4));
            && |b| == 24 && Four(b, 0, 24, 0, 0, 0) && One(b, 4, 15) && Two(b, 5, 1, 0) && One(b, 7, 128)
            && Four(b, 8, 2, 0, 0, 0) && Eight(b, 12, 3, 0, 0, 0, 0, 0, 0, 0) && Four(b, 20, 4, 0, 0, 0)
  {
    hide Frame, Members, Number, Offset, One, Two, Four, Eight;
    var m := Rlcreate(Qid(128, 2, 3), 4);
    RlcreateItems(m);
    Ends(m, 24);
    OneAt(m, 0, 0, 128);
    FourAt(m, 1, 1, 2, 2, 0, 0, 0);
    EightAt(m, 2, 5, 3, 3, 0, 0, 0);
    FourAt(m, 3, 13, 4, 4, 0, 0, 0);
  }

  lemma TgetattrItems(m: Message)
    requires m == Tgetattr(1, MODE_AND_SIZE)
    ensures Number(m) == 24 && |Members(m)| == 2 && Offset(Members(m), 2) == 12
    ensures Members(m)[0] == N(4, 1) && Offset(Members(m), 0) == 0
    ensures Members(m)[1] == N(8, 513) && Offset(Members(m), 1) == 4
  {
    var items := [N(4, 1), N(8, 513)];
    assert Members(m) == items;
    assert Offset(items, 1) == 4;
    assert Offset(items, 2) == 12;
  }

  lemma TgetattrBytes()
    ensures var b :=
              Frame(1, Tgetattr(1,
                AttrMask(true, false, false, false, false, false, false, false, false, true, false, false, false,
                  false)));
            && |b| == 19 && Four(b, 0, 19, 0, 0, 0) && One(b, 4, 24) && Two(b, 5, 1, 0) && Four(b, 7, 1, 0, 0, 0)
            && Eight(b, 11, 1, 2, 0, 0, 0, 0, 0, 0)
  {
    hide Frame, Members, Number, Offset, One, Two, Four, Eight;
    var m := Tgetattr(1,
          MODE_AND_SIZE);
    TgetattrItems(m);
    Ends(m, 19);
    FourAt(m, 0, 0, 1, 1, 0, 0, 0);
    EightAt(m, 1, 4, 513, 1, 2, 0, 0);
  }

  lemma TreaddirItems(m: Message)
    requires m == Treaddir(1, 2, 3)
    ensures Number(m) == 40 && |Members(m)| == 3 && Offset(Members(m), 3) == 16
    ensures Members(m)[0] == N(4, 1) && Offset(Members(m), 0) == 0
    ensures Members(m)[1] == N(8, 2) && Offset(Members(m), 1) == 4
    ensures Members(m)[2] == N(4, 3) && Offset(Members(m), 2) == 12
  {
    var items := [N(4, 1), N(8, 2), N(4, 3)];
    assert Members(m) == items;
    assert Offset(items, 1) == 4;
    assert Offset(items, 2) == 12;
    assert Offset(items, 3) == 16;
  }

  lemma TreaddirBytes()
    ensures var b := Frame(1, Treaddir(1, 2, 3));
            && |b| == 23 && Four(b, 0, 23, 0, 0, 0) && One(b, 4, 40) && Two(b, 5, 1, 0) && Four(b, 7, 1, 0, 0, 0)
            && Eight(b, 11, 2, 0, 0, 0, 0, 0, 0, 0) && Four(b, 19, 3, 0, 0, 0)
  {
    hide Frame, Members, Number, Offset, One, Two, Four, Eight;
    var m := Treaddir(1, 2, 3);
    TreaddirItems(m);
    Ends(m, 23);
    FourAt(m, 0, 0, 1, 1, 0, 0, 0);
    EightAt(m, 1, 4, 2, 2, 0, 0, 0);
    FourAt(m, 2, 12, 3, 3, 0, 0, 0);
  }

  lemma TreadItems(m: Message)
    requires m == Tread(1, 2, 3)
    ensures Number(m) == 116 && |Members(m)| == 3 && Offset(Members(m), 3) == 16
    ensures Members(m)[0] == N(4, 1) && Offset(Members(m), 0) == 0
    ensures Members(m)[1] == N(8, 2) && Offset(Members(m), 1) == 4
    ensures Members(m)[2] == N(4, 3) && Offset(Members(m), 2) == 12
  {
    var items := [N(4, 1), N(8, 2), N(4, 3)];
    assert Members(m) == items;
    assert Offset(items, 1) == 4;
    assert Offset(items, 2) == 12;
    assert Offset(items, 3) == 16;
  }

  lemma TreadBytes()
    ensures var b := Frame(1, Tread(1, 2, 3));
            && |b| == 23 && Four(b, 0, 23, 0, 0, 0) && One(b, 4, 116) && Two(b, 5, 1, 0) && Four(b, 7, 1, 0, 0, 0)
            && Eight(b, 11, 2, 0, 0, 0, 0, 0, 0, 0) && Four(b, 19, 3, 0, 0, 0)
  {
    hide Frame, Members, Number, Offset, One, Two, Four, Eight;
    var m := Tread(1, 2, 3);
    TreadItems(m);
    Ends(m, 23);
    FourAt(m, 0, 0, 1, 1, 0, 0, 0);
    EightAt(m, 1, 4, 2, 2, 0, 0, 0);
    FourAt(m, 2, 12, 3, 3, 0, 0, 0);
  }

  lemma RreadItems(m: Message)
    requires m == Rread([7, 8])
    ensures Number(m) == 117 && |Members(m)| == 2 && Offset(Members(m), 2) == 6
    ensures Members(m)[0] == N(4, 2) && Offset(Members(m), 0) == 0
    ensures Members(m)[1] == Raw([7, 8]) && Offset(Members(m), 1) == 4
  {
    var items := [N(4, 2), Raw([7, 8])];
    assert Members(m) == items;
    assert Offset(items, 1) == 4;
    assert Offset(items, 2) == 6;
  }

  lemma RreadBytes()
    ensures var b := Frame(1, Rread([7, 8]));
            && |b| == 13 && Four(b, 0, 13, 0, 0, 0) && One(b, 4, 117) && Two(b, 5, 1, 0) && Four(b, 7, 2, 0, 0, 0)
            && b[11..13] == [7, 8]
  {
    hide Frame, Members, Number, Offset, One, Two, Four, Eight;
    var m := Rread([7, 8]);
    RreadItems(m);
    Ends(m, 13);
    FourAt(m, 0, 0, 2, 2, 0, 0, 0);
    RawAt(m, 1, 4, [7, 8]);
  }

  lemma TwriteItems(m: Message)
    requires m == Twrite(1, 2, [7, 8])
    ensures Number(m) == 118 && |Members(m)| == 4 && Offset(Members(m), 4) == 18
    ensures Members(m)[0] == N(4, 1) && Offset(Members(m), 0) == 0
    ensures Members(m)[1] == N(8, 2) && Offset(Members(m), 1) == 4
    ensures Members(m)[2] == N(4, 2) && Offset(Members(m), 2) == 12
    ensures Members(m)[3] == Raw([7, 8]) && Offset(Members(m), 3) == 16
  {
    var items := [N(4, 1), N(8, 2), N(4, 2), Raw([7, 8])];
    assert Members(m) == items;
    assert Offset(items, 1) == 4;
    assert Offset(items, 2) == 12;
    assert Offset(items, 3) == 16;
    assert Offset(items, 4) == 18;
  }

  lemma TwriteBytes()
    ensures var b := Frame(1, Twrite(1, 2, [7, 8]));
            && |b| == 25 && Four(b, 0, 25, 0, 0, 0) && One(b, 4, 118) && Two(b, 5, 1, 0) && Four(b, 7, 1, 0, 0, 0)
            && Eight(b, 11, 2, 0, 0, 0, 0, 0, 0, 0) && Four(b, 19, 2, 0, 0, 0) && b[23..25] == [7, 8]
  {
    hide Frame, Members, Number, Offset, One, Two, Four, Eight;
    var m := Twrite(1, 2, [7, 8]);
    TwriteItems(m);
    Ends(m, 25);
    FourAt(m, 0, 0, 1, 1, 0, 0, 0);
    EightAt(m, 1, 4, 2, 2, 0, 0, 0);
    FourAt(m, 2, 12, 2, 2, 0, 0, 0);
    RawAt(m, 3, 16, [7, 8]);
  }

  lemma RwriteItems(m: Message)
    requires m == Rwrite(2)
    ensures Number(m) == 119 && |Members(m)| == 1 && Offset(Members(m), 1) == 4
    ensures Members(m)[0] == N(4, 2) && Offset(Members(m), 0) == 0
  {
    var items := [N(4, 2)];
    assert Members(m) == items;
    assert Offset(items, 1) == 4;
  }

  lemma RwriteBytes()
    ensures var b := Frame(1, Rwrite(2));
            && |b| == 11 && Four(b, 0, 11, 0, 0, 0) && One(b, 4, 119) && Two(b, 5, 1, 0) && Four(b, 7, 2, 0, 0, 0)
  {
    hide Frame, Members, Number, Offset, One, Two, Four, Eight;
    var m := Rwrite(2);
    RwriteItems(m);
    Ends(m, 11);
    FourAt(m, 0, 0, 2, 2, 0, 0, 0);
  }

  lemma TclunkItems(m: Message)
    requires m == Tclunk(5)
    ensures Number(m) == 120 && |Members(m)| == 1 && Offset(Members(m), 1) == 4
    ensures Members(m)[0] == N(4, 5) && Offset(Members(m), 0) == 0
  {
    var items := [N(4, 5)];
    assert Members(m) == items;
    assert Offset(items, 1) == 4;
  }

  lemma TclunkBytes()
    ensures var b := Frame(1, Tclunk(5));
            && |b| == 11 && Four(b, 0, 11, 0, 0, 0) && One(b, 4, 120) && Two(b, 5, 1, 0) && Four(b, 7, 5, 0, 0, 0)
  {
    hide Frame, Members, Number, Offset, One, Two, Four, Eight;
    var m := Tclunk(5);
    TclunkItems(m);
    Ends(m, 11);
    FourAt(m, 0, 0, 5, 5, 0, 0, 0);
  }

  lemma RclunkItems(m: Message)
    requires m == Rclunk
    ensures Number(m) == 121 && |Members(m)| == 0 && Offset(Members(m), 0) == 0
  {
  }

  lemma RclunkBytes()
    ensures var b := Frame(1, Rclunk);
            && |b| == 7 && Four(b, 0, 7, 0, 0, 0) && One(b, 4, 121) && Two(b, 5, 1, 0)
  {
    hide Frame, Members, Number, Offset, One, Two, Four, Eight;
    var m := Rclunk;
    RclunkItems(m);
    Ends(m, 7);
  }

  lemma TremoveItems(m: Message)
    requires m == Tremove(5)
    ensures Number(m) == 122 && |Members(m)| == 1 && Offset(Members(m), 1) == 4
    ensures Members(m)[0] == N(4, 5) && Offset(Members(m), 0) == 0
  {
    var items := [N(4, 5)];
    assert Members(m) == items;
    assert Offset(items, 1) == 4;
  }

  lemma TremoveBytes()
    ensures var b := Frame(1, Tremove(5));
            && |b| == 11 && Four(b, 0, 11, 0, 0, 0) && One(b, 4, 122) && Two(b, 5, 1, 0) && Four(b, 7, 5, 0, 0, 0)
  {
    hide Frame, Members, Number, Offset, One, Two, Four, Eight;
    var m := Tremove(5);
    TremoveItems(m);
    Ends(m, 11);
    FourAt(m, 0, 0, 5, 5, 0, 0, 0);
  }

  lemma RremoveItems(m: Message)
    requires m == Rremove
    ensures Number(m) == 123 && |Members(m)| == 0 && Offset(Members(m), 0) == 0
  {
  }

  lemma RremoveBytes()
    ensures var b := Frame(1, Rremove);
            && |b| == 7 && Four(b, 0, 7, 0, 0, 0) && One(b, 4, 123) && Two(b, 5, 1, 0)
  {
    hide Frame, Members, Number, Offset, One, Two, Four, Eight;
    var m := Rremove;
    RremoveItems(m);
    Ends(m, 7);
  }

  lemma TrenameItems(m: Message)
    requires m == Trename(1, 2, [98])
    ensures Number(m) == 20 && |Members(m)| == 4 && Offset(Members(m), 4) == 11
    ensures Members(m)[0] == N(4, 1) && Offset(Members(m), 0) == 0
    ensures Members(m)[1] == N(4, 2) && Offset(Members(m), 1) == 4
    ensures Members(m)[2] == N(2, 1) && Offset(Members(m), 2) == 8
    ensures Members(m)[3] == Raw([98]) && Offset(Members(m), 3) == 10
  {
    var items := [N(4, 1), N(4, 2), N(2, 1), Raw([98])];
    assert Members(m) == items;
    assert Offset(items, 1) == 4;
    assert Offset(items, 2) == 8;
    assert Offset(items, 3) == 10;
    assert Offset(items, 4) == 11;
  }

  lemma TrenameBytes()
    ensures var b := Frame(1, Trename(1, 2, [98]));
            && |b| == 18 && Four(b, 0, 18, 0, 0, 0) && One(b, 4, 20) && Two(b, 5, 1, 0) && Four(b, 7, 1, 0, 0, 0)
            && Four(b, 11, 2, 0, 0, 0) && Two(b, 15, 1, 0) && b[17..18] == [98]
  {
    hide Frame, Members, Number, Offset, One, Two, Four, Eight;
    var m := Trename(1, 2, [98]);
    TrenameItems(m);
    Ends(m, 18);
    FourAt(m, 0, 0, 1, 1, 0, 0, 0);
    FourAt(m, 1, 4, 2, 2, 0, 0, 0);
    TwoAt(m, 2, 8, 1, 1, 0);
    RawAt(m, 3, 10, [98]);
  }

  lemma RrenameItems(m: Message)
    requires m == Rrename
    ensures Number(m) == 21 && |Members(m)| == 0 && Offset(Members(m), 0) == 0
  {
  }

  lemma RrenameBytes()
    ensures var b := Frame(1, Rrename);
            && |b| == 7 && Four(b, 0, 7, 0, 0, 0) && One(b, 4, 21) && Two(b, 5, 1, 0)
  {
    hide Frame, Members, Number, Offset, One, Two, Four, Eight;
    var m := Rrename;
    RrenameItems(m);
    Ends(m, 7);
  }

  lemma TrenameatItems(m: Message)
    requires m == Trenameat(1, [97], 2, [98])
    ensures Number(m) == 74 && |Members(m)| == 6 && Offset(Members(m), 6) == 14
    ensures Members(m)[0] == N(4, 1) && Offset(Members(m), 0) == 0
    ensures Members(m)[1] == N(2, 1) && Offset(Members(m), 1) == 4
    ensures Members(m)[2] == Raw([97]) && Offset(Members(m), 2) == 6
    ensures Members(m)[3] == N(4, 2) && Offset(Members(m), 3) == 7
    ensures Members(m)[4] == N(2, 1) && Offset(Members(m), 4) == 11
    ensures Members(m)[5] == Raw([98]) && Offset(Members(m), 5) == 13
  {
    var items := [N(4, 1), N(2, 1), Raw([97]), N(4, 2), N(2, 1), Raw([98])];
    assert Members(m) == items;
    assert Offset(items, 1) == 4;
    assert Offset(items, 2) == 6;
    assert Offset(items, 3) == 7;
    assert Offset(items, 4) == 11;
    assert Offset(items, 5) == 13;
    assert Offset(items, 6) == 14;
  }

  lemma TrenameatBytes()
    ensures var b := Frame(1, Trenameat(1, [97], 2, [98]));
            && |b| == 21 && Four(b, 0, 21, 0, 0, 0) && One(b, 4, 74) && Two(b, 5, 1, 0) && Four(b, 7, 1, 0, 0, 0)
            && Two(b, 11, 1, 0) && b[13..14] == [97] && Four(b, 14, 2, 0, 0, 0) && Two(b, 18, 1, 0)
            && b[20..21] == [98]
  {
    hide Frame, Members, Number, Offset, One, Two, Four, Eight;
    var m := Trenameat(1, [97], 2, [98]);
    TrenameatItems(m);
    Ends(m, 21);
    FourAt(m, 0, 0, 1, 1, 0, 0, 0);
    TwoAt(m, 1, 4, 1, 1, 0);
    RawAt(m, 2, 6, [97]);
    FourAt(m, 3, 7, 2, 2, 0, 0, 0);
    TwoAt(m, 4, 11, 1, 1, 0);
    RawAt(m, 5, 13, [98]);
  }

  lemma RrenameatItems(m: Message)
    requires m == Rrenameat
    ensures Number(m) == 75 && |Members(m)| == 0 && Offset(Members(m), 0) == 0
  {
  }

  lemma RrenameatBytes()
    ensures var b := Frame(1, Rrenameat);
            && |b| == 7 && Four(b, 0, 7, 0, 0, 0) && One(b, 4, 75) && Two(b, 5, 1, 0)
  {
    hide Frame, Members, Number, Offset, One, Two, Four, Eight;
    var m := Rrenameat;
    RrenameatItems(m);
    Ends(m, 7);
  }

  lemma TunlinkatItems(m: Message)
    requires m == Tunlinkat(1, [97], 512)
    ensures Number(m) == 76 && |Members(m)| == 4 && Offset(Members(m), 4) == 11
    ensures Members(m)[0] == N(4, 1) && Offset(Members(m), 0) == 0
    ensures Members(m)[1] == N(2, 1) && Offset(Members(m), 1) == 4
    ensures Members(m)[2] == Raw([97]) && Offset(Members(m), 2) == 6
    ensures Members(m)[3] == N(4, 512) && Offset(Members(m), 3) == 7
  {
    var items := [N(4, 1), N(2, 1), Raw([97]), N(4, 512)];
    assert Members(m) == items;
    assert Offset(items, 1) == 4;
    assert Offset(items, 2) == 6;
    assert Offset(items, 3) == 7;
    assert Offset(items, 4) == 11;
  }

  lemma TunlinkatBytes()
    ensures var b := Frame(1, Tunlinkat(1, [97], 512));
            && |b| == 18 && Four(b, 0, 18, 0, 0, 0) && One(b, 4, 76) && Two(b, 5, 1, 0) && Four(b, 7, 1, 0, 0, 0)
            && Two(b, 11, 1, 0) && b[13..14] == [97] && Four(b, 14, 0, 2, 0, 0)
  {
    hide Frame, Members, Number, Offset, One, Two, Four, Eight;
    var m := Tunlinkat(1, [97], 512);
    TunlinkatItems(m);
    Ends(m, 18);
    FourAt(m, 0, 0, 1, 1, 0, 0, 0);
    TwoAt(m, 1, 4, 1, 1, 0);
    RawAt(m, 2, 6, [97]);
    FourAt(m, 3, 7, 512, 0, 2, 0, 0);
  }

  lemma TflushItems(m: Message)
    requires m == Tflush(3)
    ensures Number(m) == 108 && |Members(m)| == 1 && Offset(Members(m), 1) == 2
    ensures Members(m)[0] == N(2, 3) && Offset(Members(m), 0) == 0
  {
    var items := [N(2, 3)];
    assert Members(m) == items;
    assert Offset(items, 1) == 2;
  }

  lemma TflushBytes()
    ensures var b := Frame(1, Tflush(3));
            && |b| == 9 && Four(b, 0, 9, 0, 0, 0) && One(b, 4, 108) && Two(b, 5, 1, 0) && Two(b, 7, 3, 0)
  {
    hide Frame, Members, Number, Offset, One, Two, Four, Eight;
    var m := Tflush(3);
    TflushItems(m);
    Ends(m, 9);
    TwoAt(m, 0, 0, 3, 3, 0);
  }
}
