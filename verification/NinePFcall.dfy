/**
  The structure Fcall of include/fcall.h, and the three switches over the message type in lib9/convS2M.c and
  lib9/convM2S.c: what sizeS2M adds up, what convS2M writes, and what convM2S checks and reads.  Each is written after
  the C text and proved to agree with the format, type by type.
 */
module NinePFcall {
  import opened Wrappers
  import opened Words
  import opened NineP

  /** The C structure; `S` is the type of string pointers and `D` that of data pointers.  The arrays have MAXWELEM
      elements, whatever the counts say. */
  datatype Fcall<S, D> = Fcall(
    mtype: nat, fid: nat, tag: nat, msize: nat, version: S, oldtag: nat, ename: S, qid: Qid, iounit: nat, aqid: Qid,
    afid: nat, uname: S, aname: S, perm: nat, name: S, mode: nat, newfid: nat, nwname: nat, wname: seq<S>, nwqid: nat,
    wqid: seq<Qid>, offset: nat, count: nat, data: D, nstat: nat, stat: D)

  /** A message to be written: strings may be nil, data is the memory a pointer points to. */
  type Outgoing = Fcall<Option<seq<Byte>>, seq<Byte>>

  /** What the C code relies on: arrays of MAXWELEM elements, and memory behind the data pointers.  sizeS2M goes through
      `nwname` strings before anything checks the count, so that of Twalk has to be in range. */
  predicate Sound(f: Outgoing) {
    && |f.wname| == |f.wqid| == MAXWELEM
    && (f.mtype == 110 ==> f.nwname <= MAXWELEM)
    && (f.mtype == 117 || f.mtype == 118 ==> f.count <= |f.data|)
    && (f.mtype == 125 || f.mtype == 126 ==> f.nstat <= |f.stat|)
  }

  function Take<T>(s: seq<T>, n: nat): seq<T> {
    if n <= |s| then s[..n] else s
  }

  /** The value of a field. */
  function FieldOf(f: Outgoing, s: Slot): Field {
    match s
    case Fid => Int(4, f.fid)
    case Msize => Int(4, f.msize)
    case Version => Str(f.version)
    case Oldtag => Int(2, f.oldtag)
    case Ename => Str(f.ename)
    case TheQid => AQid(f.qid)
    case Iounit => Int(4, f.iounit)
    case Aqid => AQid(f.aqid)
    case Afid => Int(4, f.afid)
    case Uname => Str(f.uname)
    case Aname => Str(f.aname)
    case Perm => Int(4, f.perm)
    case Name => Str(f.name)
    case Mode => Int(1, f.mode)
    case Newfid => Int(4, f.newfid)
    case Nwname => Int(2, f.nwname)
    case Wname => Names(Take(f.wname, f.nwname))
    case Nwqid => Int(2, f.nwqid)
    case Wqid => Qids(Take(f.wqid, f.nwqid))
    case Offset => Int(8, f.offset)
    case Count => Int(4, f.count)
    case TheData => Data(4, Take(f.data, f.count))
    case Nstat => Int(2, f.nstat)
    case Stat => Data(2, Take(f.stat, f.nstat))
  }

  function FieldsOf(f: Outgoing, ss: seq<Slot>): (fs: seq<Field>)
    ensures |fs| == |ss| && forall i :: 0 <= i < |ss| ==> fs[i] == FieldOf(f, ss[i])
  {
    seq(|ss|, i requires 0 <= i < |ss| => FieldOf(f, ss[i]))
  }

  /** The message a structure stands for. */
  function MessageOf(f: Outgoing): Message
    requires Format(f.mtype).Some?
  {
    Message(f.mtype, f.tag, FieldsOf(f, Format(f.mtype).value))
  }

  // ----- sizeS2M

  /** stringsz. */
  function StringSz(s: Option<seq<Byte>>): nat {
    if s.None? then 2 else 2 + |s.value|
  }

  /** The loop of Twalk in sizeS2M. */
  function StringSzs(ss: seq<Option<seq<Byte>>>): nat {
    if ss == [] then 0 else StringSz(ss[0]) + StringSzs(ss[1..])
  }

  /** sizeS2M. */
  function SizeS2M(f: Outgoing): nat
    requires Sound(f)
  {
    var n := 4 + 1 + 2;
    match f.mtype
    case 100 => n + 4 + StringSz(f.version)
    case 108 => n + 2
    case 102 => n + 4 + StringSz(f.uname) + StringSz(f.aname)
    case 104 => n + 4 + 4 + StringSz(f.uname) + StringSz(f.aname)
    case 110 => n + 4 + 4 + 2 + StringSzs(f.wname[..f.nwname])
    case 112 => n + 4 + 1
    case 114 => n + 4 + StringSz(f.name) + 4 + 1
    case 116 => n + 4 + 8 + 4
    case 118 => n + 4 + 8 + 4 + f.count
    case 120 => n + 4
    case 122 => n + 4
    case 124 => n + 4
    case 126 => n + 4 + 2 + f.nstat
    case 101 => n + 4 + StringSz(f.version)
    case 107 => n + StringSz(f.ename)
    case 109 => n
    case 103 => n + QIDSZ
    case 105 => n + QIDSZ
    case 111 => n + 2 + f.nwqid * QIDSZ
    case 113 => n + QIDSZ + 4
    case 115 => n + QIDSZ + 4
    case 117 => n + 4 + f.count
    case 119 => n + 4
    case 121 => n
    case 123 => n
    case 125 => n + 2 + f.nstat
    case 127 => n
    case _ => 0
  }

  lemma {:induction false} StringSzsExact(ss: seq<Option<seq<Byte>>>)
    ensures StringSzs(ss) == |PutStrs(ss)|
  {
    if ss != [] {
      StringSzsExact(ss[1..]);
    }
  }

  /** The number of bytes of the fields from number `i` on. */
  function Total(f: Outgoing, ss: seq<Slot>, i: nat): nat
    requires i <= |ss|
    decreases |ss| - i
  {
    if i == |ss| then 0 else |PutField(FieldOf(f, ss[i]))| + Total(f, ss, i + 1)
  }

  lemma {:induction false} TotalExact(f: Outgoing, ss: seq<Slot>, i: nat)
    requires i <= |ss|
    ensures Total(f, ss, i) == |PutFields(FieldsOf(f, ss)[i..])|
    decreases |ss| - i
  {
    hide PutField;
    hide FieldOf;
    if i < |ss| {
      TotalExact(f, ss, i + 1);
      assert FieldsOf(f, ss)[i..][1..] == FieldsOf(f, ss)[i + 1..];
    }
  }

  function SizeAt(f: Outgoing, ss: seq<Slot>, i: nat): nat {
    if i < |ss| then |PutField(FieldOf(f, ss[i]))| else 0
  }

  lemma TotalOpen(f: Outgoing, ss: seq<Slot>)
    requires |ss| <= 4
    ensures |PutFields(FieldsOf(f, ss))| == SizeAt(f, ss, 0) + SizeAt(f, ss, 1) + SizeAt(f, ss, 2) + SizeAt(f, ss, 3)
  {
    hide PutField;
    hide FieldOf;
    TotalExact(f, ss, 0);
    assert FieldsOf(f, ss)[0..] == FieldsOf(f, ss);
    if |ss| > 3 { assert Total(f, ss, 3) == SizeAt(f, ss, 3) + Total(f, ss, 4); }
    if |ss| > 2 { assert Total(f, ss, 2) == SizeAt(f, ss, 2) + Total(f, ss, 3); }
    if |ss| > 1 { assert Total(f, ss, 1) == SizeAt(f, ss, 1) + Total(f, ss, 2); }
  }

  /** What each field adds. */
  function SlotSize(f: Outgoing, s: Slot): nat {
    match s
    case Fid | Msize | Iounit | Afid | Perm | Newfid | Count => 4
    case Oldtag | Nwname | Nwqid | Nstat => 2
    case Mode => 1
    case Offset => 8
    case TheQid | Aqid => QIDSZ
    case Version => StringSz(f.version)
    case Ename => StringSz(f.ename)
    case Uname => StringSz(f.uname)
    case Aname => StringSz(f.aname)
    case Name => StringSz(f.name)
    case Wname => 2 + StringSzs(Take(f.wname, f.nwname))
    case Wqid => 2 + |Take(f.wqid, f.nwqid)| * QIDSZ
    case TheData => 4 + |Take(f.data, f.count)|
    case Stat => 2 + |Take(f.stat, f.nstat)|
  }

  lemma SlotSizeExact(f: Outgoing, s: Slot)
    ensures |PutField(FieldOf(f, s))| == SlotSize(f, s)
  {
    hide PutStrs;
    hide StringSzs;
    hide Take;
    if s == Wname {
      StringSzsExact(Take(f.wname, f.nwname));
    }
  }

  /** sizeS2M is exactly the size of the encoded message, for every type: the switch agrees with the format.  (An Rwalk
      with more than MAXWELEM qids has a size, but is never written.) */
  lemma SizeS2MExact(f: Outgoing)
    requires Sound(f)
    ensures SizeS2M(f) == 0 <==> Format(f.mtype).None?
    ensures Format(f.mtype).Some? && (f.mtype == 111 ==> f.nwqid <= MAXWELEM) ==> SizeS2M(f) == |Encode(MessageOf(f))|
  {
    hide SizeAt;
    hide SlotAt;
    hide SizeS2M;
    hide Format;
    hide PutFields;
    SwitchSize(f);
    if Format(f.mtype).Some? && (f.mtype == 111 ==> f.nwqid <= MAXWELEM) {
      TotalOpen(f, Format(f.mtype).value);
      SizesAt(f, Format(f.mtype).value);
    }
  }

  function SlotAt(f: Outgoing, ss: seq<Slot>, i: nat): nat {
    if i < |ss| then SlotSize(f, ss[i]) else 0
  }

  lemma SizesAt(f: Outgoing, ss: seq<Slot>)
    ensures forall i: nat :: SizeAt(f, ss, i) == SlotAt(f, ss, i)
  {
    hide PutField;
    hide FieldOf;
    hide SlotSize;
    forall i: nat ensures SizeAt(f, ss, i) == SlotAt(f, ss, i) {
      if i < |ss| {
        SlotSizeExact(f, ss[i]);
      }
    }
  }

  ghost predicate SwitchAgrees(f: Outgoing)
    requires Sound(f)
  {
    && (SizeS2M(f) == 0 <==> Format(f.mtype).None?)
    && (Format(f.mtype).Some? ==> |Format(f.mtype).value| <= 4)
    && (Format(f.mtype).Some? && (f.mtype == 111 ==> f.nwqid <= MAXWELEM) ==>
          var ss := Format(f.mtype).value;
          SizeS2M(f) == 7 + SlotAt(f, ss, 0) + SlotAt(f, ss, 1) + SlotAt(f, ss, 2) + SlotAt(f, ss, 3))
  }

  lemma SwitchSize(f: Outgoing)
    requires Sound(f)
    ensures SwitchAgrees(f)
  {
    hide SwitchAgrees;
    if f.mtype < 106 {
      SwitchSize1(f);
    } else if f.mtype < 112 {
      SwitchSize2(f);
    } else if f.mtype < 118 {
      SwitchSize3(f);
    } else {
      SwitchSize4(f);
    }
  }

  lemma SwitchSize1(f: Outgoing)
    requires Sound(f) && f.mtype < 106
    ensures SwitchAgrees(f)
  {
    hide StringSzs;
  }

  lemma SwitchSize2(f: Outgoing)
    requires Sound(f) && 106 <= f.mtype < 112
    ensures SwitchAgrees(f)
  {
    hide StringSzs;
  }

  lemma SwitchSize3(f: Outgoing)
    requires Sound(f) && 112 <= f.mtype < 118
    ensures SwitchAgrees(f)
  {
    hide StringSzs;
  }

  lemma SwitchSize4(f: Outgoing)
    requires Sound(f) && 118 <= f.mtype
    ensures SwitchAgrees(f)
  {
    hide StringSzs;
  }

  // ----- convS2M

  /** The calls made in convS2M: an integer of `w` bytes, a string, bytes copied, a qid; and the check that returns 0. */
  datatype Put = P(w: nat, v: nat) | S(s: Option<seq<Byte>>) | B(bytes: seq<Byte>) | Q(q: Qid) | AtMost(n: nat)

  /** The loops of Twalk and Rwalk. */
  function StringPuts(ss: seq<Option<seq<Byte>>>): seq<Put> {
    seq(|ss|, i requires 0 <= i < |ss| => S(ss[i]))
  }

  function QidPuts(qs: seq<Qid>): seq<Put> {
    seq(|qs|, i requires 0 <= i < |qs| => Q(qs[i]))
  }

  /** The switch of convS2M. */
  function Writes(f: Outgoing): Option<seq<Put>>
    requires Sound(f)
  {
    match f.mtype
    case 100 => Some([P(4, f.msize), S(f.version)])
    case 108 => Some([P(2, f.oldtag)])
    case 102 => Some([P(4, f.afid), S(f.uname), S(f.aname)])
    case 104 => Some([P(4, f.fid), P(4, f.afid), S(f.uname), S(f.aname)])
    case 110 =>
      Some([P(4, f.fid), P(4, f.newfid), P(2, f.nwname), AtMost(f.nwname)] + StringPuts(f.wname[..f.nwname]))
    case 112 => Some([P(4, f.fid), P(1, f.mode)])
    case 114 => Some([P(4, f.fid), S(f.name), P(4, f.perm), P(1, f.mode)])
    case 116 => Some([P(4, f.fid), P(8, f.offset), P(4, f.count)])
    case 118 => Some([P(4, f.fid), P(8, f.offset), P(4, f.count), B(f.data[..f.count])])
    case 120 => Some([P(4, f.fid)])
    case 122 => Some([P(4, f.fid)])
    case 124 => Some([P(4, f.fid)])
    case 126 => Some([P(4, f.fid), P(2, f.nstat), B(f.stat[..f.nstat])])
    case 101 => Some([P(4, f.msize), S(f.version)])
    case 107 => Some([S(f.ename)])
    case 109 => Some([])
    case 103 => Some([Q(f.aqid)])
    case 105 => Some([Q(f.qid)])
    case 111 =>
      Some([P(2, f.nwqid), AtMost(f.nwqid)]
           + if f.nwqid <= MAXWELEM then QidPuts(f.wqid[..f.nwqid]) else [])
    case 113 => Some([Q(f.qid), P(4, f.iounit)])
    case 115 => Some([Q(f.qid), P(4, f.iounit)])
    case 117 => Some([P(4, f.count), B(f.data[..f.count])])
    case 119 => Some([P(4, f.count)])
    case 121 => Some([])
    case 123 => Some([])
    case 125 => Some([P(2, f.nstat), B(f.stat[..f.nstat])])
    case 127 => Some([])
    case _ => None
  }

  /** The bytes a call writes. */
  function PutBytes(x: Put): seq<Byte> {
    match x
    case P(w, v) => PutInt(w, v)
    case S(s) => PutStr(s)
    case B(bytes) => bytes
    case Q(q) => PutQid(q)
    case AtMost(_) => []
  }

  function PutAll(xs: seq<Put>): seq<Byte> {
    if xs == [] then [] else PutBytes(xs[0]) + PutAll(xs[1..])
  }

  lemma {:induction false} PutAllAppend(xs: seq<Put>, ys: seq<Put>)
    ensures PutAll(xs + ys) == PutAll(xs) + PutAll(ys)
  {
    hide PutBytes;
    if xs == [] {
      assert xs + ys == ys;
    } else {
      PutAllAppend(xs[1..], ys);
      assert (xs + ys)[1..] == xs[1..] + ys && PutAll(xs + ys) == PutBytes(xs[0]) + PutAll(xs[1..] + ys);
      hide PutAll;
      BytesAssoc(PutBytes(xs[0]), PutAll(xs[1..]), PutAll(ys));
    }
  }

  lemma {:induction false} PutFieldsAppend(fs: seq<Field>, gs: seq<Field>)
    ensures PutFields(fs + gs) == PutFields(fs) + PutFields(gs)
  {
    hide PutField;
    if fs == [] {
      assert fs + gs == gs;
    } else {
      PutFieldsAppend(fs[1..], gs);
      assert (fs + gs)[1..] == fs[1..] + gs && PutFields(fs + gs) == PutField(fs[0]) + PutFields(fs[1..] + gs);
      hide PutFields;
      BytesAssoc(PutField(fs[0]), PutFields(fs[1..]), PutFields(gs));
    }
  }

  lemma {:induction false} PutStrings(ss: seq<Option<seq<Byte>>>)
    ensures PutAll(StringPuts(ss)) == PutStrs(ss)
  {
    hide PutStr;
    if ss != [] {
      PutStrings(ss[1..]);
      assert StringPuts(ss)[1..] == StringPuts(ss[1..]);
    }
  }

  lemma {:induction false} PutQidList(qs: seq<Qid>)
    ensures PutAll(QidPuts(qs)) == PutQids(qs)
  {
    hide PutQid;
    if qs != [] {
      PutQidList(qs[1..]);
      assert QidPuts(qs)[1..] == QidPuts(qs[1..]);
    }
  }

  /** The calls for one field of the format. */
  function SlotPuts(f: Outgoing, s: Slot): seq<Put> {
    match FieldOf(f, s)
    case Int(w, v) => [P(w, v)]
    case Str(x) => [S(x)]
    case AQid(q) => [Q(q)]
    case Data(w, bytes) => [P(w, if s == TheData then f.count else f.nstat), B(bytes)]
    case Names(ss) => [P(2, f.nwname), AtMost(f.nwname)] + StringPuts(ss)
    case Qids(qs) => [P(2, f.nwqid), AtMost(f.nwqid)] + QidPuts(qs)
  }

  /** What the field relies on. */
  predicate SlotSound(f: Outgoing, s: Slot) {
    && (s == TheData ==> f.count <= |f.data|) && (s == Stat ==> f.nstat <= |f.stat|)
    && (s == Wname ==> f.nwname <= |f.wname|) && (s == Wqid ==> f.nwqid <= |f.wqid|)
  }

  lemma PutOne(x: Put)
    ensures PutAll([x]) == PutBytes(x)
  {
    assert [x][1..] == [] && PutAll([]) == [];
  }

  lemma PutTwo(x: Put, y: Put)
    ensures PutAll([x, y]) == PutBytes(x) + PutBytes(y)
  {
    hide PutBytes;
    PutOne(y);
    assert [x, y][1..] == [y];
  }

  /** Counts are those of what they count. */
  lemma FieldShape(f: Outgoing, s: Slot)
    requires SlotSound(f, s)
    ensures var g := FieldOf(f, s);
      && (g.Data? ==> |g.bytes| == if s == TheData then f.count else f.nstat)
      && (g.Names? ==> |g.names| == f.nwname) && (g.Qids? ==> |g.qids| == f.nwqid)
  {
  }

  lemma SlotPutsExact(f: Outgoing, s: Slot)
    requires SlotSound(f, s)
    ensures PutAll(SlotPuts(f, s)) == PutField(FieldOf(f, s))
  {
    hide PutAll;
    hide PutInt;
    hide PutStr;
    hide PutQid;
    hide PutStrs;
    hide PutQids;
    hide StringPuts;
    hide QidPuts;
    FieldShape(f, s);
    hide FieldOf;
    hide SlotSound;
    var g := FieldOf(f, s);
    match g
    case Int(w, v) => PutOne(P(w, v));
    case Str(x) => PutOne(S(x));
    case AQid(q) => PutOne(Q(q));
    case Data(w, bytes) => PutTwo(P(w, |bytes|), B(bytes));
    case Names(ss) =>
      ListExact(P(2, |ss|), AtMost(|ss|), StringPuts(ss));
      PutStrings(ss);
    case Qids(qs) =>
      ListExact(P(2, |qs|), AtMost(|qs|), QidPuts(qs));
      PutQidList(qs);
  }

  lemma ListExact(x: Put, y: Put, rest: seq<Put>)
    requires y.AtMost?
    ensures PutAll([x, y] + rest) == PutBytes(x) + PutAll(rest)
  {
    PutTwo(x, y);
    PutAllAppend([x, y], rest);
    assert PutBytes(x) + [] == PutBytes(x);
  }

  /** The calls for the fields from number `i` on. */
  function PutsFrom(f: Outgoing, ss: seq<Slot>, i: nat): seq<Put>
    requires i <= |ss|
    decreases |ss| - i
  {
    if i == |ss| then [] else SlotPuts(f, ss[i]) + PutsFrom(f, ss, i + 1)
  }

  lemma {:induction false} PutsExact(f: Outgoing, ss: seq<Slot>, i: nat)
    requires i <= |ss| && forall j :: 0 <= j < |ss| ==> SlotSound(f, ss[j])
    ensures PutAll(PutsFrom(f, ss, i)) == PutFields(FieldsOf(f, ss)[i..])
    decreases |ss| - i
  {
    hide PutField;
    hide FieldOf;
    hide SlotPuts;
    hide SlotSound;
    if i < |ss| {
      PutsExact(f, ss, i + 1);
      SlotPutsExact(f, ss[i]);
      PutAllAppend(SlotPuts(f, ss[i]), PutsFrom(f, ss, i + 1));
      assert FieldsOf(f, ss)[i..][1..] == FieldsOf(f, ss)[i + 1..];
    }
  }

  function PutsAt(f: Outgoing, ss: seq<Slot>, i: nat): seq<Put> {
    if i < |ss| then SlotPuts(f, ss[i]) else []
  }

  lemma PutsOpen(f: Outgoing, ss: seq<Slot>)
    requires |ss| <= 4
    ensures PutsFrom(f, ss, 0) == PutsAt(f, ss, 0) + (PutsAt(f, ss, 1) + (PutsAt(f, ss, 2) + PutsAt(f, ss, 3)))
  {
    hide SlotPuts;
    if |ss| > 3 { assert PutsFrom(f, ss, 3) == PutsAt(f, ss, 3) + PutsFrom(f, ss, 4); }
    if |ss| > 2 { assert PutsFrom(f, ss, 2) == PutsAt(f, ss, 2) + PutsFrom(f, ss, 3); }
    if |ss| > 1 { assert PutsFrom(f, ss, 1) == PutsAt(f, ss, 1) + PutsFrom(f, ss, 2); }
  }

  /** The switch of convS2M makes the calls for the fields of the format, in order, and relies on what sizeS2M relies on. */
  ghost predicate WritesAgree(f: Outgoing)
    requires Sound(f)
  {
    && (Writes(f).None? <==> Format(f.mtype).None?)
    && (Format(f.mtype).Some? && (f.mtype == 111 ==> f.nwqid <= MAXWELEM) ==>
          var ss := Format(f.mtype).value;
          && |ss| <= 4 && (forall j :: 0 <= j < |ss| ==> SlotSound(f, ss[j]))
          && Writes(f).value == PutsAt(f, ss, 0) + (PutsAt(f, ss, 1) + (PutsAt(f, ss, 2) + PutsAt(f, ss, 3))))
  }

  lemma WritesSwitch(f: Outgoing)
    requires Sound(f)
    ensures WritesAgree(f)
  {
    hide WritesAgree;
    if f.mtype < 103 {
      WritesSwitch1(f);
    } else if f.mtype < 106 {
      WritesSwitch2(f);
    } else if f.mtype < 110 {
      WritesSwitch3(f);
    } else if f.mtype < 112 {
      WritesSwitch4(f);
    } else if f.mtype < 115 {
      WritesSwitch5(f);
    } else if f.mtype < 118 {
      WritesSwitch6(f);
    } else if f.mtype < 122 {
      WritesSwitch7(f);
    } else {
      WritesSwitch8(f);
    }
  }

  lemma WritesSwitch1(f: Outgoing)
    requires Sound(f) && f.mtype < 103
    ensures WritesAgree(f)
  {
    hide StringPuts;
    hide QidPuts;
  }

  lemma WritesSwitch2(f: Outgoing)
    requires Sound(f) && 103 <= f.mtype < 106
    ensures WritesAgree(f)
  {
    hide StringPuts;
    hide QidPuts;
  }

  lemma WritesSwitch3(f: Outgoing)
    requires Sound(f) && 106 <= f.mtype < 110
    ensures WritesAgree(f)
  {
    hide StringPuts;
    hide QidPuts;
  }

  lemma WritesSwitch4(f: Outgoing)
    requires Sound(f) && 110 <= f.mtype < 112
    ensures WritesAgree(f)
  {
    hide StringPuts;
    hide QidPuts;
  }

  lemma WritesSwitch5(f: Outgoing)
    requires Sound(f) && 112 <= f.mtype < 115
    ensures WritesAgree(f)
  {
    hide StringPuts;
    hide QidPuts;
  }

  lemma WritesSwitch6(f: Outgoing)
    requires Sound(f) && 115 <= f.mtype < 118
    ensures WritesAgree(f)
  {
    hide StringPuts;
    hide QidPuts;
  }

  lemma WritesSwitch7(f: Outgoing)
    requires Sound(f) && 118 <= f.mtype < 122
    ensures WritesAgree(f)
  {
    hide StringPuts;
    hide QidPuts;
  }

  lemma WritesSwitch8(f: Outgoing)
    requires Sound(f) && 122 <= f.mtype
    ensures WritesAgree(f)
  {
    hide StringPuts;
    hide QidPuts;
  }

  /** The calls of convS2M write exactly the fields of the message. */
  lemma WritesExact(f: Outgoing)
    requires Sound(f) && Format(f.mtype).Some? && (f.mtype == 111 ==> f.nwqid <= MAXWELEM)
    ensures Writes(f).Some? && PutAll(Writes(f).value) == PutFields(MessageOf(f).fields)
  {
    hide Writes;
    hide Format;
    hide PutAll;
    hide PutFields;
    hide PutsFrom;
    hide PutsAt;
    hide SlotSound;
    WritesSwitch(f);
    var ss := Format(f.mtype).value;
    PutsOpen(f, ss);
    PutsExact(f, ss, 0);
    assert FieldsOf(f, ss)[0..] == FieldsOf(f, ss);
  }

  // ----- convM2S

  /** A parsed message: strings and data are pointers into the message buffer. */
  type Incoming = Fcall<nat, nat>

  /** What follows a run of integers whose last one is a count. */
  datatype Tail = Plain | ThenData | ThenStat | ThenNames | ThenQids

  /** The steps of convM2S: check that `need` bytes are there and read integers from them, with what the last one
      counts; gstring; gqid. */
  datatype Step = Fixed(need: nat, ints: seq<Slot>, tail: Tail) | GetString(s: Slot) | GetQid(s: Slot)

  /** The switch of convM2S. */
  function Reads(mtype: nat): Option<seq<Step>> {
    match mtype
    case 100 => Some([Fixed(4, [Msize], Plain), GetString(Version)])
    case 108 => Some([Fixed(2, [Oldtag], Plain)])
    case 102 => Some([Fixed(4, [Afid], Plain), GetString(Uname), GetString(Aname)])
    case 104 => Some([Fixed(4, [Fid], Plain), Fixed(4, [Afid], Plain), GetString(Uname), GetString(Aname)])
    case 110 => Some([Fixed(4 + 4 + 2, [Fid, Newfid, Nwname], ThenNames)])
    case 112 => Some([Fixed(4 + 1, [Fid, Mode], Plain)])
    case 114 => Some([Fixed(4, [Fid], Plain), GetString(Name), Fixed(4 + 1, [Perm, Mode], Plain)])
    case 116 => Some([Fixed(4 + 8 + 4, [Fid, Offset, Count], Plain)])
    case 118 => Some([Fixed(4 + 8 + 4, [Fid, Offset, Count], ThenData)])
    case 120 => Some([Fixed(4, [Fid], Plain)])
    case 122 => Some([Fixed(4, [Fid], Plain)])
    case 124 => Some([Fixed(4, [Fid], Plain)])
    case 126 => Some([Fixed(4 + 2, [Fid, Nstat], ThenStat)])
    case 101 => Some([Fixed(4, [Msize], Plain), GetString(Version)])
    case 107 => Some([GetString(Ename)])
    case 109 => Some([])
    case 103 => Some([GetQid(Aqid)])
    case 105 => Some([GetQid(TheQid)])
    case 111 => Some([Fixed(2, [Nwqid], ThenQids)])
    case 113 => Some([GetQid(TheQid), Fixed(4, [Iounit], Plain)])
    case 115 => Some([GetQid(TheQid), Fixed(4, [Iounit], Plain)])
    case 117 => Some([Fixed(4, [Count], ThenData)])
    case 119 => Some([Fixed(4, [Count], Plain)])
    case 121 => Some([])
    case 123 => Some([])
    case 125 => Some([Fixed(2, [Nstat], ThenStat)])
    case 127 => Some([])
    case _ => None
  }

  function Width(s: Slot): nat {
    if SlotKind(s).KInt? then SlotKind(s).width else 0
  }

  /** The bytes of the integers from number `i` on. */
  function Widths(ints: seq<Slot>, i: nat): nat
    requires i <= |ints|
    decreases |ints| - i
  {
    if i == |ints| then 0 else Width(ints[i]) + Widths(ints, i + 1)
  }

  /** The count that a tail goes by, and the field that is read with it. */
  function CountOf(t: Tail): Slot {
    match t
    case Plain => Fid
    case ThenData => Count
    case ThenStat => Nstat
    case ThenNames => Nwname
    case ThenQids => Nwqid
  }

  function Counted(t: Tail): Slot {
    match t
    case Plain => Fid
    case ThenData => TheData
    case ThenStat => Stat
    case ThenNames => Wname
    case ThenQids => Wqid
  }

  /** The check covers exactly what is read; slots are of the right kind. */
  predicate StepOk(x: Step) {
    match x
    case Fixed(need, ints, tail) =>
      && need == Widths(ints, 0) && (forall i :: 0 <= i < |ints| ==> SlotKind(ints[i]).KInt?)
      && (!tail.Plain? ==> ints != [] && ints[|ints| - 1] == CountOf(tail))
    case GetString(s) => SlotKind(s).KStr?
    case GetQid(s) => SlotKind(s).KQid?
  }

  /** The fields of the format that a step reads. */
  function StepSlots(x: Step): seq<Slot> {
    match x
    case Fixed(_, ints, tail) =>
      if tail.Plain? || ints == [] then ints else ints[..|ints| - 1] + [Counted(tail)]
    case GetString(s) => [s]
    case GetQid(s) => [s]
  }

  function SlotsFrom(xs: seq<Step>, i: nat): seq<Slot>
    requires i <= |xs|
    decreases |xs| - i
  {
    if i == |xs| then [] else StepSlots(xs[i]) + SlotsFrom(xs, i + 1)
  }

  /** A count belongs to what it counts. */
  function Base(s: Slot): Slot {
    match s
    case Nwname => Wname
    case Nwqid => Wqid
    case Count => TheData
    case Nstat => Stat
    case _ => s
  }

  /** No field is set twice. */
  predicate Apart(ss: seq<Slot>) {
    forall i, j :: 0 <= i < j < |ss| ==> Base(ss[i]) != Base(ss[j])
  }

  /** The switch of convM2S reads the fields of the format in order, and each of its checks covers exactly what is read
      after it. */
  ghost predicate ReadsAgree(mtype: nat) {
    && (Reads(mtype).None? <==> Format(mtype).None?)
    && (Reads(mtype).Some? ==>
          var xs := Reads(mtype).value;
          (forall i :: 0 <= i < |xs| ==> StepOk(xs[i])) && SlotsFrom(xs, 0) == Format(mtype).value && Apart(Format(mtype).value))
  }

  lemma SlotsOpen(xs: seq<Step>)
    requires |xs| <= 4
    ensures SlotsFrom(xs, 0) == SlotsAt(xs, 0) + (SlotsAt(xs, 1) + (SlotsAt(xs, 2) + SlotsAt(xs, 3)))
  {
    hide StepSlots;
    if |xs| > 3 { assert SlotsFrom(xs, 3) == SlotsAt(xs, 3) + SlotsFrom(xs, 4); }
    if |xs| > 2 { assert SlotsFrom(xs, 2) == SlotsAt(xs, 2) + SlotsFrom(xs, 3); }
    if |xs| > 1 { assert SlotsFrom(xs, 1) == SlotsAt(xs, 1) + SlotsFrom(xs, 2); }
  }

  function SlotsAt(xs: seq<Step>, i: nat): seq<Slot> {
    if i < |xs| then StepSlots(xs[i]) else []
  }

  function ShortWidths(ints: seq<Slot>): nat {
    (if |ints| > 0 then Width(ints[0]) else 0) + (if |ints| > 1 then Width(ints[1]) else 0) + (if |ints| > 2 then Width(ints[2]) else 0)
  }

  lemma WidthsOpen(ints: seq<Slot>)
    requires |ints| <= 3
    ensures Widths(ints, 0) == ShortWidths(ints)
  {
    hide Width;
    if |ints| > 2 { assert Widths(ints, 2) == Width(ints[2]) + Widths(ints, 3); }
    if |ints| > 1 { assert Widths(ints, 1) == Width(ints[1]) + Widths(ints, 2); }
  }

  lemma ReadsExact(mtype: nat)
    ensures ReadsAgree(mtype)
  {
    ReadsSteps(mtype);
    ReadsSlots(mtype);
    FormatApart(mtype);
    hide StepOk;
    hide Apart;
    hide Reads;
    hide Format;
    hide SlotsFrom;
    hide SlotsAt;
    if Reads(mtype).Some? {
      SlotsOpen(Reads(mtype).value);
    }
  }

  /** The steps in the order of the format. */
  /** The switch of convM2S reads the fields of the format, in order. */
  ghost predicate SlotsAgree(mtype: nat) {
    && (Reads(mtype).None? <==> Format(mtype).None?)
    && (Reads(mtype).Some? ==>
          var xs := Reads(mtype).value;
          |xs| <= 4 && SlotsAt(xs, 0) + (SlotsAt(xs, 1) + (SlotsAt(xs, 2) + SlotsAt(xs, 3))) == Format(mtype).value)
  }

  lemma ReadsSlotsLow(mtype: nat)
    requires mtype < 112
    ensures SlotsAgree(mtype)
  {
  }

  lemma ReadsSlotsHigh(mtype: nat)
    requires mtype >= 112
    ensures SlotsAgree(mtype)
  {
  }

  lemma ReadsSlots(mtype: nat)
    ensures SlotsAgree(mtype)
  {
    hide SlotsAgree;
    if mtype < 112 {
      ReadsSlotsLow(mtype);
    } else {
      ReadsSlotsHigh(mtype);
    }
  }

  lemma FormatApartLow(mtype: nat)
    requires mtype < 112
    ensures Format(mtype).Some? ==> Apart(Format(mtype).value)
  {
  }

  lemma FormatApartHigh(mtype: nat)
    requires mtype >= 112
    ensures Format(mtype).Some? ==> Apart(Format(mtype).value)
  {
  }

  lemma FormatApart(mtype: nat)
    ensures Format(mtype).Some? ==> Apart(Format(mtype).value)
  {
    hide *;
    if mtype < 112 {
      FormatApartLow(mtype);
    } else {
      FormatApartHigh(mtype);
    }
  }

  /** A step is right, for one whose length check is for at most three fields. */
  predicate OneCheck(x: Step) {
    match x
    case Fixed(need, ints, tail) =>
      && |ints| <= 3 && need == ShortWidths(ints)
      && (|ints| > 0 ==> SlotKind(ints[0]).KInt?) && (|ints| > 1 ==> SlotKind(ints[1]).KInt?) && (|ints| > 2 ==> SlotKind(ints[2]).KInt?)
      && (!tail.Plain? ==> ints != [] && ints[|ints| - 1] == CountOf(tail))
    case GetString(s) => SlotKind(s).KStr?
    case GetQid(s) => SlotKind(s).KQid?
  }

  lemma ReadsCheckedLow(mtype: nat)
    requires mtype < 112
    ensures Reads(mtype).Some? ==> forall i :: 0 <= i < |Reads(mtype).value| ==> OneCheck(Reads(mtype).value[i])
  {
  }

  lemma ReadsCheckedMiddle(mtype: nat)
    requires 112 <= mtype < 119
    ensures Reads(mtype).Some? ==> forall i :: 0 <= i < |Reads(mtype).value| ==> OneCheck(Reads(mtype).value[i])
  {
  }

  lemma ReadsCheckedHigh(mtype: nat)
    requires mtype >= 119
    ensures Reads(mtype).Some? ==> forall i :: 0 <= i < |Reads(mtype).value| ==> OneCheck(Reads(mtype).value[i])
  {
  }

  lemma CheckedOk(x: Step)
    requires OneCheck(x)
    ensures StepOk(x)
  {
    if x.Fixed? { WidthsOpen(x.ints); }
  }

  lemma ReadsSteps(mtype: nat)
    ensures Reads(mtype).Some? ==> forall i :: 0 <= i < |Reads(mtype).value| ==> StepOk(Reads(mtype).value[i])
  {
    hide Reads;
    hide StepOk;
    hide OneCheck;
    if mtype < 112 {
      ReadsCheckedLow(mtype);
    } else if mtype < 119 {
      ReadsCheckedMiddle(mtype);
    } else {
      ReadsCheckedHigh(mtype);
    }
    if Reads(mtype).Some? {
      var xs := Reads(mtype).value;
      forall i | 0 <= i < |xs| ensures StepOk(xs[i]) {
        CheckedOk(xs[i]);
      }
    }
  }
}
