/**
  9P2000 messages (intro(5), section 5 of the Plan 9 Programmer's Manual): lib9/convS2M.c
  writes a message, lib9/convM2S.c parses one in place.

  This module is the format: `Format` gives, for each message type, the fields that follow the
  size, the type and the tag.  The switches of the C code are in module NinePFcall.
 */
module NineP {
  import opened Wrappers
  import opened Words

  const MAXWELEM := 16
  const QIDSZ := 13

  datatype Qid = Qid(kind: nat, vers: nat, path: nat)

  /** Kinds of fields: integers of 1, 2, 4 or 8 bytes, strings, counted data with a 4- or 2-byte count, qids, and the
      counted lists of names and qids. */
  datatype Kind = KInt(width: nat) | KStr | KData(width: nat) | KQid | KNames | KQids

  /** Field values.  A string is a C string pointer, which may be nil. */
  datatype Field =
    | Int(width: nat, n: nat)
    | Str(s: Option<seq<Byte>>)
    | Data(width: nat, bytes: seq<Byte>)
    | AQid(qid: Qid)
    | Names(names: seq<Option<seq<Byte>>>)
    | Qids(qids: seq<Qid>)

  datatype Message = Message(mtype: nat, tag: nat, fields: seq<Field>)

  /** The fields of messages, by their names in include/fcall.h.  TheData, Stat, Wname and Wqid come with the counts Count,
      Nstat, Nwname and Nwqid. */
  datatype Slot =
    | Fid | Msize | Version | Oldtag | Ename | TheQid | Iounit | Aqid | Afid | Uname | Aname | Perm | Name | Mode | Newfid
    | Nwname | Wname | Nwqid | Wqid | Offset | Count | TheData | Nstat | Stat

  function SlotKind(s: Slot): Kind {
    match s
    case Fid | Msize | Iounit | Afid | Perm | Newfid | Count => KInt(4)
    case Oldtag | Nwname | Nwqid | Nstat => KInt(2)
    case Mode => KInt(1)
    case Offset => KInt(8)
    case Version | Ename | Uname | Aname | Name => KStr
    case TheQid | Aqid => KQid
    case Wname => KNames
    case Wqid => KQids
    case TheData => KData(4)
    case Stat => KData(2)
  }

  /** The fields of each message type, as the manual gives them; None for types that are not messages. */
  function Format(mtype: nat): Option<seq<Slot>> {
    match mtype
    case 100 => Some([Msize, Version])               // Tversion
    case 101 => Some([Msize, Version])               // Rversion
    case 102 => Some([Afid, Uname, Aname])           // Tauth
    case 103 => Some([Aqid])                         // Rauth
    case 104 => Some([Fid, Afid, Uname, Aname])      // Tattach
    case 105 => Some([TheQid])                         // Rattach
    case 107 => Some([Ename])                        // Rerror
    case 108 => Some([Oldtag])                       // Tflush
    case 109 => Some([])                             // Rflush
    case 110 => Some([Fid, Newfid, Wname])           // Twalk
    case 111 => Some([Wqid])                         // Rwalk
    case 112 => Some([Fid, Mode])                    // Topen
    case 113 => Some([TheQid, Iounit])                 // Ropen
    case 114 => Some([Fid, Name, Perm, Mode])        // Tcreate
    case 115 => Some([TheQid, Iounit])                 // Rcreate
    case 116 => Some([Fid, Offset, Count])           // Tread
    case 117 => Some([TheData])                         // Rread
    case 118 => Some([Fid, Offset, TheData])            // Twrite
    case 119 => Some([Count])                        // Rwrite
    case 120 => Some([Fid])                          // Tclunk
    case 121 => Some([])                             // Rclunk
    case 122 => Some([Fid])                          // Tremove
    case 123 => Some([])                             // Rremove
    case 124 => Some([Fid])                          // Tstat
    case 125 => Some([Stat])                         // Rstat
    case 126 => Some([Fid, Stat])                    // Twstat
    case 127 => Some([])                             // Rwstat
    case _ => None
  }

  function Kinds(ss: seq<Slot>): (ks: seq<Kind>)
    ensures |ks| == |ss| && forall i :: 0 <= i < |ss| ==> ks[i] == SlotKind(ss[i])
  {
    seq(|ss|, i requires 0 <= i < |ss| => SlotKind(ss[i]))
  }

  /** The kinds of the fields of each message type. */
  function Layout(mtype: nat): Option<seq<Kind>> {
    if Format(mtype).None? then None else Some(Kinds(Format(mtype).value))
  }

  // ----- writing

  function Pow256(w: nat): (p: nat)
    ensures p >= 1
  {
    if w == 0 then 1 else 256 * Pow256(w - 1)
  }

  /** The `w` low bytes of `n`, low byte first. */
  function PutInt(w: nat, n: nat): (b: seq<Byte>)
    ensures |b| == w
    decreases w
  {
    if w == 0 then [] else [n % 256] + PutInt(w - 1, n / 256)
  }

  /** The characters of a possibly nil string. */
  function Chars(s: Option<seq<Byte>>): seq<Byte> {
    if s.None? then [] else s.value
  }

  function PutStr(s: Option<seq<Byte>>): seq<Byte> {
    PutInt(2, |Chars(s)|) + Chars(s)
  }

  function PutQid(q: Qid): (b: seq<Byte>)
    ensures |b| == QIDSZ
  {
    PutInt(1, q.kind) + PutInt(4, q.vers) + PutInt(8, q.path)
  }

  function PutStrs(ss: seq<Option<seq<Byte>>>): seq<Byte> {
    if ss == [] then [] else PutStr(ss[0]) + PutStrs(ss[1..])
  }

  function PutQids(qs: seq<Qid>): (b: seq<Byte>)
    ensures |b| == |qs| * QIDSZ
  {
    if qs == [] then [] else PutQid(qs[0]) + PutQids(qs[1..])
  }

  function PutField(f: Field): seq<Byte> {
    match f
    case Int(w, n) => PutInt(w, n)
    case Str(s) => PutStr(s)
    case Data(w, bytes) => PutInt(w, |bytes|) + bytes
    case AQid(q) => PutQid(q)
    case Names(ss) => PutInt(2, |ss|) + PutStrs(ss)
    case Qids(qs) => PutInt(2, |qs|) + PutQids(qs)
  }

  function PutFields(fs: seq<Field>): seq<Byte> {
    if fs == [] then [] else PutField(fs[0]) + PutFields(fs[1..])
  }

  lemma {:induction false} Times(p: nat, a: nat, b: nat)
    requires a < b
    ensures p * a + p <= p * b
    decreases b
  {
    if a + 1 < b {
      Times(p, a, b - 1);
    }
  }

  lemma QuotientIs(x: nat, p: nat, q: nat, r: nat)
    requires p > 0 && x == p * q + r && r < p
    ensures x / p == q
  {
    var q', r' := x / p, x % p;
    assert x == p * q' + r';
    if q' < q {
      Times(p, q', q);
    } else if q < q' {
      Times(p, q, q');
    }
  }

  lemma DivDiv(n: nat, i: nat)
    ensures n / 256 / Pow256(i) == n / Pow256(i + 1)
  {
    var p := Pow256(i);
    var m := n / 256;
    var q, r := m / p, m % p;
    assert m == p * q + r && n == 256 * m + n % 256;
    Associate(p, q);
    QuotientIs(n, 256 * p, q, 256 * r + n % 256);
  }

  lemma Associate(p: nat, q: nat)
    ensures 256 * (p * q) == 256 * p * q
  {
  }

  /** Byte `i` of a number is its digit `i` to the base 256, the lowest first. */
  lemma {:induction false} PutIntByte(w: nat, n: nat, i: nat)
    requires i < w
    ensures PutInt(w, n)[i] == n / Pow256(i) % 256
    decreases w
  {
    if i > 0 {
      PutIntByte(w - 1, n / 256, i - 1);
      DivDiv(n, i - 1);
    }
  }

  /** The fields of a qid: one byte of kind, four of version, eight of path. */
  lemma PutQidByte(q: Qid, i: nat)
    requires i < QIDSZ
    ensures PutQid(q)[i] == if i == 0 then q.kind % 256 else if i < 5 then q.vers / Pow256(i - 1) % 256 else q.path / Pow256(i - 5) % 256
  {
    hide Pow256;
    if i == 0 {
      PutIntByte(1, q.kind, 0);
    } else if i < 5 {
      PutIntByte(4, q.vers, i - 1);
    } else {
      PutIntByte(8, q.path, i - 5);
    }
  }

  // ----- parsing

  function GetInt(b: seq<Byte>): (n: nat)
    decreases |b|
  {
    if b == [] then 0 else b[0] as int + 256 * GetInt(b[1..])
  }

  /** A parse result: a value and the bytes after it. */
  type Parsed<T> = Option<(T, seq<Byte>)>

  function ParseInt(w: nat, b: seq<Byte>): Parsed<nat> {
    if |b| < w then None else Some((GetInt(b[..w]), b[w..]))
  }

  function ParseBytes(w: nat, b: seq<Byte>): Parsed<seq<Byte>> {
    if |b| < w then None
    else
      var n := GetInt(b[..w]);
      if |b| < w + n then None else Some((b[w..w + n], b[w + n..]))
  }

  function ParseQid(b: seq<Byte>): Parsed<Qid> {
    if |b| < QIDSZ then None else Some((Qid(GetInt(b[..1]), GetInt(b[1..5]), GetInt(b[5..13])), b[13..]))
  }

  function ParseStrs(n: nat, b: seq<Byte>): Parsed<seq<Option<seq<Byte>>>>
    decreases n
  {
    if n == 0 then Some(([], b))
    else
      var r := ParseBytes(2, b);
      if r.None? then None
      else
        var rs := ParseStrs(n - 1, r.value.1);
        if rs.None? then None else Some(([Some(r.value.0)] + rs.value.0, rs.value.1))
  }

  function ParseQids(n: nat, b: seq<Byte>): Parsed<seq<Qid>>
    decreases n
  {
    if n == 0 then Some(([], b))
    else
      var r := ParseQid(b);
      if r.None? then None
      else
        var rs := ParseQids(n - 1, r.value.1);
        if rs.None? then None else Some(([r.value.0] + rs.value.0, rs.value.1))
  }

  function ParseField(k: Kind, b: seq<Byte>): Parsed<Field> {
    match k
    case KInt(w) =>
      var r := ParseInt(w, b); if r.None? then None else Some((Int(w, r.value.0), r.value.1))
    case KStr =>
      var r := ParseBytes(2, b); if r.None? then None else Some((Str(Some(r.value.0)), r.value.1))
    case KData(w) =>
      var r := ParseBytes(w, b); if r.None? then None else Some((Data(w, r.value.0), r.value.1))
    case KQid =>
      var r := ParseQid(b); if r.None? then None else Some((AQid(r.value.0), r.value.1))
    case KNames =>
      var n := ParseInt(2, b);
      if n.None? || n.value.0 > MAXWELEM then None
      else var r := ParseStrs(n.value.0, n.value.1); if r.None? then None else Some((Names(r.value.0), r.value.1))
    case KQids =>
      var n := ParseInt(2, b);
      if n.None? || n.value.0 > MAXWELEM then None
      else var r := ParseQids(n.value.0, n.value.1); if r.None? then None else Some((Qids(r.value.0), r.value.1))
  }

  function ParseFields(ks: seq<Kind>, b: seq<Byte>): Parsed<seq<Field>>
    decreases |ks|
  {
    if ks == [] then Some(([], b))
    else
      var r := ParseField(ks[0], b);
      if r.None? then None
      else
        var rs := ParseFields(ks[1..], r.value.1);
        if rs.None? then None else Some(([r.value.0] + rs.value.0, rs.value.1))
  }

  /** The message at the front of `b`, with its size; None if it is rejected. */
  function Parse(b: seq<Byte>): Option<(Message, nat)> {
    if |b| < 7 then None
    else
      var size, mtype, tag := GetInt(b[..4]), GetInt(b[4..5]), GetInt(b[5..7]);
      if size < 7 || Layout(mtype).None? then None
      else
        var r := ParseFields(Layout(mtype).value, b[7..]);
        if r.None? || |b| - |r.value.1| != size then None
        else Some((Message(mtype, tag, r.value.0), size))
  }

  /** The bytes of a message. */
  function Encode(f: Message): seq<Byte> {
    var body := PutFields(f.fields);
    PutInt(4, 7 + |body|) + PutInt(1, f.mtype) + PutInt(2, f.tag) + body
  }

  // ----- which messages can be written

  predicate StrOk(s: Option<seq<Byte>>) {
    |Chars(s)| < Pow256(2)
  }

  predicate QidOk(q: Qid) {
    q.kind < Pow256(1) && q.vers < Pow256(4) && q.path < Pow256(8)
  }

  /** Field values in range, for the kind of field wanted. */
  predicate FieldOk(k: Kind, f: Field) {
    match f
    case Int(w, n) => k == KInt(w) && n < Pow256(w)
    case Str(s) => k == KStr && StrOk(s)
    case Data(w, bytes) => k == KData(w) && |bytes| < Pow256(w)
    case AQid(q) => k == KQid && QidOk(q)
    case Names(ss) => k == KNames && |ss| <= MAXWELEM && forall i :: 0 <= i < |ss| ==> StrOk(ss[i])
    case Qids(qs) => k == KQids && |qs| <= MAXWELEM && forall i :: 0 <= i < |qs| ==> QidOk(qs[i])
  }

  predicate FieldsOk(ks: seq<Kind>, fs: seq<Field>) {
    |ks| == |fs| && forall i :: 0 <= i < |ks| ==> FieldOk(ks[i], fs[i])
  }

  predicate MessageOk(f: Message) {
    && Layout(f.mtype).Some? && FieldsOk(Layout(f.mtype).value, f.fields)
    && f.tag < Pow256(2) && |Encode(f)| < Pow256(4)
  }

  /** A message as the receiver sees it: a nil string arrives as an empty one. */
  function SeenStr(s: Option<seq<Byte>>): Option<seq<Byte>> {
    Some(Chars(s))
  }

  function SeenStrs(ss: seq<Option<seq<Byte>>>): (r: seq<Option<seq<Byte>>>)
    ensures |r| == |ss|
  {
    if ss == [] then [] else [SeenStr(ss[0])] + SeenStrs(ss[1..])
  }

  function SeenField(f: Field): Field {
    match f
    case Str(s) => Str(SeenStr(s))
    case Names(ss) => Names(SeenStrs(ss))
    case _ => f
  }

  function SeenFields(fs: seq<Field>): seq<Field> {
    if fs == [] then [] else [SeenField(fs[0])] + SeenFields(fs[1..])
  }

  function Seen(f: Message): Message {
    f.(fields := SeenFields(f.fields))
  }

  // ----- parsing in parts

  lemma ParseOne(k: Kind, b: seq<Byte>)
    ensures ParseFields([k], b) ==
      if ParseField(k, b).None? then None else Some(([ParseField(k, b).value.0], ParseField(k, b).value.1))
  {
    hide ParseField;
    assert [k][1..] == [];
    if ParseField(k, b).Some? {
      var (f, rest) := ParseField(k, b).value;
      assert ParseFields([], rest) == Some(([], rest)) && [f] + [] == [f];
    }
  }

  lemma FieldAssoc(a: seq<Field>, b: seq<Field>, c: seq<Field>)
    ensures a + b + c == a + (b + c)
  {
  }

  lemma {:induction false} ParseAppend(ks: seq<Kind>, ls: seq<Kind>, b: seq<Byte>)
    ensures ParseFields(ks, b).None? ==> ParseFields(ks + ls, b).None?
    ensures ParseFields(ks, b).Some? ==>
      var (fs, rest) := ParseFields(ks, b).value;
      && (ParseFields(ls, rest).None? ==> ParseFields(ks + ls, b).None?)
      && (ParseFields(ls, rest).Some? ==>
            ParseFields(ks + ls, b) == Some((fs + ParseFields(ls, rest).value.0, ParseFields(ls, rest).value.1)))
    decreases |ks|
  {
    hide ParseField;
    if ks == [] {
      assert ks + ls == ls;
      if ParseFields(ls, b).Some? {
        assert [] + ParseFields(ls, b).value.0 == ParseFields(ls, b).value.0;
      }
    } else {
      assert (ks + ls)[1..] == ks[1..] + ls;
      if ParseField(ks[0], b).Some? {
        var (f, mid) := ParseField(ks[0], b).value;
        ParseAppend(ks[1..], ls, mid);
        if ParseFields(ks[1..], mid).Some? {
          var (fs, rest) := ParseFields(ks[1..], mid).value;
          if ParseFields(ls, rest).Some? {
            FieldAssoc([f], fs, ParseFields(ls, rest).value.0);
          }
        }
      }
    }
  }

  /** The least number of bytes a field takes. */
  function MinSize(k: Kind): nat {
    match k
    case KInt(w) => w
    case KStr => 2
    case KData(w) => w
    case KQid => QIDSZ
    case KNames => 2
    case KQids => 2
  }

  lemma ParseNeeds(k: Kind, b: seq<Byte>)
    ensures |b| < MinSize(k) ==> ParseField(k, b).None?
    ensures k.KInt? && |b| >= k.width ==> ParseField(k, b) == Some((Int(k.width, GetInt(b[..k.width])), b[k.width..]))
  {
  }

  // ----- parsing undoes writing

  lemma {:induction false} GetPut(w: nat, n: nat)
    requires n < Pow256(w)
    ensures GetInt(PutInt(w, n)) == n
    decreases w
  {
    if w > 0 {
      GetPut(w - 1, n / 256);
      assert PutInt(w, n)[1..] == PutInt(w - 1, n / 256);
    }
  }

  lemma {:induction false} PutGet(b: seq<Byte>)
    ensures PutInt(|b|, GetInt(b)) == b && GetInt(b) < Pow256(|b|)
  {
    if b != [] {
      PutGet(b[1..]);
      var n := GetInt(b[1..]);
      LowByte(b[0], n);
      assert GetInt(b) == b[0] as int + 256 * n && Pow256(|b|) == 256 * Pow256(|b| - 1);
      assert PutInt(|b|, GetInt(b)) == [b[0]] + PutInt(|b| - 1, n);
      hide GetInt;
      hide PutInt;
      hide Pow256;
    }
  }

  lemma LowByte(x: Byte, n: nat)
    ensures (x as int + 256 * n) % 256 == x && (x as int + 256 * n) / 256 == n
  {
  }

  /** And a number that is read has the bytes as its digits. */
  lemma GetIntByte(b: seq<Byte>, i: nat)
    requires i < |b|
    ensures GetInt(b) < Pow256(|b|) && GetInt(b) / Pow256(i) % 256 == b[i]
  {
    PutGet(b);
    PutIntByte(|b|, GetInt(b), i);
  }

  lemma ParseIntPut(w: nat, n: nat, tail: seq<Byte>)
    requires n < Pow256(w)
    ensures ParseInt(w, PutInt(w, n) + tail) == Some((n, tail))
  {
    var b := PutInt(w, n) + tail;
    assert b[..w] == PutInt(w, n) && b[w..] == tail;
    GetPut(w, n);
  }

  lemma ParseBytesPut(w: nat, bytes: seq<Byte>, tail: seq<Byte>)
    requires |bytes| < Pow256(w)
    ensures ParseBytes(w, PutInt(w, |bytes|) + bytes + tail) == Some((bytes, tail))
  {
    var b := PutInt(w, |bytes|) + bytes + tail;
    assert b[..w] == PutInt(w, |bytes|) && b[w..w + |bytes|] == bytes && b[w + |bytes|..] == tail;
    GetPut(w, |bytes|);
  }

  lemma ParseQidPut(q: Qid, tail: seq<Byte>)
    requires QidOk(q)
    ensures ParseQid(PutQid(q) + tail) == Some((q, tail))
  {
    hide PutInt;
    hide GetInt;
    hide Pow256;
    QidSlices(PutInt(1, q.kind), PutInt(4, q.vers), PutInt(8, q.path), tail);
    GetPut(1, q.kind);
    GetPut(4, q.vers);
    GetPut(8, q.path);
  }

  lemma QidSlices(x: seq<Byte>, y: seq<Byte>, z: seq<Byte>, tail: seq<Byte>)
    requires |x| == 1 && |y| == 4 && |z| == 8
    ensures var b := x + y + z + tail; b[..1] == x && b[1..5] == y && b[5..13] == z && b[13..] == tail
  {
  }

  lemma {:induction false} ParseStrsPut(ss: seq<Option<seq<Byte>>>, tail: seq<Byte>)
    requires forall i :: 0 <= i < |ss| ==> StrOk(ss[i])
    ensures ParseStrs(|ss|, PutStrs(ss) + tail) == Some((SeenStrs(ss), tail))
    decreases |ss|
  {
    hide ParseBytes;
    if ss == [] {
      assert PutStrs(ss) + tail == tail;
    } else {
      var rest := PutStrs(ss[1..]) + tail;
      ParseBytesPut(2, Chars(ss[0]), rest);
      assert PutStrs(ss) + tail == PutStr(ss[0]) + rest;
      ParseStrsPut(ss[1..], tail);
    }
  }

  lemma {:induction false} ParseQidsPut(qs: seq<Qid>, tail: seq<Byte>)
    requires forall i :: 0 <= i < |qs| ==> QidOk(qs[i])
    ensures ParseQids(|qs|, PutQids(qs) + tail) == Some((qs, tail))
    decreases |qs|
  {
    hide ParseQid;
    hide PutQid;
    hide QidOk;
    if qs == [] {
      assert PutQids(qs) + tail == tail;
    } else {
      var rest := PutQids(qs[1..]) + tail;
      ParseQidPut(qs[0], rest);
      assert PutQids(qs) + tail == PutQid(qs[0]) + rest;
      ParseQidsPut(qs[1..], tail);
      assert [qs[0]] + qs[1..] == qs;
    }
  }

  lemma BytesAssoc(a: seq<Byte>, b: seq<Byte>, c: seq<Byte>)
    ensures a + b + c == a + (b + c)
  {
  }

  lemma ParseNamesPut(ss: seq<Option<seq<Byte>>>, tail: seq<Byte>)
    requires |ss| <= MAXWELEM && forall i :: 0 <= i < |ss| ==> StrOk(ss[i])
    ensures ParseField(KNames, PutInt(2, |ss|) + PutStrs(ss) + tail) == Some((Names(SeenStrs(ss)), tail))
  {
    hide PutInt;
    hide PutStrs;
    hide ParseInt;
    hide ParseStrs;
    hide SeenStrs;
    hide StrOk;
    WalkFits(|ss|);
    BytesAssoc(PutInt(2, |ss|), PutStrs(ss), tail);
    ParseIntPut(2, |ss|, PutStrs(ss) + tail);
    ParseStrsPut(ss, tail);
  }

  lemma ParseQidListPut(qs: seq<Qid>, tail: seq<Byte>)
    requires |qs| <= MAXWELEM && forall i :: 0 <= i < |qs| ==> QidOk(qs[i])
    ensures ParseField(KQids, PutInt(2, |qs|) + PutQids(qs) + tail) == Some((Qids(qs), tail))
  {
    hide PutInt;
    hide PutQids;
    hide ParseInt;
    hide ParseQids;
    hide QidOk;
    WalkFits(|qs|);
    BytesAssoc(PutInt(2, |qs|), PutQids(qs), tail);
    ParseIntPut(2, |qs|, PutQids(qs) + tail);
    ParseQidsPut(qs, tail);
  }

  lemma ParseFieldPut(k: Kind, f: Field, tail: seq<Byte>)
    requires FieldOk(k, f)
    ensures ParseField(k, PutField(f) + tail) == Some((SeenField(f), tail))
  {
    hide PutInt;
    hide PutQid;
    hide PutStrs;
    hide PutQids;
    hide ParseInt;
    hide ParseBytes;
    hide ParseQid;
    hide ParseStrs;
    hide ParseQids;
    hide SeenStrs;
    hide QidOk;
    hide Pow256;
    match f
    case Int(w, n) => ParseIntPut(w, n, tail);
    case Str(s) => ParseBytesPut(2, Chars(s), tail);
    case Data(w, bytes) => ParseBytesPut(w, bytes, tail);
    case AQid(q) => ParseQidPut(q, tail);
    case Names(ss) => ParseNamesPut(ss, tail);
    case Qids(qs) => ParseQidListPut(qs, tail);
  }

  lemma WalkFits(n: nat)
    requires n <= MAXWELEM
    ensures n < Pow256(2)
  {
  }

  lemma {:induction false} ParseFieldsPut(ks: seq<Kind>, fs: seq<Field>, tail: seq<Byte>)
    requires FieldsOk(ks, fs)
    ensures ParseFields(ks, PutFields(fs) + tail) == Some((SeenFields(fs), tail))
    decreases |fs|
  {
    hide ParseField;
    hide PutField;
    hide FieldOk;
    if fs == [] {
      assert PutFields(fs) + tail == tail;
    } else {
      var rest := PutFields(fs[1..]) + tail;
      ParseFieldPut(ks[0], fs[0], rest);
      assert PutFields(fs) + tail == PutField(fs[0]) + rest;
      ParseFieldsPut(ks[1..], fs[1..], tail);
    }
  }

  /** Writing a message and parsing it gives the message back, whatever bytes follow. */
  lemma ParseEncode(f: Message, tail: seq<Byte>)
    requires MessageOk(f)
    ensures Parse(Encode(f) + tail) == Some((Seen(f), |Encode(f)|))
  {
    var body, b := PutFields(f.fields), Encode(f) + tail;
    hide PutFields;
    hide FieldsOk;
    hide ParseFields;
    assert b[..4] == PutInt(4, 7 + |body|) && b[4..5] == PutInt(1, f.mtype) && b[5..7] == PutInt(2, f.tag);
    assert b[7..] == body + tail;
    GetPut(4, 7 + |body|);
    GetPut(1, f.mtype);
    GetPut(2, f.tag);
    ParseFieldsPut(Layout(f.mtype).value, f.fields, tail);
  }

  // ----- writing undoes parsing

  lemma ParseBytesInverse(w: nat, b: seq<Byte>)
    ensures ParseBytes(w, b).Some? ==> var (bytes, rest) := ParseBytes(w, b).value;
      |bytes| < Pow256(w) && b == PutInt(w, |bytes|) + bytes + rest
  {
    if ParseBytes(w, b).Some? {
      PutGet(b[..w]);
      assert b == b[..w] + b[w..w + GetInt(b[..w])] + b[w + GetInt(b[..w])..];
    }
  }

  lemma ParseQidInverse(b: seq<Byte>)
    ensures ParseQid(b).Some? ==> var (q, rest) := ParseQid(b).value; QidOk(q) && b == PutQid(q) + rest
  {
    hide PutInt;
    hide GetInt;
    hide Pow256;
    if ParseQid(b).Some? {
      PutGet(b[..1]);
      PutGet(b[1..5]);
      PutGet(b[5..13]);
      QidWhole(b);
    }
  }

  lemma QidWhole(b: seq<Byte>)
    requires 13 <= |b|
    ensures b == b[..1] + b[1..5] + b[5..13] + b[13..]
  {
  }

  lemma StrsCons(s: Option<seq<Byte>>, ss: seq<Option<seq<Byte>>>)
    ensures PutStrs([s] + ss) == PutStr(s) + PutStrs(ss) && SeenStrs([s] + ss) == [SeenStr(s)] + SeenStrs(ss)
  {
    assert ([s] + ss)[1..] == ss;
  }

  lemma ParseStrsStep(n: nat, b: seq<Byte>)
    requires n > 0 && ParseStrs(n, b).Some?
    ensures ParseBytes(2, b).Some?
    ensures var (s, mid) := ParseBytes(2, b).value;
      ParseStrs(n - 1, mid).Some? && ParseStrs(n, b).value == ([Some(s)] + ParseStrs(n - 1, mid).value.0, ParseStrs(n - 1, mid).value.1)
  {
    hide ParseBytes;
  }

  lemma {:induction false} ParseStrsInverse(n: nat, b: seq<Byte>)
    ensures ParseStrs(n, b).Some? ==> var (ss, rest) := ParseStrs(n, b).value;
      |ss| == n && b == PutStrs(ss) + rest && SeenStrs(ss) == ss && forall i :: 0 <= i < n ==> StrOk(ss[i])
    decreases n
  {
    hide ParseBytes;
    if n == 0 {
      assert PutStrs([]) + b == b;
    } else if ParseStrs(n, b).Some? {
      hide PutInt;
      hide ParseStrs;
      hide PutStrs;
      hide SeenStrs;
      ParseStrsStep(n, b);
      ParseBytesInverse(2, b);
      var (s, mid) := ParseBytes(2, b).value;
      ParseStrsInverse(n - 1, mid);
      var (ss, rest) := ParseStrs(n - 1, mid).value;
      StrsCons(Some(s), ss);
      BytesAssoc(PutStr(Some(s)), PutStrs(ss), rest);
    }
  }

  lemma {:induction false} ParseQidsInverse(n: nat, b: seq<Byte>)
    ensures ParseQids(n, b).Some? ==> var (qs, rest) := ParseQids(n, b).value;
      |qs| == n && b == PutQids(qs) + rest && forall i :: 0 <= i < n ==> QidOk(qs[i])
    decreases n
  {
    hide ParseQid;
    hide PutQid;
    hide QidOk;
    if n == 0 {
      assert PutQids([]) + b == b;
    } else if ParseQids(n, b).Some? {
      ParseQidInverse(b);
      var (q, mid) := ParseQid(b).value;
      ParseQidsInverse(n - 1, mid);
      var (qs, rest) := ParseQids(n, b).value;
      assert qs[0] == q && qs[1..] == ParseQids(n - 1, mid).value.0;
      assert b == PutQid(q) + (PutQids(qs[1..]) + rest) == PutQids(qs) + rest;
    }
  }

  lemma ParseNamesInverse(b: seq<Byte>)
    requires ParseField(KNames, b).Some?
    ensures var (f, rest) := ParseField(KNames, b).value;
      FieldOk(KNames, f) && SeenField(f) == f && b == PutField(f) + rest
  {
    hide ParseStrs;
    hide PutStrs;
    hide PutInt;
    PutGet(b[..2]);
    ParseStrsInverse(GetInt(b[..2]), b[2..]);
    var (f, rest) := ParseField(KNames, b).value;
    assert b == b[..2] + b[2..];
    assert b[..2] + (PutStrs(f.names) + rest) == b[..2] + PutStrs(f.names) + rest;
  }

  lemma ParseQidListInverse(b: seq<Byte>)
    requires ParseField(KQids, b).Some?
    ensures var (f, rest) := ParseField(KQids, b).value;
      FieldOk(KQids, f) && SeenField(f) == f && b == PutField(f) + rest
  {
    hide ParseQids;
    hide PutQids;
    hide PutInt;
    hide QidOk;
    PutGet(b[..2]);
    ParseQidsInverse(GetInt(b[..2]), b[2..]);
    var (f, rest) := ParseField(KQids, b).value;
    assert b == b[..2] + b[2..];
    assert b[..2] + (PutQids(f.qids) + rest) == b[..2] + PutQids(f.qids) + rest;
  }

  lemma ParseFieldInverse(k: Kind, b: seq<Byte>)
    ensures ParseField(k, b).Some? ==> var (f, rest) := ParseField(k, b).value;
      FieldOk(k, f) && SeenField(f) == f && b == PutField(f) + rest
  {
    hide ParseBytes;
    hide ParseQid;
    hide PutInt;
    hide QidOk;
    if ParseField(k, b).Some? {
      match k
      case KInt(w) =>
        PutGet(b[..w]);
        assert b == b[..w] + b[w..];
      case KStr => ParseBytesInverse(2, b);
      case KData(w) => ParseBytesInverse(w, b);
      case KQid => ParseQidInverse(b);
      case KNames => ParseNamesInverse(b);
      case KQids => ParseQidListInverse(b);
    }
  }

  lemma {:induction false} ParseFieldsInverse(ks: seq<Kind>, b: seq<Byte>)
    ensures ParseFields(ks, b).Some? ==> var (fs, rest) := ParseFields(ks, b).value;
      FieldsOk(ks, fs) && SeenFields(fs) == fs && b == PutFields(fs) + rest
    decreases |ks|
  {
    hide ParseField;
    hide PutField;
    hide FieldOk;
    hide SeenField;
    if ks == [] {
      assert PutFields([]) + b == b;
    } else if ParseFields(ks, b).Some? {
      ParseFieldInverse(ks[0], b);
      var (f, mid) := ParseField(ks[0], b).value;
      ParseFieldsInverse(ks[1..], mid);
      var (fs, rest) := ParseFields(ks, b).value;
      assert fs[0] == f && fs[1..] == ParseFields(ks[1..], mid).value.0;
      assert b == PutField(f) + (PutFields(fs[1..]) + rest) == PutFields(fs) + rest;
    }
  }

  lemma ParseOpen(b: seq<Byte>)
    requires Parse(b).Some?
    ensures var (f, size) := Parse(b).value;
      && 7 <= |b| && size == GetInt(b[..4]) && f.mtype == GetInt(b[4..5]) && f.tag == GetInt(b[5..7])
      && Layout(f.mtype).Some? && ParseFields(Layout(f.mtype).value, b[7..]).Some?
      && var (fs, rest) := ParseFields(Layout(f.mtype).value, b[7..]).value; f.fields == fs && |b| - |rest| == size
  {
    hide Layout;
    hide ParseFields;
    hide GetInt;
  }

  lemma Header(b: seq<Byte>, body: seq<Byte>, rest: seq<Byte>)
    requires 7 <= |b| && b[7..] == body + rest
    ensures |b| == 7 + |body| + |rest| && b[..4] + b[4..5] + b[5..7] + body == b[..7 + |body|]
  {
    assert b == b[..7] + (body + rest);
    assert b[..4] + b[4..5] + b[5..7] == b[..7];
  }

  /** Every accepted message is the encoding of what was parsed: writing it again gives the same bytes. */
  lemma EncodeParse(b: seq<Byte>)
    requires Parse(b).Some?
    ensures var (f, size) := Parse(b).value; MessageOk(f) && Seen(f) == f && size <= |b| && Encode(f) == b[..size]
  {
    hide Parse;
    hide Layout;
    hide FieldsOk;
    hide ParseFields;
    hide PutFields;
    hide SeenFields;
    hide PutInt;
    hide GetInt;
    hide Pow256;
    ParseOpen(b);
    var (f, size) := Parse(b).value;
    ParseFieldsInverse(Layout(f.mtype).value, b[7..]);
    var body, rest := PutFields(f.fields), ParseFields(Layout(f.mtype).value, b[7..]).value.1;
    Header(b, body, rest);
    PutGet(b[..4]);
    PutGet(b[4..5]);
    PutGet(b[5..7]);
  }

  /** Acceptance ignores what follows the message. */
  lemma TrailingBytesIgnored(b: seq<Byte>, tail: seq<Byte>)
    requires Parse(b).Some?
    ensures var (f, size) := Parse(b).value; size <= |b| && Parse(b[..size] + tail) == Parse(b)
  {
    EncodeParse(b);
    ParseEncode(Parse(b).value.0, tail);
  }
}
