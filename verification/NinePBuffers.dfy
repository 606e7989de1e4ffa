/** The buffer code of lib9/convS2M.c and lib9/convM2S.c, proved against the message format. */
module NinePBuffers {
  import opened NineP
  import opened NinePFcall
  import opened Wrappers
  import opened Words

  // ----- convM2S

  /** A parsed field: strings and data are pointers into the message buffer. */
  datatype Ref =
    | RInt(width: nat, n: nat)
    | RStr(at: nat)
    | RData(width: nat, at: nat, len: nat)
    | RQid(qid: Qid)
    | RNames(n: nat, ats: seq<nat>)
    | RQids(n: nat, qids: seq<Qid>)

  /** `s` stands at `at`, followed by a NUL, within `[lo, hi)`. */
  predicate Spells(b: seq<Byte>, at: nat, s: Option<seq<Byte>>, lo: nat, hi: nat) {
    s.Some? && lo <= at && at + |s.value| < hi <= |b| && b[at..at + |s.value|] == s.value && b[at + |s.value|] == 0
  }

  /** What a parsed field denotes in buffer `b`; everything it points to lies within `[lo, hi)`. */
  predicate Denotes(b: seq<Byte>, r: Ref, f: Field, lo: nat, hi: nat) {
    match r
    case RInt(w, n) => f == Int(w, n)
    case RStr(at) => f.Str? && Spells(b, at, f.s, lo, hi)
    case RData(w, at, len) => f.Data? && f.width == w && |f.bytes| == len && lo <= at && at + len <= hi <= |b| && b[at..at + len] == f.bytes
    case RQid(q) => f == AQid(q)
    case RNames(n, ats) => f.Names? && n == |ats| == |f.names| && forall i :: 0 <= i < |ats| ==> Spells(b, ats[i], f.names[i], lo, hi)
    case RQids(n, qs) => n == |qs| && f == Qids(qs)
  }

  predicate SameWithin(b: seq<Byte>, c: seq<Byte>, lo: nat, hi: nat) {
    |b| == |c| && forall i :: lo <= i < hi && i < |b| ==> b[i] == c[i]
  }

  /** Denotation depends only on the bytes in range, and stays in any larger range. */
  lemma DenotesFrame(b: seq<Byte>, c: seq<Byte>, r: Ref, f: Field, lo: nat, hi: nat, hi': nat)
    requires Denotes(b, r, f, lo, hi) && SameWithin(b, c, lo, hi) && hi <= hi' <= |b|
    ensures Denotes(c, r, f, lo, hi')
  {
    match r
    case RStr(at) => SpellsFrame(b, c, at, f.s, lo, hi, hi');
    case RNames(_, ats) =>
      forall i | 0 <= i < |ats| ensures Spells(c, ats[i], f.names[i], lo, hi') {
        SpellsFrame(b, c, ats[i], f.names[i], lo, hi, hi');
      }
    case RData(w, at, len) => assert c[at..at + len] == b[at..at + len];
    case _ =>
  }

  lemma SpellsFrame(b: seq<Byte>, c: seq<Byte>, at: nat, s: Option<seq<Byte>>, lo: nat, hi: nat, hi': nat)
    requires Spells(b, at, s, lo, hi) && SameWithin(b, c, lo, hi) && hi <= hi' <= |b|
    ensures Spells(c, at, s, lo, hi')
  {
    assert c[at..at + |s.value|] == b[at..at + |s.value|];
  }

  /** The bytes `[p, ep)` of the buffer are still those of the message text. */
  ghost predicate Untouched(buf: array<Byte>, text: seq<Byte>, p: nat)
    reads buf
  {
    p <= |text| <= buf.Length && forall i :: p <= i < |text| ==> buf[i] == text[i]
  }

  method GBit(buf: array<Byte>, p: nat, w: nat, ghost text: seq<Byte>) returns (n: nat)
    requires Untouched(buf, text, p) && p + w <= |text|
    ensures n == GetInt(text[p..][..w])
  {
    n := 0;
    var i := w;
    assert text[p..][..w][w..] == [];
    while i > 0
      invariant 0 <= i <= w && n == GetInt(text[p..][..w][i..])
    {
      i := i - 1;
      assert text[p..][..w][i..][1..] == text[p..][..w][i + 1..];
      n := buf[p + i] + 256 * n;
    }
    assert text[p..][..w][0..] == text[p..][..w];
  }

  /** gstring: move a string down over its count, to make room for a NUL after it. */
  method GString(buf: array<Byte>, p: nat, ghost text: seq<Byte>, ep: nat) returns (ok: bool, at: nat, next: nat)
    requires Untouched(buf, text, p) && ep == |text|
    modifies buf
    ensures ok <==> ParseBytes(2, text[p..]).Some?
    ensures ok ==> var (s, rest) := ParseBytes(2, text[p..]).value;
      && p <= next <= ep && rest == text[next..] && Untouched(buf, text, next) && Spells(buf[..], at, Some(s), p, next)
    ensures forall i :: 0 <= i < buf.Length && !(ok && p <= i < next) ==> buf[i] == old(buf[i])
  {
    at, next, ok := 0, 0, false;
    if p + 2 > ep {
      return;
    }
    var n := GBit(buf, p, 2, text);
    at := p + 1;
    if at + n + 1 > ep {
      return;
    }
    ghost var s := text[p..][2..2 + n];
    forall i | 0 <= i < n { buf[at + i] := buf[at + 1 + i]; }
    buf[at + n] := 0;
    next := at + n + 1;
    ok := true;
    assert text[p..][2 + n..] == text[next..];
    assert buf[..][at..at + n] == s;
  }

  /** gqid. */
  method GQid(buf: array<Byte>, p: nat, ghost text: seq<Byte>, ep: nat) returns (ok: bool, q: Qid, next: nat)
    requires Untouched(buf, text, p) && ep == |text|
    ensures ok <==> ParseQid(text[p..]).Some?
    ensures ok ==> p <= next <= ep && ParseQid(text[p..]) == Some((q, text[next..]))
  {
    q, next, ok := Qid(0, 0, 0), 0, false;
    if p + QIDSZ > ep {
      return;
    }
    ghost var b := text[p..];
    var kind := GBit(buf, p, 1, text);
    var vers := GBit(buf, p + 1, 4, text);
    var path := GBit(buf, p + 5, 8, text);
    assert text[p + 1..][..4] == b[1..5] && text[p + 5..][..8] == b[5..13] && text[p + 13..] == b[13..];
    return true, Qid(kind, vers, path), p + QIDSZ;
  }

  /** The names found so far are intact together. */
  ghost predicate AllSpelled(buf: array<Byte>, ats: seq<nat>, ss: seq<Option<seq<Byte>>>, lo: nat, hi: nat)
    reads buf
  {
    |ats| == |ss| && hi <= buf.Length && forall i :: 0 <= i < |ats| ==> Spells(buf[..], ats[i], ss[i], lo, hi)
  }

  /** Appending a first name found below `mid` to the names found above it. */
  lemma SpelledCons(b: seq<Byte>, buf: array<Byte>, at: nat, s: Option<seq<Byte>>, ats: seq<nat>, ss: seq<Option<seq<Byte>>>, lo: nat, mid: nat, hi: nat)
    requires Spells(b, at, s, lo, mid) && SameWithin(b, buf[..], lo, mid) && lo <= mid <= hi <= buf.Length
    requires AllSpelled(buf, ats, ss, mid, hi)
    ensures AllSpelled(buf, [at] + ats, [s] + ss, lo, hi)
  {
    SpellsFrame(b, buf[..], at, s, lo, mid, hi);
    hide SameWithin;
    forall i | 0 <= i < |ats| ensures Spells(buf[..], ats[i], ss[i], lo, hi) {}
    hide Spells;
    forall i | 0 <= i < |ats| + 1 ensures Spells(buf[..], ([at] + ats)[i], ([s] + ss)[i], lo, hi) {
      if i > 0 {
        assert ([at] + ats)[i] == ats[i - 1] && ([s] + ss)[i] == ss[i - 1];
      }
    }
  }

  /** The loop of Twalk. */
  method GNames(buf: array<Byte>, n: nat, p: nat, ghost text: seq<Byte>, ep: nat)
    returns (ok: bool, ats: seq<nat>, next: nat, ghost ss: seq<Option<seq<Byte>>>)
    requires Untouched(buf, text, p) && ep == |text|
    modifies buf
    ensures ok <==> ParseStrs(n, text[p..]).Some?
    ensures ok ==> p <= next <= ep && ParseStrs(n, text[p..]) == Some((ss, text[next..])) && Untouched(buf, text, next)
    ensures ok ==> AllSpelled(buf, ats, ss, p, next)
    ensures forall i :: 0 <= i < p ==> buf[i] == old(buf[i])
    ensures forall i :: |text| <= i < buf.Length ==> buf[i] == old(buf[i])
    decreases n
  {
    hide ParseBytes;
    hide Spells;
    hide AllSpelled;
    ats, next, ss, ok := [], p, [], true;
    if n == 0 {
      NoneSpelled(buf, p, next);
      return;
    }
    var at, mid;
    ok, at, mid := GString(buf, p, text, ep);
    if !ok {
      return;
    }
    ghost var s, b := Some(ParseBytes(2, text[p..]).value.0), buf[..];
    ok, ats, next, ss := GNames(buf, n - 1, mid, text, ep);
    if ok {
      SpelledCons(b, buf, at, s, ats, ss, p, mid, next);
      ats, ss := [at] + ats, [s] + ss;
    }
  }

  lemma NoneSpelled(buf: array<Byte>, lo: nat, hi: nat)
    requires hi <= buf.Length
    ensures AllSpelled(buf, [], [], lo, hi)
  {
  }

  method GQids(buf: array<Byte>, n: nat, p: nat, ghost text: seq<Byte>, ep: nat) returns (ok: bool, qs: seq<Qid>, next: nat)
    requires Untouched(buf, text, p) && ep == |text|
    ensures ok <==> ParseQids(n, text[p..]).Some?
    ensures ok ==> p <= next <= ep && ParseQids(n, text[p..]) == Some((qs, text[next..]))
    decreases n
  {
    qs, next, ok := [], p, true;
    if n == 0 {
      return;
    }
    hide ParseQid;
    var q, mid;
    ok, q, mid := GQid(buf, p, text, ep);
    if !ok {
      return;
    }
    ok, qs, next := GQids(buf, n - 1, mid, text, ep);
    qs := [q] + qs;
  }

  // ----- the structure that is filled in

  /** The field of a parsed message. */
  function RefOf(f: Incoming, s: Slot): Ref {
    match s
    case Fid => RInt(4, f.fid)
    case Msize => RInt(4, f.msize)
    case Version => RStr(f.version)
    case Oldtag => RInt(2, f.oldtag)
    case Ename => RStr(f.ename)
    case TheQid => RQid(f.qid)
    case Iounit => RInt(4, f.iounit)
    case Aqid => RQid(f.aqid)
    case Afid => RInt(4, f.afid)
    case Uname => RStr(f.uname)
    case Aname => RStr(f.aname)
    case Perm => RInt(4, f.perm)
    case Name => RStr(f.name)
    case Mode => RInt(1, f.mode)
    case Newfid => RInt(4, f.newfid)
    case Nwname => RInt(2, f.nwname)
    case Wname => RNames(f.nwname, Take(f.wname, f.nwname))
    case Nwqid => RInt(2, f.nwqid)
    case Wqid => RQids(f.nwqid, Take(f.wqid, f.nwqid))
    case Offset => RInt(8, f.offset)
    case Count => RInt(4, f.count)
    case TheData => RData(4, f.data, f.count)
    case Nstat => RInt(2, f.nstat)
    case Stat => RData(2, f.stat, f.nstat)
  }

  /** The assignments of convM2S. */
  function SetInt(f: Incoming, s: Slot, v: nat): Incoming {
    match s
    case Fid => f.(fid := v)
    case Msize => f.(msize := v)
    case Oldtag => f.(oldtag := v)
    case Iounit => f.(iounit := v)
    case Afid => f.(afid := v)
    case Perm => f.(perm := v)
    case Mode => f.(mode := v)
    case Newfid => f.(newfid := v)
    case Nwname => f.(nwname := v)
    case Nwqid => f.(nwqid := v)
    case Offset => f.(offset := v)
    case Count => f.(count := v)
    case Nstat => f.(nstat := v)
    case _ => f
  }

  function SetString(f: Incoming, s: Slot, at: nat): Incoming {
    match s
    case Version => f.(version := at)
    case Ename => f.(ename := at)
    case Uname => f.(uname := at)
    case Aname => f.(aname := at)
    case Name => f.(name := at)
    case _ => f
  }

  function SetQid(f: Incoming, s: Slot, q: Qid): Incoming {
    match s
    case TheQid => f.(qid := q)
    case Aqid => f.(aqid := q)
    case _ => f
  }

  ghost predicate Off(t: Slot, ss: seq<Slot>) {
    forall i :: 0 <= i < |ss| ==> Base(ss[i]) != Base(t)
  }

  /** `f` is `f0` with nothing but `ss` set; the arrays keep their sizes. */
  ghost predicate Sets(f0: Incoming, f: Incoming, ss: seq<Slot>) {
    && f.mtype == f0.mtype && f.tag == f0.tag && |f.wname| == |f0.wname| && |f.wqid| == |f0.wqid|
    && forall t :: Off(t, ss) ==> RefOf(f, t) == RefOf(f0, t)
  }

  /** The fields `ss` are `rs`. */
  ghost predicate Shows(f: Incoming, ss: seq<Slot>, rs: seq<Ref>) {
    |ss| == |rs| && forall i :: 0 <= i < |ss| ==> RefOf(f, ss[i]) == rs[i]
  }

  lemma SetsThen(f0: Incoming, f1: Incoming, f2: Incoming, ss: seq<Slot>, ts: seq<Slot>, rs: seq<Ref>, qs: seq<Ref>)
    requires Sets(f0, f1, ss) && Shows(f1, ss, rs) && Sets(f1, f2, ts) && Shows(f2, ts, qs) && Apart(ss + ts)
    ensures Sets(f0, f2, ss + ts) && Shows(f2, ss + ts, rs + qs)
  {
    hide RefOf;
    hide Off;
    hide Apart;
    forall t | Off(t, ss + ts) ensures RefOf(f2, t) == RefOf(f0, t) {
      OffParts(t, ss, ts);
    }
    forall i | 0 <= i < |ss| ensures RefOf(f2, ss[i]) == rs[i] {
      ApartOff(ss, ts, i);
    }
  }

  lemma OffParts(t: Slot, ss: seq<Slot>, ts: seq<Slot>)
    requires Off(t, ss + ts)
    ensures Off(t, ss) && Off(t, ts)
  {
    hide Base;
    forall i | 0 <= i < |ss| ensures Base(ss[i]) != Base(t) {
      assert (ss + ts)[i] == ss[i];
    }
    forall i | 0 <= i < |ts| ensures Base(ts[i]) != Base(t) {
      assert (ss + ts)[|ss| + i] == ts[i];
    }
  }

  lemma ApartOff(ss: seq<Slot>, ts: seq<Slot>, i: nat)
    requires Apart(ss + ts) && i < |ss|
    ensures Off(ss[i], ts)
  {
    hide Base;
    forall j | 0 <= j < |ts| ensures Base(ts[j]) != Base(ss[i]) {
      assert (ss + ts)[i] == ss[i] && (ss + ts)[|ss| + j] == ts[j];
    }
  }

  lemma SetIntSets(f: Incoming, s: Slot, v: nat)
    requires SlotKind(s).KInt?
    ensures Sets(f, SetInt(f, s, v), [s]) && Shows(SetInt(f, s, v), [s], [RInt(Width(s), v)])
  {
    forall t | Off(t, [s]) ensures RefOf(SetInt(f, s, v), t) == RefOf(f, t) {
      assert Base([s][0]) != Base(t);
    }
  }

  lemma SetStringSets(f: Incoming, s: Slot, at: nat)
    requires SlotKind(s).KStr?
    ensures Sets(f, SetString(f, s, at), [s]) && Shows(SetString(f, s, at), [s], [RStr(at)])
  {
    forall t | Off(t, [s]) ensures RefOf(SetString(f, s, at), t) == RefOf(f, t) {
      assert Base([s][0]) != Base(t);
    }
  }

  lemma SetQidSets(f: Incoming, s: Slot, q: Qid)
    requires SlotKind(s).KQid?
    ensures Sets(f, SetQid(f, s, q), [s]) && Shows(SetQid(f, s, q), [s], [RQid(q)])
  {
    forall t | Off(t, [s]) ensures RefOf(SetQid(f, s, q), t) == RefOf(f, t) {
      assert Base([s][0]) != Base(t);
    }
  }

  /** A count and what it counts. */
  function SetTail(f: Incoming, t: Tail, n: nat, at: nat, ats: seq<nat>, qs: seq<Qid>): Incoming {
    match t
    case Plain => f
    case ThenData => f.(count := n, data := at)
    case ThenStat => f.(nstat := n, stat := at)
    case ThenNames => f.(nwname := n, wname := if n <= |f.wname| then ats + f.wname[n..] else f.wname)
    case ThenQids => f.(nwqid := n, wqid := if n <= |f.wqid| then qs + f.wqid[n..] else f.wqid)
  }

  function TailRef(t: Tail, n: nat, at: nat, ats: seq<nat>, qs: seq<Qid>): Ref {
    match t
    case Plain => RInt(0, 0)
    case ThenData => RData(4, at, n)
    case ThenStat => RData(2, at, n)
    case ThenNames => RNames(n, ats)
    case ThenQids => RQids(n, qs)
  }

  lemma SetTailSets(f: Incoming, t: Tail, n: nat, at: nat, ats: seq<nat>, qs: seq<Qid>)
    requires !t.Plain? && |f.wname| == |f.wqid| == MAXWELEM
    requires (t.ThenNames? ==> n <= MAXWELEM && |ats| == n) && (t.ThenQids? ==> n <= MAXWELEM && |qs| == n)
    ensures var g := SetTail(f, t, n, at, ats, qs);
      Sets(f, g, [Counted(t)]) && Shows(g, [Counted(t)], [TailRef(t, n, at, ats, qs)])
  {
    var g := SetTail(f, t, n, at, ats, qs);
    assert t.ThenNames? ==> g.wname[..n] == ats;
    assert t.ThenQids? ==> g.wqid[..n] == qs;
    forall u | Off(u, [Counted(t)]) ensures RefOf(g, u) == RefOf(f, u) {
      assert Base([Counted(t)][0]) != Base(u);
    }
  }

  // ----- the steps

  ghost predicate AllDenoted(b: seq<Byte>, rs: seq<Ref>, fs: seq<Field>, lo: nat, hi: nat) {
    |rs| == |fs| && hi <= |b| && forall i :: 0 <= i < |rs| ==> Denotes(b, rs[i], fs[i], lo, hi)
  }

  /** Reading the fields `ss` took the message from `p` to `next` and the structure from `f0` to `f`. */
  ghost predicate Got(text: seq<Byte>, p: nat, next: nat, ss: seq<Slot>, fs: seq<Field>, rs: seq<Ref>, f0: Incoming, f: Incoming) {
    && p <= next <= |text| && ParseFields(Kinds(ss), text[p..]) == Some((fs, text[next..]))
    && |rs| == |fs| && Sets(f0, f, ss) && Shows(f, ss, rs)
  }

  lemma KindsAppend(ss: seq<Slot>, ts: seq<Slot>)
    ensures Kinds(ss + ts) == Kinds(ss) + Kinds(ts)
  {
  }

  lemma GotThen(text: seq<Byte>, p: nat, mid: nat, next: nat, ss: seq<Slot>, ts: seq<Slot>, fs: seq<Field>, gs: seq<Field>,
                rs: seq<Ref>, qs: seq<Ref>, f0: Incoming, f1: Incoming, f2: Incoming)
    requires Got(text, p, mid, ss, fs, rs, f0, f1) && Got(text, mid, next, ts, gs, qs, f1, f2) && Apart(ss + ts)
    ensures Got(text, p, next, ss + ts, fs + gs, rs + qs, f0, f2)
  {
    hide ParseFields;
    hide Sets;
    hide Shows;
    KindsAppend(ss, ts);
    ParseAppend(Kinds(ss), Kinds(ts), text[p..]);
    SetsThen(f0, f1, f2, ss, ts, rs, qs);
  }

  lemma GotNot(text: seq<Byte>, p: nat, mid: nat, ss: seq<Slot>, ts: seq<Slot>, fs: seq<Field>, rs: seq<Ref>, f0: Incoming, f1: Incoming)
    requires Got(text, p, mid, ss, fs, rs, f0, f1) && ParseFields(Kinds(ts), text[mid..]).None?
    ensures ParseFields(Kinds(ss + ts), text[p..]).None?
  {
    hide ParseFields;
    KindsAppend(ss, ts);
    ParseAppend(Kinds(ss), Kinds(ts), text[p..]);
  }

  lemma GotNothing(text: seq<Byte>, p: nat, f: Incoming)
    requires p <= |text|
    ensures Got(text, p, p, [], [], [], f, f)
  {
    assert Kinds([]) == [];
  }

  lemma GotOne(text: seq<Byte>, p: nat, next: nat, s: Slot, x: Field, r: Ref, f0: Incoming, f: Incoming)
    requires p <= next <= |text| && ParseField(SlotKind(s), text[p..]) == Some((x, text[next..]))
    requires Sets(f0, f, [s]) && Shows(f, [s], [r])
    ensures Got(text, p, next, [s], [x], [r], f0, f) && ParseFields(Kinds([s]), text[p..]).Some?
  {
    hide ParseField;
    hide Sets;
    hide Shows;
    assert Kinds([s]) == [SlotKind(s)];
    ParseOne(SlotKind(s), text[p..]);
  }

  lemma NotOne(text: seq<Byte>, p: nat, s: Slot)
    requires p <= |text| && ParseField(SlotKind(s), text[p..]).None?
    ensures ParseFields(Kinds([s]), text[p..]).None?
  {
    hide ParseField;
    assert Kinds([s]) == [SlotKind(s)];
    ParseOne(SlotKind(s), text[p..]);
  }

  /** What was found earlier is still intact, next to what was found later. */
  lemma DenotedThen(b: seq<Byte>, c: seq<Byte>, rs: seq<Ref>, fs: seq<Field>, qs: seq<Ref>, gs: seq<Field>, lo: nat, mid: nat, hi: nat)
    requires AllDenoted(b, rs, fs, lo, mid) && SameWithin(b, c, lo, mid) && lo <= mid <= hi <= |b|
    requires AllDenoted(c, qs, gs, mid, hi)
    ensures AllDenoted(c, rs + qs, fs + gs, lo, hi)
  {
    hide Denotes;
    forall i | 0 <= i < |rs| + |qs| ensures Denotes(c, (rs + qs)[i], (fs + gs)[i], lo, hi) {
      if i < |rs| {
        DenotesFrame(b, c, rs[i], fs[i], lo, mid, hi);
      } else {
        DenotesWiden(c, qs[i - |rs|], gs[i - |rs|], mid, lo, hi);
      }
    }
  }

  lemma DenotesWiden(b: seq<Byte>, r: Ref, f: Field, lo: nat, lo': nat, hi: nat)
    requires Denotes(b, r, f, lo, hi) && lo' <= lo
    ensures Denotes(b, r, f, lo', hi)
  {
  }

  lemma DenotedOne(b: seq<Byte>, r: Ref, f: Field, lo: nat, hi: nat)
    requires Denotes(b, r, f, lo, hi) && hi <= |b|
    ensures AllDenoted(b, [r], [f], lo, hi)
  {
    hide Denotes;
  }

  lemma ApartParts(ss: seq<Slot>, ts: seq<Slot>)
    requires Apart(ss + ts)
    ensures Apart(ss) && Apart(ts)
  {
    forall i, j | 0 <= i < j < |ss| ensures Base(ss[i]) != Base(ss[j]) {
      assert (ss + ts)[i] == ss[i] && (ss + ts)[j] == ss[j];
    }
    forall i, j | 0 <= i < j < |ts| ensures Base(ts[i]) != Base(ts[j]) {
      assert (ss + ts)[|ss| + i] == ts[i] && (ss + ts)[|ss| + j] == ts[j];
    }
  }

  /** Integers, from number `i` on, whose bytes are known to be there. */
  method GInts(buf: array<Byte>, ints: seq<Slot>, i: nat, p: nat, f0: Incoming, ghost text: seq<Byte>, ep: nat)
    returns (f: Incoming, next: nat, ghost fs: seq<Field>, ghost rs: seq<Ref>)
    requires Untouched(buf, text, p) && ep == |text| && i <= |ints| && p + Widths(ints, i) <= ep
    requires Apart(ints[i..]) && forall k :: 0 <= k < |ints| ==> SlotKind(ints[k]).KInt?
    ensures next == p + Widths(ints, i) && Got(text, p, next, ints[i..], fs, rs, f0, f) && AllDenoted(buf[..], rs, fs, p, next)
    decreases |ints| - i
  {
    hide Got;
    hide Sets;
    hide Shows;
    f, next, fs, rs := f0, p, [], [];
    if i == |ints| {
      GotNothing(text, p, f0);
      return;
    }
    hide AllDenoted;
    hide SlotKind;
    var s, w := ints[i], Width(ints[i]);
    var n := GBit(buf, p, w, text);
    var f1 := SetInt(f0, s, n);
    SetIntSets(f0, s, n);
    IntIs(text, p, s);
    GotOne(text, p, p + w, s, Int(w, n), RInt(w, n), f0, f1);
    DenotedInt(buf[..], w, n, p, p + w);
    assert ints[i..] == [s] + ints[i + 1..];
    ApartParts([s], ints[i + 1..]);
    ghost var gs, qs;
    f, next, gs, qs := GInts(buf, ints, i + 1, p + w, f1, text, ep);
    fs, rs := [Int(w, n)] + gs, [RInt(w, n)] + qs;
    GotThen(text, p, p + w, next, [s], ints[i + 1..], [Int(w, n)], gs, [RInt(w, n)], qs, f0, f1, f);
    DenotedThen(buf[..], buf[..], [RInt(w, n)], [Int(w, n)], qs, gs, p, p + w, next);
  }

  lemma IntIs(text: seq<Byte>, p: nat, s: Slot)
    requires SlotKind(s).KInt? && p + Width(s) <= |text|
    ensures ParseField(SlotKind(s), text[p..]) == Some((Int(Width(s), GetInt(text[p..][..Width(s)])), text[p + Width(s)..]))
  {
    ParseNeeds(SlotKind(s), text[p..]);
    assert text[p..][Width(s)..] == text[p + Width(s)..];
  }

  lemma DenotedInt(b: seq<Byte>, w: nat, n: nat, lo: nat, hi: nat)
    requires lo <= hi <= |b|
    ensures AllDenoted(b, [RInt(w, n)], [Int(w, n)], lo, hi)
  {
  }

  /** Counted bytes, which stay where they are. */
  lemma DataIs(text: seq<Byte>, b: seq<Byte>, p: nat, w: nat, n: nat)
    requires p + w <= |text| <= |b| && n == GetInt(text[p..][..w]) && SameWithin(text + b[|text|..], b, p, |text|)
    ensures p + w + n > |text| ==> ParseField(KData(w), text[p..]).None?
    ensures p + w + n <= |text| ==>
      && ParseField(KData(w), text[p..]) == Some((Data(w, text[p + w..p + w + n]), text[p + w + n..]))
      && Denotes(b, RData(w, p + w, n), Data(w, text[p + w..p + w + n]), p, p + w + n)
  {
    assert |text[p..]| == |text| - p;
    if p + w + n <= |text| {
      assert text[p..][w..w + n] == text[p + w..p + w + n] && text[p..][w + n..] == text[p + w + n..];
      forall i | p <= i < |text| ensures b[i] == text[i] { assert (text + b[|text|..])[i] == text[i]; }
      assert b[p + w..p + w + n] == text[p + w..p + w + n];
    }
  }

  lemma NamesAre(text: seq<Byte>, p: nat, n: nat)
    requires p + 2 <= |text| && n == GetInt(text[p..][..2])
    ensures n > MAXWELEM ==> ParseField(KNames, text[p..]).None? && ParseField(KQids, text[p..]).None?
    ensures n <= MAXWELEM ==>
      && ParseField(KNames, text[p..]) ==
           (var r := ParseStrs(n, text[p + 2..]); if r.None? then None else Some((Names(r.value.0), r.value.1)))
      && ParseField(KQids, text[p..]) ==
           (var r := ParseQids(n, text[p + 2..]); if r.None? then None else Some((Qids(r.value.0), r.value.1)))
  {
    hide ParseStrs;
    hide ParseQids;
    assert text[p..][2..] == text[p + 2..];
  }

  /** Counted bytes. */
  method GDataTail(buf: array<Byte>, t: Tail, p: nat, f0: Incoming, ghost text: seq<Byte>, ep: nat)
    returns (ok: bool, f: Incoming, next: nat, ghost x: Field, ghost r: Ref)
    requires Untouched(buf, text, p) && ep == |text| && (t.ThenData? || t.ThenStat?) && p + Width(CountOf(t)) <= ep && |f0.wname| == |f0.wqid| == MAXWELEM
    ensures ok <==> ParseFields(Kinds([Counted(t)]), text[p..]).Some?
    ensures ok ==> Got(text, p, next, [Counted(t)], [x], [r], f0, f) && Untouched(buf, text, next) && next <= buf.Length
    ensures ok ==> Denotes(buf[..], r, x, p, next)
  {
    hide Got;
    hide Sets;
    hide Shows;
    hide ParseFields;
    hide ParseField;
    hide ParseStrs;
    hide ParseQids;
    hide Spells;
    hide AllSpelled;
    hide Denotes;
    var s, w := Counted(t), Width(CountOf(t));
    f, next, x, r, ok := f0, p, Int(0, 0), RInt(0, 0), false;
    var n := GBit(buf, p, w, text);
    DataIs(text, buf[..], p, w, n);
    if p + w + n > ep {
      NotOne(text, p, s);
      return;
    }
    ok, next := true, p + w + n;
    x, r := Data(w, text[p + w..p + w + n]), RData(w, p + w, n);
    f := SetTail(f0, t, n, p + w, [], []);
    SetTailSets(f0, t, n, p + w, [], []);
    GotOne(text, p, next, s, x, r, f0, f);
  }

  /** Counted names: at most MAXWELEM of them. */
  method GNamesTail(buf: array<Byte>, t: Tail, p: nat, f0: Incoming, ghost text: seq<Byte>, ep: nat)
    returns (ok: bool, f: Incoming, next: nat, ghost x: Field, ghost r: Ref)
    requires Untouched(buf, text, p) && ep == |text| && t.ThenNames? && p + 2 <= ep && |f0.wname| == |f0.wqid| == MAXWELEM
    modifies buf
    ensures ok <==> ParseFields(Kinds([Counted(t)]), text[p..]).Some?
    ensures ok ==> Got(text, p, next, [Counted(t)], [x], [r], f0, f) && Untouched(buf, text, next) && next <= buf.Length
    ensures ok ==> Denotes(buf[..], r, x, p, next)
    ensures forall i :: 0 <= i < p ==> buf[i] == old(buf[i])
    ensures forall i :: |text| <= i < buf.Length ==> buf[i] == old(buf[i])
  {
    hide Got;
    hide Sets;
    hide Shows;
    hide ParseFields;
    hide ParseField;
    hide ParseStrs;
    hide ParseQids;
    hide Spells;
    hide AllSpelled;
    hide Denotes;
    f, next, x, r, ok := f0, p, Int(0, 0), RInt(0, 0), false;
    var n := GBit(buf, p, 2, text);
    NamesAre(text, p, n);
    if n > MAXWELEM {
      NotOne(text, p, Wname);
      return;
    }
    var ats;
    ghost var ss;
    ok, ats, next, ss := GNames(buf, n, p + 2, text, ep);
    if !ok {
      NotOne(text, p, Wname);
      return;
    }
    NamesDenoted(buf, ats, ss, p + 2, p, next);
    NamesCount(buf, n, p + 2, text, ats, ss, next);
    x, r := Names(ss), RNames(n, ats);
    f := SetTail(f0, t, n, 0, ats, []);
    SetTailSets(f0, t, n, 0, ats, []);
    GotOne(text, p, next, Wname, x, r, f0, f);
  }

  /** Counted qids. */
  method GQidsTail(buf: array<Byte>, t: Tail, p: nat, f0: Incoming, ghost text: seq<Byte>, ep: nat)
    returns (ok: bool, f: Incoming, next: nat, ghost x: Field, ghost r: Ref)
    requires Untouched(buf, text, p) && ep == |text| && t.ThenQids? && p + 2 <= ep && |f0.wname| == |f0.wqid| == MAXWELEM
    ensures ok <==> ParseFields(Kinds([Counted(t)]), text[p..]).Some?
    ensures ok ==> Got(text, p, next, [Counted(t)], [x], [r], f0, f) && Untouched(buf, text, next) && next <= buf.Length
    ensures ok ==> Denotes(buf[..], r, x, p, next)
  {
    hide Got;
    hide Sets;
    hide Shows;
    hide ParseFields;
    hide ParseField;
    hide ParseStrs;
    hide ParseQids;
    hide Spells;
    hide AllSpelled;
    hide Denotes;
    f, next, x, r, ok := f0, p, Int(0, 0), RInt(0, 0), false;
    var n := GBit(buf, p, 2, text);
    NamesAre(text, p, n);
    if n > MAXWELEM {
      NotOne(text, p, Wqid);
      return;
    }
    var qs;
    ok, qs, next := GQids(buf, n, p + 2, text, ep);
    if !ok {
      NotOne(text, p, Wqid);
      return;
    }
    QidsCount(n, text[p + 2..]);
    QidsDenoted(buf[..], qs, p, next);
    x, r := Qids(qs), RQids(n, qs);
    f := SetTail(f0, t, n, 0, [], qs);
    SetTailSets(f0, t, n, 0, [], qs);
    GotOne(text, p, next, Wqid, x, r, f0, f);
  }

  /** A count and what it counts, the count being known to be there. */
  method GTail(buf: array<Byte>, t: Tail, p: nat, f0: Incoming, ghost text: seq<Byte>, ep: nat)
    returns (ok: bool, f: Incoming, next: nat, ghost x: Field, ghost r: Ref)
    requires Untouched(buf, text, p) && ep == |text| && !t.Plain? && p + Width(CountOf(t)) <= ep && |f0.wname| == |f0.wqid| == MAXWELEM
    modifies buf
    ensures ok <==> ParseFields(Kinds([Counted(t)]), text[p..]).Some?
    ensures ok ==> Got(text, p, next, [Counted(t)], [x], [r], f0, f) && Untouched(buf, text, next) && next <= buf.Length
    ensures ok ==> Denotes(buf[..], r, x, p, next)
    ensures forall i :: 0 <= i < p ==> buf[i] == old(buf[i])
    ensures forall i :: |text| <= i < buf.Length ==> buf[i] == old(buf[i])
  {
    hide Got;
    hide ParseFields;
    hide Denotes;
    if t.ThenNames? {
      ok, f, next, x, r := GNamesTail(buf, t, p, f0, text, ep);
    } else if t.ThenQids? {
      ok, f, next, x, r := GQidsTail(buf, t, p, f0, text, ep);
    } else {
      ok, f, next, x, r := GDataTail(buf, t, p, f0, text, ep);
    }
  }

  lemma NamesDenoted(buf: array<Byte>, ats: seq<nat>, ss: seq<Option<seq<Byte>>>, lo: nat, lo': nat, hi: nat)
    requires AllSpelled(buf, ats, ss, lo, hi) && lo' <= lo
    ensures Denotes(buf[..], RNames(|ats|, ats), Names(ss), lo', hi)
  {
    forall i | 0 <= i < |ats| ensures Spells(buf[..], ats[i], ss[i], lo', hi) {}
  }

  lemma NamesCount(buf: array<Byte>, n: nat, p: nat, text: seq<Byte>, ats: seq<nat>, ss: seq<Option<seq<Byte>>>, next: nat)
    requires p <= next <= |text| && ParseStrs(n, text[p..]) == Some((ss, text[next..])) && AllSpelled(buf, ats, ss, p, next)
    ensures |ats| == n
  {
    ParseStrsInverse(n, text[p..]);
  }

  lemma QidsCount(n: nat, b: seq<Byte>)
    ensures ParseQids(n, b).Some? ==> |ParseQids(n, b).value.0| == n
  {
    ParseQidsInverse(n, b);
  }

  lemma QidsDenoted(b: seq<Byte>, qs: seq<Qid>, lo: nat, hi: nat)
    ensures Denotes(b, RQids(|qs|, qs), Qids(qs), lo, hi)
  {
  }

  /** The check of a step fails only if the message is too short for its fields. */
  lemma {:induction false} IntsNeed(ints: seq<Slot>, last: Slot, i: nat, text: seq<Byte>, p: nat)
    requires i <= |ints| && p <= |text| && forall k :: 0 <= k < |ints| ==> SlotKind(ints[k]).KInt?
    requires p + Widths(ints, i) + MinSize(SlotKind(last)) > |text|
    ensures ParseFields(Kinds(ints[i..] + [last]), text[p..]).None?
    decreases |ints| - i
  {
    if i == |ints| {
      assert ints[i..] + [last] == [last];
      ParseNeeds(SlotKind(last), text[p..]);
      NotOne(text, p, last);
    } else {
      var s, w := ints[i], Width(ints[i]);
      assert ints[i..] + [last] == [s] + (ints[i + 1..] + [last]);
      KindsAppend([s], ints[i + 1..] + [last]);
      ParseAppend(Kinds([s]), Kinds(ints[i + 1..] + [last]), text[p..]);
      hide ParseFields;
      hide ParseField;
      hide SlotKind;
      hide MinSize;
      if p + w > |text| {
        TooShort(text, p, s);
      } else {
        IntIs(text, p, s);
        assert Kinds([s]) == [SlotKind(s)];
        ParseOne(SlotKind(s), text[p..]);
        IntsNeed(ints, last, i + 1, text, p + w);
      }
    }
  }

  lemma TooShort(text: seq<Byte>, p: nat, s: Slot)
    requires p <= |text| && p + MinSize(SlotKind(s)) > |text|
    ensures ParseFields(Kinds([s]), text[p..]).None?
    ensures SlotKind(s).KInt? ==> MinSize(SlotKind(s)) == Width(s)
  {
    ParseNeeds(SlotKind(s), text[p..]);
    NotOne(text, p, s);
  }

  lemma {:induction false} WidthsSplit(ints: seq<Slot>, i: nat)
    requires ints != [] && i < |ints|
    ensures Widths(ints, i) == Widths(ints[..|ints| - 1], i) + Width(ints[|ints| - 1])
    decreases |ints| - i
  {
    if i < |ints| - 1 {
      WidthsSplit(ints, i + 1);
    }
  }

  /** Integers after one check, the last of them perhaps a count. */
  method GFixed(buf: array<Byte>, x: Step, p: nat, f0: Incoming, ghost text: seq<Byte>, ep: nat)
    returns (ok: bool, f: Incoming, next: nat, ghost fs: seq<Field>, ghost rs: seq<Ref>)
    requires Untouched(buf, text, p) && ep == |text| && x.Fixed? && StepOk(x) && Apart(StepSlots(x)) && |f0.wname| == |f0.wqid| == MAXWELEM
    modifies buf
    ensures ok <==> ParseFields(Kinds(StepSlots(x)), text[p..]).Some?
    ensures ok ==> Got(text, p, next, StepSlots(x), fs, rs, f0, f) && Untouched(buf, text, next) && AllDenoted(buf[..], rs, fs, p, next)
    ensures forall i :: 0 <= i < p ==> buf[i] == old(buf[i])
    ensures forall i :: |text| <= i < buf.Length ==> buf[i] == old(buf[i])
  {
    hide Got;
    hide ParseFields;
    hide AllDenoted;
    hide Denotes;
    hide SlotKind;
    f, next, fs, rs, ok := f0, p, [], [], false;
    if p + x.need > ep {
      CheckFails(x, text, p);
      return;
    }
    if x.tail.Plain? {
      assert x.ints[0..] == x.ints;
      f, next, fs, rs := GInts(buf, x.ints, 0, p, f0, text, ep);
      GotSome(text, p, next, x.ints, fs, rs, f0, f);
      ok := true;
      return;
    }
    ghost var c := Counted(x.tail);
    var init := x.ints[..|x.ints| - 1];
    assert init[0..] == init && StepSlots(x) == init + [c];
    WidthsSplit(x.ints, 0);
    ApartParts(init, [c]);
    var f1, mid;
    ghost var gs, qs, y, r;
    f1, mid, gs, qs := GInts(buf, init, 0, p, f0, text, ep);
    GotArrays(text, p, mid, init, gs, qs, f0, f1);
    ghost var b := buf[..];
    ok, f, next, y, r := GTail(buf, x.tail, mid, f1, text, ep);
    if !ok {
      GotNot(text, p, mid, init, [c], gs, qs, f0, f1);
      return;
    }
    fs, rs := gs + [y], qs + [r];
    GotArrays(text, mid, next, [c], [y], [r], f1, f);
    GotThen(text, p, mid, next, init, [c], gs, [y], qs, [r], f0, f1, f);
    GotSome(text, p, next, init + [c], fs, rs, f0, f);
    DenotedOne(buf[..], r, y, mid, next);
    DenotedThen(b, buf[..], qs, gs, [r], [y], p, mid, next);
  }

  lemma GotSome(text: seq<Byte>, p: nat, next: nat, ss: seq<Slot>, fs: seq<Field>, rs: seq<Ref>, f0: Incoming, f: Incoming)
    requires Got(text, p, next, ss, fs, rs, f0, f)
    ensures p <= next <= |text| && ParseFields(Kinds(ss), text[p..]) == Some((fs, text[next..]))
  {
  }

  lemma GotArrays(text: seq<Byte>, p: nat, next: nat, ss: seq<Slot>, fs: seq<Field>, rs: seq<Ref>, f0: Incoming, f: Incoming)
    requires Got(text, p, next, ss, fs, rs, f0, f)
    ensures |f.wname| == |f0.wname| && |f.wqid| == |f0.wqid| && f.mtype == f0.mtype && f.tag == f0.tag && p <= next <= |text|
  {
  }

  lemma WidthsNone(ints: seq<Slot>)
    ensures ints == [] ==> Widths(ints, 0) == 0
  {
  }

  lemma CheckFails(x: Step, text: seq<Byte>, p: nat)
    requires x.Fixed? && StepOk(x) && p <= |text| && p + x.need > |text|
    ensures ParseFields(Kinds(StepSlots(x)), text[p..]).None?
  {
    var n := |x.ints|;
    WidthsNone(x.ints);
    var init, last := x.ints[..n - 1], StepSlots(x)[n - 1];
    WidthsSplit(x.ints, 0);
    assert init[0..] + [last] == StepSlots(x);
    assert MinSize(SlotKind(last)) == Width(x.ints[n - 1]);
    IntsNeed(init, last, 0, text, p);
  }

  /** One step. */
  method GStep(buf: array<Byte>, x: Step, p: nat, f0: Incoming, ghost text: seq<Byte>, ep: nat)
    returns (ok: bool, f: Incoming, next: nat, ghost fs: seq<Field>, ghost rs: seq<Ref>)
    requires Untouched(buf, text, p) && ep == |text| && StepOk(x) && Apart(StepSlots(x)) && |f0.wname| == |f0.wqid| == MAXWELEM
    modifies buf
    ensures ok <==> ParseFields(Kinds(StepSlots(x)), text[p..]).Some?
    ensures ok ==> Got(text, p, next, StepSlots(x), fs, rs, f0, f) && Untouched(buf, text, next) && AllDenoted(buf[..], rs, fs, p, next)
    ensures forall i :: 0 <= i < p ==> buf[i] == old(buf[i])
    ensures forall i :: |text| <= i < buf.Length ==> buf[i] == old(buf[i])
  {
    hide Got;
    hide Sets;
    hide Shows;
    hide ParseFields;
    hide ParseBytes;
    hide ParseQid;
    hide AllDenoted;
    f, next, fs, rs, ok := f0, p, [], [], false;
    match x {
      case Fixed(_, _, _) =>
        hide StepOk;
        hide Denotes;
        hide ParseField;
        ok, f, next, fs, rs := GFixed(buf, x, p, f0, text, ep);
      case GetString(s) =>
        hide Spells;
        var at;
        ok, at, next := GString(buf, p, text, ep);
        if !ok {
          NotOne(text, p, s);
          return;
        }
        f := SetString(f0, s, at);
        SetStringSets(f0, s, at);
        fs, rs := [Str(Some(ParseBytes(2, text[p..]).value.0))], [RStr(at)];
        GotOne(text, p, next, s, fs[0], rs[0], f0, f);
        DenotedOne(buf[..], rs[0], fs[0], p, next);
      case GetQid(s) =>
        var q;
        ok, q, next := GQid(buf, p, text, ep);
        if !ok {
          NotOne(text, p, s);
          return;
        }
        f := SetQid(f0, s, q);
        SetQidSets(f0, s, q);
        fs, rs := [AQid(q)], [RQid(q)];
        GotOne(text, p, next, s, fs[0], rs[0], f0, f);
        DenotedOne(buf[..], rs[0], fs[0], p, next);
    }
  }

  /** The steps of one case of the switch, from number `i` on. */
  method GSteps(buf: array<Byte>, xs: seq<Step>, i: nat, p: nat, f0: Incoming, ghost text: seq<Byte>, ep: nat)
    returns (ok: bool, f: Incoming, next: nat, ghost fs: seq<Field>, ghost rs: seq<Ref>)
    requires Untouched(buf, text, p) && ep == |text| && i <= |xs| && Apart(SlotsFrom(xs, i)) && |f0.wname| == |f0.wqid| == MAXWELEM
    requires forall k :: 0 <= k < |xs| ==> StepOk(xs[k])
    modifies buf
    ensures ok <==> ParseFields(Kinds(SlotsFrom(xs, i)), text[p..]).Some?
    ensures ok ==> Got(text, p, next, SlotsFrom(xs, i), fs, rs, f0, f) && AllDenoted(buf[..], rs, fs, p, next)
    ensures forall i :: 0 <= i < p ==> buf[i] == old(buf[i])
    ensures forall i :: |text| <= i < buf.Length ==> buf[i] == old(buf[i])
    decreases |xs| - i
  {
    hide Got;
    hide ParseFields;
    hide StepOk;
    hide StepSlots;
    hide Apart;
    f, next, fs, rs, ok := f0, p, [], [], true;
    if i == |xs| {
      GotNothing(text, p, f0);
      GotSome(text, p, p, [], [], [], f0, f0);
      return;
    }
    hide AllDenoted;
    ghost var ss, ts := StepSlots(xs[i]), SlotsFrom(xs, i + 1);
    ApartParts(ss, ts);
    var f1, mid;
    ghost var gs, qs, hs, os;
    ok, f1, mid, gs, qs := GStep(buf, xs[i], p, f0, text, ep);
    if !ok {
      KindsAppend(ss, ts);
      ParseAppend(Kinds(ss), Kinds(ts), text[p..]);
      return;
    }
    GotArrays(text, p, mid, ss, gs, qs, f0, f1);
    ghost var b := buf[..];
    ok, f, next, hs, os := GSteps(buf, xs, i + 1, mid, f1, text, ep);
    if !ok {
      GotNot(text, p, mid, ss, ts, gs, qs, f0, f1);
      return;
    }
    fs, rs := gs + hs, qs + os;
    GotThen(text, p, mid, next, ss, ts, gs, hs, qs, os, f0, f1, f);
    GotSome(text, mid, next, ts, hs, os, f1, f);
    GotSome(text, p, next, ss + ts, fs, rs, f0, f);
    DenotedThen(b, buf[..], qs, gs, os, hs, p, mid, next);
  }

  /** convM2S: the size of the message, or 0 if it is rejected.  The message is parsed in place: afterwards every string
      and every piece of data that the structure points to is intact in the buffer, all together. */
  method ConvM2S(buf: array<Byte>, nap: nat, f0: Incoming) returns (size: nat, f: Incoming, ghost m: Message, ghost rs: seq<Ref>)
    requires nap <= buf.Length && |f0.wname| == |f0.wqid| == MAXWELEM
    modifies buf
    ensures size == 0 <==> Parse(old(buf[..nap])).None?
    ensures size > 0 ==> Parse(old(buf[..nap])) == Some((m, size)) && Received(buf[..], f, m, size, rs)
    ensures forall i :: nap <= i < buf.Length ==> buf[i] == old(buf[i])
  {
    hide ParseFields;
    hide Got;
    hide AllDenoted;
    hide Format;
    hide Reads;
    hide SlotsFrom;
    hide StepOk;
    hide Apart;
    ghost var text := buf[..nap];
    size, f, m, rs := 0, f0, Message(0, 0, []), [];
    if 7 > nap {
      return;
    }
    assert text[0..] == text && text[4..][..1] == text[4..5] && text[5..][..2] == text[5..7];
    var n := GBit(buf, 0, 4, text);
    if n < 7 {
      return;
    }
    var mtype := GBit(buf, 4, 1, text);
    var tag := GBit(buf, 5, 2, text);
    var f1 := f0.(mtype := mtype, tag := tag);
    ReadsExact(mtype);
    var xs := Reads(mtype);
    if xs.None? {
      return;
    }
    var ok, next;
    ghost var fs;
    ok, f, next, fs, rs := GSteps(buf, xs.value, 0, 7, f1, text, nap);
    if ok {
      GotSome(text, 7, next, SlotsFrom(xs.value, 0), fs, rs, f1, f);
      GotShows(text, 7, next, SlotsFrom(xs.value, 0), fs, rs, f1, f);
      if next == n {
        size, m := n, Message(mtype, tag, fs);
      }
    }
  }

  lemma GotShows(text: seq<Byte>, p: nat, next: nat, ss: seq<Slot>, fs: seq<Field>, rs: seq<Ref>, f0: Incoming, f: Incoming)
    requires Got(text, p, next, ss, fs, rs, f0, f)
    ensures f.mtype == f0.mtype && f.tag == f0.tag && Shows(f, ss, rs) && |f.wname| == |f0.wname| && |f.wqid| == |f0.wqid|
  {
  }

  /** The structure `f`, with the buffer `b` as it now is, is message `m` of `size` bytes. */
  ghost predicate Received(b: seq<Byte>, f: Incoming, m: Message, size: nat, rs: seq<Ref>) {
    && f.mtype == m.mtype && f.tag == m.tag && |f.wname| == |f.wqid| == MAXWELEM && Format(m.mtype).Some?
    && Shows(f, Format(m.mtype).value, rs) && AllDenoted(b, rs, m.fields, 7, size)
  }

  // ----- convS2M

  /** `c` is `b` with `s` written at `p`. */
  ghost predicate Wrote(b: seq<Byte>, c: seq<Byte>, p: nat, s: seq<Byte>) {
    p + |s| <= |b| && c == b[..p] + s + b[p + |s|..]
  }

  lemma WroteThen(b: seq<Byte>, c: seq<Byte>, d: seq<Byte>, p: nat, s: seq<Byte>, t: seq<Byte>)
    requires Wrote(b, c, p, s) && Wrote(c, d, p + |s|, t)
    ensures Wrote(b, d, p, s + t)
  {
    assert c[..p + |s|] == b[..p] + s;
    assert c[p + |s| + |t|..] == b[p + |s| + |t|..];
    assert (b[..p] + s) + t == b[..p] + (s + t);
  }

  /** PBIT8, PBIT16, PBIT32 and PBIT64. */
  method PBit(buf: array<Byte>, p: nat, w: nat, n: nat)
    requires p + w <= buf.Length
    modifies buf
    ensures Wrote(old(buf[..]), buf[..], p, PutInt(w, n))
    decreases w
  {
    if w == 0 {
      return;
    }
    ghost var b := buf[..];
    buf[p] := n % 256;
    assert Wrote(b, buf[..], p, [n % 256]);
    ghost var c := buf[..];
    PBit(buf, p + 1, w - 1, n / 256);
    WroteThen(b, c, buf[..], p, [n % 256], PutInt(w - 1, n / 256));
  }

  /** memmove from memory outside the buffer. */
  method PBytes(buf: array<Byte>, p: nat, s: seq<Byte>)
    requires p + |s| <= buf.Length
    modifies buf
    ensures Wrote(old(buf[..]), buf[..], p, s)
  {
    forall i | 0 <= i < |s| { buf[p + i] := s[i]; }
  }

  /** A counted string of bytes. */
  method PCounted(buf: array<Byte>, p: nat, w: nat, s: seq<Byte>)
    requires p + w + |s| <= buf.Length
    modifies buf
    ensures Wrote(old(buf[..]), buf[..], p, PutInt(w, |s|) + s)
  {
    hide Wrote;
    ghost var b := buf[..];
    PBit(buf, p, w, |s|);
    ghost var c := buf[..];
    PBytes(buf, p + w, s);
    WroteThen(b, c, buf[..], p, PutInt(w, |s|), s);
  }

  /** pstring. */
  method PString(buf: array<Byte>, p: nat, s: Option<seq<Byte>>) returns (next: nat)
    requires p + |PutStr(s)| <= buf.Length
    modifies buf
    ensures Wrote(old(buf[..]), buf[..], p, PutStr(s)) && next == p + |PutStr(s)|
  {
    hide Wrote;
    hide PutInt;
    if s.None? {
      PBit(buf, p, 2, 0);
      assert PutStr(s) == PutInt(2, 0);
      return p + 2;
    }
    PCounted(buf, p, 2, s.value);
    return p + 2 + |s.value|;
  }

  /** pqid. */
  method PQid(buf: array<Byte>, p: nat, q: Qid) returns (next: nat)
    requires p + QIDSZ <= buf.Length
    modifies buf
    ensures Wrote(old(buf[..]), buf[..], p, PutQid(q)) && next == p + QIDSZ
  {
    hide Wrote;
    hide PutInt;
    ghost var b := buf[..];
    PBit(buf, p, 1, q.kind);
    ghost var c := buf[..];
    PBit(buf, p + 1, 4, q.vers);
    WroteThen(b, c, buf[..], p, PutInt(1, q.kind), PutInt(4, q.vers));
    ghost var d := buf[..];
    PBit(buf, p + 5, 8, q.path);
    WroteThen(b, d, buf[..], p, PutInt(1, q.kind) + PutInt(4, q.vers), PutInt(8, q.path));
    return p + QIDSZ;
  }

  lemma WroteNothing(b: seq<Byte>, p: nat)
    requires p <= |b|
    ensures Wrote(b, b, p, [])
  {
  }

  /** `b` and `c` agree outside `[p, hi)`. */
  ghost predicate Confined(b: seq<Byte>, c: seq<Byte>, p: nat, hi: nat) {
    |b| == |c| && (forall i :: 0 <= i < p && i < |b| ==> b[i] == c[i]) && (forall i :: hi <= i < |b| ==> b[i] == c[i])
  }

  lemma WroteConfined(b: seq<Byte>, c: seq<Byte>, p: nat, s: seq<Byte>, hi: nat)
    requires Wrote(b, c, p, s) && p + |s| <= hi
    ensures Confined(b, c, p, hi)
  {
  }

  lemma ConfinedThen(b: seq<Byte>, c: seq<Byte>, d: seq<Byte>, p: nat, q: nat, hi: nat)
    requires Confined(b, c, p, hi) && Confined(c, d, q, hi) && p <= q
    ensures Confined(b, d, p, hi)
  {
  }

  /** One call of the switch in convS2M; false is the return for too many elements. */
  method DoPut(buf: array<Byte>, p: nat, x: Put) returns (ok: bool, next: nat)
    requires p + |PutBytes(x)| <= buf.Length
    modifies buf
    ensures ok <==> (x.AtMost? ==> x.n <= MAXWELEM)
    ensures next == p + |PutBytes(x)| && Wrote(old(buf[..]), buf[..], p, PutBytes(x))
  {
    hide Wrote;
    hide PutInt;
    hide PutStr;
    hide PutQid;
    ok, next := true, p;
    match x {
      case P(w, v) =>
        PBit(buf, p, w, v);
        next := p + w;
      case S(s) =>
        next := PString(buf, p, s);
      case B(bytes) =>
        PBytes(buf, p, bytes);
        next := p + |bytes|;
      case Q(q) =>
        next := PQid(buf, p, q);
      case AtMost(n) =>
        WroteNothing(buf[..], p);
        ok := n <= MAXWELEM;
    }
  }

  predicate InLimits(xs: seq<Put>) {
    forall i :: 0 <= i < |xs| ==> xs[i].AtMost? ==> xs[i].n <= MAXWELEM
  }

  /** The calls of one case of the switch, in order. */
  method DoPuts(buf: array<Byte>, p: nat, xs: seq<Put>) returns (ok: bool, next: nat)
    requires p + |PutAll(xs)| <= buf.Length
    modifies buf
    ensures ok == InLimits(xs)
    ensures ok ==> Wrote(old(buf[..]), buf[..], p, PutAll(xs)) && next == p + |PutAll(xs)|
    ensures Confined(old(buf[..]), buf[..], p, p + |PutAll(xs)|)
    decreases |xs|
  {
    hide Wrote;
    hide PutBytes;
    ghost var b := buf[..];
    ok, next := true, p;
    if xs == [] {
      WroteNothing(b, p);
      return;
    }
    hide Confined;
    ghost var hi := p + |PutAll(xs)|;
    assert InLimits(xs) <==> (xs[0].AtMost? ==> xs[0].n <= MAXWELEM) && InLimits(xs[1..]) by {
      assert forall i :: 1 <= i < |xs| ==> xs[i] == xs[1..][i - 1];
    }
    hide InLimits;
    ok, next := DoPut(buf, p, xs[0]);
    ghost var c := buf[..];
    WroteConfined(b, c, p, PutBytes(xs[0]), hi);
    if ok {
      ok, next := DoPuts(buf, next, xs[1..]);
      ConfinedThen(b, c, buf[..], p, p + |PutBytes(xs[0])|, hi);
      if ok {
        WroteThen(b, c, buf[..], p, PutBytes(xs[0]), PutAll(xs[1..]));
      }
    }
  }

  /** convS2M: the size of the message, or 0 if its type is unknown, it does not fit, or it is an Rwalk with too many
      qids.  On success exactly the message is written, and nothing past it; on failure nothing past the room given. */
  method ConvS2M(f: Outgoing, ap: array<Byte>, nap: nat) returns (size: nat)
    requires Sound(f) && nap <= ap.Length && nap < Pow256(4) && SizeS2M(f) < Pow256(4)
    modifies ap
    ensures size == 0 <==> Format(f.mtype).None? || SizeS2M(f) > nap || (f.mtype == 111 && f.nwqid > MAXWELEM)
    ensures size > 0 ==> size == |Encode(MessageOf(f))| && Wrote(old(ap[..]), ap[..], 0, Encode(MessageOf(f)))
    ensures Confined(old(ap[..]), ap[..], 0, nap)
  {
    hide Wrote;
    hide PutInt;
    hide PutFields;
    hide PutAll;
    hide SizeS2M;
    hide Writes;
    hide Format;
    hide FieldsOf;
    SizeS2MExact(f);
    WritesFit(f);
    size := SizeS2M(f);
    if size == 0 {
      return;
    }
    if size > nap {
      return 0;
    }
    ghost var b := ap[..];
    PBit(ap, 0, 4, size);
    ghost var c := ap[..];
    PBit(ap, 4, 1, f.mtype);
    WroteThen(b, c, ap[..], 0, PutInt(4, size), PutInt(1, f.mtype));
    ghost var d := ap[..];
    PBit(ap, 5, 2, f.tag);
    ghost var head := PutInt(4, size) + PutInt(1, f.mtype) + PutInt(2, f.tag);
    WroteThen(b, d, ap[..], 0, PutInt(4, size) + PutInt(1, f.mtype), PutInt(2, f.tag));
    WroteConfined(b, ap[..], 0, head, nap);
    ghost var e := ap[..];
    var ok, next := DoPuts(ap, 7, Writes(f).value);
    Wider(e, ap[..], 7, 7 + |PutAll(Writes(f).value)|, nap);
    ConfinedThen(b, e, ap[..], 0, 7, nap);
    if !ok || size != next {
      return 0;
    }
    WritesExact(f);
    WroteThen(b, e, ap[..], 0, head, PutAll(Writes(f).value));
  }

  lemma Wider(b: seq<Byte>, c: seq<Byte>, p: nat, hi: nat, hi': nat)
    requires Confined(b, c, p, hi) && hi <= hi'
    ensures Confined(b, c, p, hi')
  {
  }

  /** What the calls write is what sizeS2M counted, and only a long Rwalk goes over the limit. */
  lemma WritesFit(f: Outgoing)
    requires Sound(f)
    ensures Format(f.mtype).Some? ==>
      && Writes(f).Some? && 7 + |PutAll(Writes(f).value)| <= SizeS2M(f)
      && (InLimits(Writes(f).value) <==> !(f.mtype == 111 && f.nwqid > MAXWELEM))
    ensures Format(f.mtype).Some? && !(f.mtype == 111 && f.nwqid > MAXWELEM) ==> 7 + |PutAll(Writes(f).value)| == SizeS2M(f)
  {
    if f.mtype == 111 && f.nwqid > MAXWELEM {
      PutTwo(P(2, f.nwqid), AtMost(f.nwqid));
      assert [P(2, f.nwqid), AtMost(f.nwqid)] + [] == [P(2, f.nwqid), AtMost(f.nwqid)] == Writes(f).value;
      assert Writes(f).value[1] == AtMost(f.nwqid);
    } else if Format(f.mtype).Some? {
      WritesExact(f);
      SizeS2MExact(f);
      WritesInLimits(f);
      hide Writes;
      hide SizeS2M;
      hide Format;
      hide PutAll;
      hide PutFields;
    }
  }

  lemma WritesInLimits(f: Outgoing)
    requires Sound(f) && !(f.mtype == 111 && f.nwqid > MAXWELEM) && Writes(f).Some?
    ensures InLimits(Writes(f).value)
  {
  }

  /** The C string at `at`: the bytes up to the first NUL. */
  function CString(b: seq<Byte>, at: nat): (s: Option<seq<Byte>>)
    decreases |b| - at
  {
    if at >= |b| then None
    else if b[at] == 0 then Some([])
    else var r := CString(b, at + 1); if r.None? then None else Some([b[at]] + r.value)
  }

  /** What convM2S hands out reads back, as a C string, exactly when the string on the wire has no NUL in it. */
  lemma {:induction false} SpelledIsCString(b: seq<Byte>, at: nat, s: seq<Byte>, lo: nat, hi: nat)
    requires Spells(b, at, Some(s), lo, hi)
    ensures CString(b, at) == Some(s) <==> 0 !in s
    ensures CString(b, at).Some? && CString(b, at).value <= s
    decreases |s|
  {
    if s == [] {
      assert CString(b, at) == Some([]);
    } else {
      assert b[at] == s[0] && s == [s[0]] + s[1..];
      if s[0] != 0 {
        assert b[at + 1..at + |s|] == s[1..];
        SpelledIsCString(b, at + 1, s[1..], lo, hi);
        var t := CString(b, at + 1).value;
        assert ([s[0]] + t)[1..] == t;
      }
    }
  }

  predicate NulFree(f: Field) {
    (f.Str? && f.s.Some? ==> 0 !in f.s.value)
    && (f.Names? ==> forall i :: 0 <= i < |f.names| && f.names[i].Some? ==> 0 !in f.names[i].value)
  }

  /** The field convS2M would read through the pointers convM2S left, buffer `b` being what it now is. */
  function Reread(b: seq<Byte>, r: Ref): Field {
    match r
    case RInt(w, n) => Int(w, n)
    case RStr(at) => Str(CString(b, at))
    case RData(w, at, len) => Data(w, if at + len <= |b| then b[at..at + len] else [])
    case RQid(q) => AQid(q)
    case RNames(_, ats) => Names(seq(|ats|, i requires 0 <= i < |ats| => CString(b, ats[i])))
    case RQids(_, qs) => Qids(qs)
  }

  lemma RereadNames(b: seq<Byte>, ats: seq<nat>, ss: seq<Option<seq<Byte>>>, gs: seq<Option<seq<Byte>>>, lo: nat, hi: nat)
    requires |ats| == |ss| == |gs|
    requires forall i :: 0 <= i < |ats| ==> Spells(b, ats[i], ss[i], lo, hi) && StrOk(ss[i]) && gs[i] == CString(b, ats[i])
    ensures SeenStrs(gs) == gs && forall i :: 0 <= i < |gs| ==> StrOk(gs[i])
    ensures gs == ss <==> forall i :: 0 <= i < |ss| && ss[i].Some? ==> 0 !in ss[i].value
  {
    forall i | 0 <= i < |ats|
      ensures gs[i].Some? && StrOk(gs[i]) && ss[i].Some? && (gs[i] == ss[i] <==> 0 !in ss[i].value)
    {
      SpelledName(b, ats[i], ss[i], lo, hi);
    }
    SeenSome(gs);
  }

  lemma SpelledName(b: seq<Byte>, at: nat, s: Option<seq<Byte>>, lo: nat, hi: nat)
    requires Spells(b, at, s, lo, hi) && StrOk(s)
    ensures s.Some? && CString(b, at).Some? && StrOk(CString(b, at))
    ensures CString(b, at) == s <==> 0 !in s.value
  {
    hide Pow256;
    hide CString;
    SpelledIsCString(b, at, s.value, lo, hi);
  }

  lemma RereadExact(b: seq<Byte>, k: Kind, r: Ref, f: Field, lo: nat, hi: nat)
    requires Denotes(b, r, f, lo, hi) && FieldOk(k, f)
    ensures FieldOk(k, Reread(b, r)) && SeenField(Reread(b, r)) == Reread(b, r)
    ensures Reread(b, r) == f <==> NulFree(f)
  {
    hide CString;
    hide Pow256;
    hide Spells;
    hide StrOk;
    match r
    case RStr(at) => SpelledName(b, at, f.s, lo, hi);
    case RNames(_, ats) => RereadNames(b, ats, f.names, Reread(b, r).names, lo, hi);
    case _ =>
  }

  lemma {:induction false} SeenSome(ss: seq<Option<seq<Byte>>>)
    requires forall i :: 0 <= i < |ss| ==> ss[i].Some?
    ensures SeenStrs(ss) == ss
  {
    if ss != [] {
      SeenSome(ss[1..]);
    }
  }

  lemma {:induction false} SeenAll(fs: seq<Field>)
    requires forall i :: 0 <= i < |fs| ==> SeenField(fs[i]) == fs[i]
    ensures SeenFields(fs) == fs
  {
    if fs != [] {
      SeenAll(fs[1..]);
    }
  }

  function RereadAll(b: seq<Byte>, rs: seq<Ref>): seq<Field> {
    seq(|rs|, i requires 0 <= i < |rs| => Reread(b, rs[i]))
  }

  lemma RereadAllExact(b: seq<Byte>, ks: seq<Kind>, rs: seq<Ref>, fs: seq<Field>, lo: nat, hi: nat)
    requires AllDenoted(b, rs, fs, lo, hi) && FieldsOk(ks, fs)
    ensures var gs := RereadAll(b, rs);
      && FieldsOk(ks, gs) && SeenFields(gs) == gs
      && (gs == fs <==> forall i :: 0 <= i < |fs| ==> NulFree(fs[i]))
  {
    hide Reread;
    hide NulFree;
    hide FieldOk;
    hide Denotes;
    hide SeenField;
    var gs := RereadAll(b, rs);
    forall i | 0 <= i < |fs|
      ensures FieldOk(ks[i], gs[i]) && SeenField(gs[i]) == gs[i] && (gs[i] == fs[i] <==> NulFree(fs[i]))
    {
      RereadExact(b, ks[i], rs[i], fs[i], lo, hi);
    }
    SeenAll(gs);
    if gs != fs {
      assert |gs| == |fs|;
      var i :| 0 <= i < |fs| && gs[i] != fs[i];
    }
  }

  /** The memory at a data pointer. */
  function Memory(b: seq<Byte>, at: nat): seq<Byte> {
    if at <= |b| then b[at..] else []
  }

  /** The structure convM2S filled in, as convS2M would read it. */
  function Reused(b: seq<Byte>, f: Incoming): Outgoing {
    Fcall(f.mtype, f.fid, f.tag, f.msize, CString(b, f.version), f.oldtag, CString(b, f.ename), f.qid, f.iounit, f.aqid,
          f.afid, CString(b, f.uname), CString(b, f.aname), f.perm, CString(b, f.name), f.mode, f.newfid, f.nwname,
          seq(|f.wname|, i requires 0 <= i < |f.wname| => CString(b, f.wname[i])), f.nwqid, f.wqid, f.offset, f.count,
          Memory(b, f.data), f.nstat, Memory(b, f.stat))
  }

  lemma ReusedField(b: seq<Byte>, f: Incoming, s: Slot, x: Field, lo: nat, hi: nat)
    requires Denotes(b, RefOf(f, s), x, lo, hi)
    ensures FieldOf(Reused(b, f), s) == Reread(b, RefOf(f, s))
    ensures (s == Wname ==> f.nwname <= |f.wname| && |x.names| == f.nwname) && (s == Wqid ==> f.nwqid <= |f.wqid| && |x.qids| == f.nwqid)
    ensures (s == TheData ==> f.data + f.count <= |b|) && (s == Stat ==> f.stat + f.nstat <= |b|)
  {
    hide *;
    ReusedTails(b, f, s, x, lo, hi);
    if s == Wname || s == Wqid || s == TheData || s == Stat {
      ReusedCounted(b, f, s);
    } else {
      ReusedPlain(b, f, s);
    }
  }

  lemma ReusedPlain(b: seq<Byte>, f: Incoming, s: Slot)
    requires s != Wname && s != Wqid && s != TheData && s != Stat
    ensures FieldOf(Reused(b, f), s) == Reread(b, RefOf(f, s))
  {
    hide CString;
    hide Memory;
  }

  lemma ReusedCounted(b: seq<Byte>, f: Incoming, s: Slot)
    requires s == Wname || s == Wqid || s == TheData || s == Stat
    requires (s == Wname ==> f.nwname <= |f.wname|) && (s == Wqid ==> f.nwqid <= |f.wqid|)
    requires s == TheData ==> f.data + f.count <= |b| && Memory(b, f.data)[..f.count] == b[f.data..f.data + f.count]
    requires s == Stat ==> f.stat + f.nstat <= |b| && Memory(b, f.stat)[..f.nstat] == b[f.stat..f.stat + f.nstat]
    ensures FieldOf(Reused(b, f), s) == Reread(b, RefOf(f, s))
  {
    hide CString;
    if s == Wname {
      assert Reused(b, f).wname[..f.nwname] == Reread(b, RefOf(f, s)).names;
    }
  }

  /** Counted fields lie in the buffer, as far as they are counted. */
  lemma ReusedTails(b: seq<Byte>, f: Incoming, s: Slot, x: Field, lo: nat, hi: nat)
    requires Denotes(b, RefOf(f, s), x, lo, hi)
    ensures (s == Wname ==> f.nwname <= |f.wname| && |x.names| == f.nwname) && (s == Wqid ==> f.nwqid <= |f.wqid| && |x.qids| == f.nwqid)
    ensures s == TheData ==> f.data + f.count <= |b| && Memory(b, f.data)[..f.count] == b[f.data..f.data + f.count]
    ensures s == Stat ==> f.stat + f.nstat <= |b| && Memory(b, f.stat)[..f.nstat] == b[f.stat..f.stat + f.nstat]
  {
    hide Spells;
  }

  lemma ReusedFields(b: seq<Byte>, f: Incoming, m: Message, size: nat, rs: seq<Ref>)
    requires Received(b, f, m, size, rs) && MessageOk(m)
    ensures Sound(Reused(b, f)) && MessageOf(Reused(b, f)) == m.(fields := RereadAll(b, rs))
    ensures f.mtype == 111 ==> f.nwqid <= MAXWELEM
  {
    hide Reread;
    hide Denotes;
    hide FieldOf;
    hide RefOf;
    hide CString;
    var ss, g := Format(m.mtype).value, Reused(b, f);
    forall i | 0 <= i < |ss|
      ensures FieldOf(g, ss[i]) == Reread(b, rs[i])
      ensures (ss[i] == Wname ==> f.nwname <= MAXWELEM) && (ss[i] == Wqid ==> f.nwqid <= MAXWELEM)
      ensures (ss[i] == TheData ==> f.data + f.count <= |b|) && (ss[i] == Stat ==> f.stat + f.nstat <= |b|)
    {
      ReusedField(b, f, ss[i], m.fields[i], 7, size);
    }
    assert FieldsOf(g, ss) == RereadAll(b, rs);
    ReusedSound(b, f, ss);
  }

  lemma ReusedSound(b: seq<Byte>, f: Incoming, ss: seq<Slot>)
    requires Format(f.mtype) == Some(ss) && |f.wname| == |f.wqid| == MAXWELEM
    requires forall i :: 0 <= i < |ss| ==>
      && (ss[i] == Wname ==> f.nwname <= MAXWELEM) && (ss[i] == Wqid ==> f.nwqid <= MAXWELEM)
      && (ss[i] == TheData ==> f.data + f.count <= |b|) && (ss[i] == Stat ==> f.stat + f.nstat <= |b|)
    ensures Sound(Reused(b, f)) && (f.mtype == 111 ==> f.nwqid <= MAXWELEM)
  {
    hide CString;
    if f.mtype == 110 { assert ss[2] == Wname; }
    if f.mtype == 111 { assert ss[0] == Wqid; }
    if f.mtype == 117 { assert ss[0] == TheData; }
    if f.mtype == 118 { assert ss[2] == TheData; }
    if f.mtype == 125 { assert ss[0] == Stat; }
    if f.mtype == 126 { assert ss[1] == Stat; }
  }

  /** After convM2S has parsed `text`, writing the message again from the structure it filled in gives the original bytes
      exactly when no string in the message has a NUL in it. */
  lemma ResendExact(text: seq<Byte>, b: seq<Byte>, f: Incoming, m: Message, size: nat, rs: seq<Ref>)
    requires Parse(text) == Some((m, size)) && Received(b, f, m, size, rs)
    ensures Sound(Reused(b, f)) && Format(f.mtype).Some? && size <= |text|
    ensures Encode(MessageOf(Reused(b, f))) == text[..size] <==> forall i :: 0 <= i < |m.fields| ==> NulFree(m.fields[i])
  {
    hide Parse;
    hide AllDenoted;
    hide NulFree;
    hide Sound;
    hide Reused;
    hide Shows;
    EncodeParse(text);
    ReusedFields(b, f, m, size, rs);
    RereadAllExact(b, Layout(m.mtype).value, rs, m.fields, 7, size);
    hide RereadAll;
    hide Encode;
    hide FieldsOk;
    hide SeenFields;
    hide Format;
    var g := MessageOf(Reused(b, f));
    if Encode(g) == text[..size] {
      ParseEncode(m, []);
      ParseEncode(g, []);
      assert g == m;
    }
  }

  /** Fields in range: integers that fit their width, strings and data that their counts can count. */
  predicate InRange(f: Outgoing)
    requires Format(f.mtype).Some?
  {
    f.tag < Pow256(2) && forall i :: 0 <= i < |Format(f.mtype).value| ==> FieldOk(SlotKind(Format(f.mtype).value[i]), FieldOf(f, Format(f.mtype).value[i]))
  }

  /** For every type, a structure with its fields in range arrives as the message it stands for, whatever follows it. */
  lemma Arrives(f: Outgoing, tail: seq<Byte>)
    requires Sound(f) && Format(f.mtype).Some? && InRange(f) && (f.mtype == 111 ==> f.nwqid <= MAXWELEM) && SizeS2M(f) < Pow256(4)
    ensures Parse(Encode(MessageOf(f)) + tail) == Some((Seen(MessageOf(f)), SizeS2M(f)))
  {
    hide Format;
    hide FieldOf;
    hide FieldOk;
    hide SlotKind;
    hide SizeS2M;
    hide Encode;
    hide Parse;
    hide Pow256;
    SizeS2MExact(f);
    ParseEncode(MessageOf(f), tail);
  }

  /** The error message with the three bytes a, NUL, b. */
  const CutMessage := Message(107, 1, [Str(Some([97, 0, 98]))])

  lemma CutOk()
    ensures MessageOk(CutMessage) && Seen(CutMessage) == CutMessage && |Encode(CutMessage)| == 12 && !NulFree(CutMessage.fields[0])
  {
    var fs := CutMessage.fields;
    assert fs[1..] == [] && PutFields(fs[1..]) == [];
    assert |PutField(fs[0])| == 5 && |PutFields(fs)| == 5;
    SeenAll(fs);
    assert fs[0].s.value[1] == 0;
    assert Pow256(1) == 256 && Pow256(2) == 65536 && Pow256(4) >= 65536;
  }

  /** Such a message of 12 bytes, parsed and written again, has 10. */
  method NulCutsShort(f0: Incoming) returns (first: nat, second: nat)
    requires |f0.wname| == |f0.wqid| == MAXWELEM
    ensures first == 12 && second == 10
  {
    hide Parse;
    hide Encode;
    hide MessageOk;
    hide Seen;
    CutOk();
    var text := Encode(CutMessage);
    ParseEncode(CutMessage, []);
    assert text + [] == text;
    var buf := new Byte[12](i requires 0 <= i < 12 => text[i]);
    assert buf[..12] == text;
    var f;
    ghost var m, rs;
    first, f, m, rs := ConvM2S(buf, 12, f0);
    assert Denotes(buf[..], RefOf(f, Ename), m.fields[0], 7, 12);
    ResendExact(text, buf[..], f, m, 12, rs);
    CutString(buf[..], f.ename, 7, 12);
    var g := Reused(buf[..], f);
    assert g.mtype == 107 && g.ename == Some([97]);
    second := SizeS2M(g);
  }

  lemma CutString(b: seq<Byte>, at: nat, lo: nat, hi: nat)
    requires Spells(b, at, Some([97, 0, 98]), lo, hi)
    ensures CString(b, at) == Some([97])
  {
    var s: seq<Byte> := [97, 0, 98];
    assert b[at..at + 3] == s;
    assert b[at] == b[at..at + 3][0] && b[at + 1] == b[at..at + 3][1];
    assert CString(b, at + 1) == Some([]) && [b[at]] + [] == [97];
  }
}
