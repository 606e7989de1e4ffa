/**
  What the passes of alt do to the queues (libinterp/alt.c): marks set and taken away again, options counted and chosen,
  faults, and what an alt as a whole comes to.
 */
module AltMarks {
  import opened Wrappers
  import opened Channels

  // ----- taking marks away

  lemma {:induction false} WithoutTwice(s: seq<Prog>, p: Prog)
    ensures Without(Without(s, p), p) == Without(s, p)
  {
    WithoutCount(s, p, p);
    assert p !in Without(s, p);
    WithoutAbsent(Without(s, p), p);
  }

  lemma UnmarkChanThen(ch: Chan, r: bool, s: bool, r': bool, s': bool, p: Prog)
    ensures UnmarkChan(UnmarkChan(ch, r, s, p), r', s', p) == UnmarkChan(ch, r || r', s || s', p)
  {
    WithoutTwice(ch.recv, p);
    WithoutTwice(ch.send, p);
  }

  lemma UnmarkedThen(m: Chans, rs: seq<ChanId>, ss: seq<ChanId>, rs': seq<ChanId>, ss': seq<ChanId>, p: Prog)
    ensures Unmarked(Unmarked(m, rs, ss, p), rs', ss', p) == Unmarked(m, rs + rs', ss + ss', p)
  {
    hide UnmarkChan;
    forall c | c in m ensures Unmarked(Unmarked(m, rs, ss, p), rs', ss', p)[c] == Unmarked(m, rs + rs', ss + ss', p)[c] {
      UnmarkChanThen(m[c], c in rs, c in ss, c in rs', c in ss', p);
    }
  }

  /** Taking `p` out of all those queues leaves each of them its node. */
  ghost predicate AllRemovable(m: Chans, rs: seq<ChanId>, ss: seq<ChanId>, p: Prog) {
    && (forall c :: c in rs && c in m ==> Removable(m[c].recv, p))
    && (forall c :: c in ss && c in m ==> Removable(m[c].send, p))
  }

  lemma WithoutRemovable(s: seq<Prog>, p: Prog)
    ensures Removable(Without(s, p), p)
  {
    WithoutCount(s, p, p);
    var w := Without(s, p);
    if |w| > 1 {
      assert w[0] in multiset(w);
      assert w[0] != p;
    }
  }

  lemma RemovableThen(m: Chans, rs: seq<ChanId>, ss: seq<ChanId>, rs': seq<ChanId>, ss': seq<ChanId>, p: Prog)
    requires AllRemovable(m, rs, ss, p)
    ensures AllRemovable(Unmarked(m, rs, ss, p), rs', ss', p) <==> AllRemovable(m, rs + rs', ss + ss', p)
  {
    hide Removable;
    var u := Unmarked(m, rs, ss, p);
    forall c | c in m ensures (c in rs ==> Removable(u[c].recv, p)) && (c in ss ==> Removable(u[c].send, p)) {
      WithoutRemovable(m[c].recv, p);
      WithoutRemovable(m[c].send, p);
    }
    hide Without;
    if AllRemovable(u, rs', ss', p) {
      forall c | c in rs + rs' && c in m ensures Removable(m[c].recv, p) {
        if c !in rs { assert u[c].recv == m[c].recv; }
      }
      forall c | c in ss + ss' && c in m ensures Removable(m[c].send, p) {
        if c !in ss { assert u[c].send == m[c].send; }
      }
    }
    if AllRemovable(m, rs + rs', ss + ss', p) {
      forall c | c in rs' && c in u ensures Removable(u[c].recv, p) {
        assert c in rs + rs';
      }
      forall c | c in ss' && c in u ensures Removable(u[c].send, p) {
        assert c in ss + ss';
      }
    }
  }

  /** If `r` is only in the queues listed, taking it out of those takes it out of all. */
  lemma UnmarkedFrees(m: Chans, rs: seq<ChanId>, ss: seq<ChanId>, r: Prog)
    requires forall c :: c in m ==> (r in m[c].recv ==> c in rs) && (r in m[c].send ==> c in ss)
    ensures Unmarked(m, rs, ss, r) == Freed(m, r)
  {
    hide Without;
    forall c | c in m ensures Unmarked(m, rs, ss, r)[c] == Freed(m, r)[c] {
      if c !in rs { WithoutAbsent(m[c].recv, r); }
      if c !in ss { WithoutAbsent(m[c].send, r); }
    }
  }

  lemma OnceRemovable(s: seq<Prog>, p: Prog)
    requires multiset(s)[p] <= 1
    ensures Removable(s, p)
  {
    if |s| >= 2 {
      assert s == [s[0], s[1]] + s[2..];
      assert s[0] != p || s[1] != p;
    }
  }

  /** After marking, the marks can be taken away safely exactly if no channel with an empty queue is listed twice. */
  lemma MarkedRemovable(s: seq<Prog>, p: Prog, k: nat)
    requires p !in s
    ensures Removable(s + Copies(p, k), p) <==> k <= 1 || s != []
  {
    CopiesCount(p, k, p);
    var t := s + Copies(p, k);
    if s != [] {
      assert t[0] == s[0] && s[0] in s;
    } else {
      assert forall i :: 0 <= i < |t| ==> t[i] == p;
    }
  }

  ghost predicate Safe(m: Chans, rs: seq<ChanId>, ss: seq<ChanId>) {
    && (forall c :: c in rs && c in m ==> multiset(rs)[c] <= 1 || m[c].recv != [])
    && (forall c :: c in ss && c in m ==> multiset(ss)[c] <= 1 || m[c].send != [])
  }

  lemma SafeIff(m: Chans, rs: seq<ChanId>, ss: seq<ChanId>, p: Prog)
    requires Absent(m, p)
    ensures AllRemovable(Marked(m, rs, ss, p), rs, ss, p) <==> Safe(m, rs, ss)
  {
    hide Removable;
    hide Copies;
    var mk := Marked(m, rs, ss, p);
    forall c | c in m
      ensures Removable(mk[c].recv, p) <==> multiset(rs)[c] <= 1 || m[c].recv != []
      ensures Removable(mk[c].send, p) <==> multiset(ss)[c] <= 1 || m[c].send != []
    {
      MarkedRemovable(m[c].recv, p, multiset(rs)[c]);
      MarkedRemovable(m[c].send, p, multiset(ss)[c]);
    }
  }

  // ----- options, one case at a time

  lemma ChansAppend(os: seq<Opt>, os': seq<Opt>)
    ensures ChansOf(os + os') == ChansOf(os) + ChansOf(os')
  {
  }

  lemma {:induction false} FirstAppend(os: seq<Opt>, os': seq<Opt>, c: ChanId)
    ensures First(os + os', c) == if First(os, c).Some? then First(os, c) else First(os', c)
  {
    if os == [] {
      assert os + os' == os';
    } else {
      FirstAppend(os[1..], os', c);
      assert (os + os')[1..] == os[1..] + os';
    }
  }

  lemma {:induction false} SendOptsPrefix(ss: seq<SendCase>, i: nat)
    requires i < |ss|
    ensures SendOpts(ss[..i + 1]) == SendOpts(ss[..i]) + if ss[i].c.None? then [] else [Opt(true, ss[i].c.value, ss[i].v, i, None)]
    ensures SendOpts(ss[..i + 1]) <= SendOpts(ss)
    decreases |ss|
  {
    assert ss[..i + 1][..i] == ss[..i];
    if i == |ss| - 1 {
      assert ss[..i + 1] == ss;
    } else {
      var t := ss[..|ss| - 1];
      SendOptsPrefix(t, i);
      assert t[..i + 1] == ss[..i + 1];
      assert SendOpts(t) <= SendOpts(ss);
    }
  }

  lemma {:induction false} ElemOptsPrefix(n: nat, cs: seq<Option<ChanId>>, j: nat)
    requires j < |cs|
    ensures ElemOpts(n, cs[..j + 1]) == ElemOpts(n, cs[..j]) + if cs[j].None? then [] else [Opt(false, cs[j].value, 0, n, Some(j))]
    ensures ElemOpts(n, cs[..j + 1]) <= ElemOpts(n, cs)
    decreases |cs|
  {
    assert cs[..j + 1][..j] == cs[..j];
    if j == |cs| - 1 {
      assert cs[..j + 1] == cs;
    } else {
      var t := cs[..|cs| - 1];
      ElemOptsPrefix(n, t, j);
      assert t[..j + 1] == cs[..j + 1];
      assert ElemOpts(n, t) <= ElemOpts(n, cs);
    }
  }

  lemma {:induction false} RecvOptsPrefix(base: nat, rs: seq<RecvCase>, i: nat)
    requires i < |rs|
    ensures RecvOpts(base, rs[..i + 1]) == RecvOpts(base, rs[..i]) + CaseOpts(base + i, rs[i])
    ensures RecvOpts(base, rs[..i + 1]) <= RecvOpts(base, rs)
    decreases |rs|
  {
    hide CaseOpts;
    assert rs[..i + 1][..i] == rs[..i];
    if i == |rs| - 1 {
      assert rs[..i + 1] == rs;
    } else {
      var t := rs[..|rs| - 1];
      RecvOptsPrefix(base, t, i);
      assert t[..i + 1] == rs[..i + 1];
      assert RecvOpts(base, t) <= RecvOpts(base, rs);
    }
  }

  lemma KnownPrefix(m: Chans, os: seq<Opt>, os': seq<Opt>)
    requires Known(m, os') && os <= os'
    ensures Known(m, os)
  {
    forall i | 0 <= i < |os| ensures os[i].c in m {
      assert os[i] == os'[i];
    }
  }

  ghost predicate AllReceive(os: seq<Opt>) {
    forall i :: 0 <= i < |os| ==> !os[i].sends
  }

  /** Marking more receive queues: the marks compose, and do not change what is ready to receive. */
  lemma MarkMore(m: Chans, os: seq<Opt>, os': seq<Opt>, p: Prog)
    requires Known(m, os) && Known(m, os') && AllReceive(os')
    ensures Marked(Marked(m, ChansOf(os), [], p), ChansOf(os'), [], p) == Marked(m, ChansOf(os + os'), [], p)
    ensures Known(m, os + os') && CountReady(m, os + os') == CountReady(m, os) + CountReady(m, os')
    ensures Known(Marked(m, ChansOf(os), [], p), os') && CountReady(Marked(m, ChansOf(os), [], p), os') == CountReady(m, os')
  {
    var mk := Marked(m, ChansOf(os), [], p);
    MarkedThen(m, ChansOf(os), [], ChansOf(os'), [], p);
    ChansAppend(os, os');
    var none: seq<ChanId> := [];
    assert none + none == none;
    CountAppend(m, os, os');
    hide Ready;
    assert Known(mk, os');
    forall i | 0 <= i < |os'| ensures Ready(mk, os'[i]) == Ready(m, os'[i]) {
      MarkedReady(m, ChansOf(os), [], p, os'[i]);
    }
    CountUp(m, mk, os');
  }

  lemma MarkedNone(m: Chans, p: Prog)
    ensures Marked(m, [], [], p) == m
  {
    assert Copies(p, 0) == [];
    forall c | c in m ensures Marked(m, [], [], p)[c] == m[c] {
      assert m[c].recv + [] == m[c].recv && m[c].send + [] == m[c].send;
    }
  }

  lemma UnmarkedNone(m: Chans, p: Prog)
    ensures Unmarked(m, [], [], p) == m
  {
  }

  // ----- what altrdy refuses

  datatype Exception = ExNilref | ExAlt

  function RecvFault(rs: seq<RecvCase>): Option<Exception> {
    if rs == [] then None
    else if rs[|rs| - 1] == One(None) then Some(ExNilref)
    else RecvFault(rs[..|rs| - 1])
  }

  /** The first receiver waiting on `c` is `p` itself. */
  predicate OwnReceive(m: Chans, c: ChanId, p: Prog)
    requires c in m
  {
    m[c].recv != [] && m[c].recv[0] == p
  }

  /** The last fault found stands. */
  function SendFault(m: Chans, ss: seq<SendCase>, p: Prog, e: Option<Exception>): Option<Exception>
    requires Known(m, SendOpts(ss))
  {
    if ss == [] then e
    else
      var n := |ss| - 1;
      assert Known(m, SendOpts(ss[..n])) by { KnownPrefix(m, SendOpts(ss[..n]), SendOpts(ss)); }
      if ss[n].c.None? then Some(ExNilref)
      else
        assert ss[n].c.value in m by {
          var os := SendOpts(ss);
          assert os[|os| - 1].c == ss[n].c.value;
        }
        if OwnReceive(m, ss[n].c.value, p) then Some(ExAlt) else SendFault(m, ss[..n], p, e)
  }

  /** The send queues that altrdy marks: not those of faulty cases. */
  function Added(m: Chans, ss: seq<SendCase>, p: Prog): seq<ChanId>
    requires Known(m, SendOpts(ss))
  {
    if ss == [] then []
    else
      var n := |ss| - 1;
      assert Known(m, SendOpts(ss[..n])) by { KnownPrefix(m, SendOpts(ss[..n]), SendOpts(ss)); }
      Added(m, ss[..n], p)
      + if ss[n].c.None? then []
        else
          assert ss[n].c.value in m by {
            var os := SendOpts(ss);
            assert os[|os| - 1].c == ss[n].c.value;
          }
          if OwnReceive(m, ss[n].c.value, p) then [] else [ss[n].c.value]
  }

  function Fault(m: Chans, a: Alt, p: Prog): Option<Exception>
    requires Known(m, SendOpts(a.sends))
  {
    SendFault(Marked(m, Rs(a), [], p), a.sends, p, RecvFault(a.recvs))
  }

  predicate HasNil(a: Alt) {
    (exists i :: 0 <= i < |a.sends| && a.sends[i].c.None?) || (exists i :: 0 <= i < |a.recvs| && a.recvs[i] == One(None))
  }

  lemma {:induction false} RecvFaultIff(rs: seq<RecvCase>)
    ensures RecvFault(rs).Some? <==> exists i :: 0 <= i < |rs| && rs[i] == One(None)
  {
    if rs != [] {
      var t := rs[..|rs| - 1];
      RecvFaultIff(t);
      if i :| 0 <= i < |t| && t[i] == One(None) {
        assert rs[i] == One(None);
      }
      if i :| 0 <= i < |rs| && rs[i] == One(None) {
        assert i < |t| ==> t[i] == One(None);
      }
    }
  }

  lemma {:induction false} SendFaultIff(m: Chans, ss: seq<SendCase>, p: Prog, e: Option<Exception>)
    requires Known(m, SendOpts(ss))
    ensures SendFault(m, ss, p, e).Some? <==>
      e.Some? || exists i :: 0 <= i < |ss| && (ss[i].c.None? || (ss[i].c.value in m && OwnReceive(m, ss[i].c.value, p)))
    decreases |ss|
  {
    if ss != [] {
      var n := |ss| - 1;
      var t := ss[..n];
      SendOptsPrefix(ss, n);
      assert ss[..n + 1] == ss;
      KnownPrefix(m, SendOpts(t), SendOpts(ss));
      SendFaultIff(m, t, p, e);
      if ss[n].c.Some? {
        assert SendOpts(ss)[|SendOpts(t)|].c == ss[n].c.value;
      }
      assert forall i :: 0 <= i < n ==> t[i] == ss[i];
    }
  }

  lemma {:induction false} SendsListed(ss: seq<SendCase>, i: nat)
    requires i < |ss| && ss[i].c.Some?
    ensures ss[i].c.value in ChansOf(SendOpts(ss))
  {
    SendOptsPrefix(ss, i);
    var k := |SendOpts(ss[..i])|;
    assert SendOpts(ss)[k].c == ss[i].c.value;
    assert ChansOf(SendOpts(ss))[k] == ss[i].c.value;
  }

  lemma {:induction false} ListedSends(ss: seq<SendCase>, c: ChanId) returns (i: nat)
    requires c in ChansOf(SendOpts(ss))
    ensures i < |ss| && ss[i].c == Some(c)
  {
    var n := |ss| - 1;
    if ss[n].c == Some(c) {
      return n;
    }
    var t := SendOpts(ss[..n]);
    var k :| 0 <= k < |SendOpts(ss)| && ChansOf(SendOpts(ss))[k] == c;
    assert k < |t| && ChansOf(t)[k] == c;
    i := ListedSends(ss[..n], c);
  }

  lemma OwnReceiveIff(m: Chans, rs: seq<ChanId>, c: ChanId, p: Prog)
    requires c in m && p !in m[c].recv
    ensures OwnReceive(Marked(m, rs, [], p), c, p) <==> c in rs && m[c].recv == []
  {
    CopiesCount(p, multiset(rs)[c], p);
    hide Copies;
  }

  /** altrdy raises an exception exactly if a channel is nil, or the alt would send to itself: it both sends and
      receives on a channel nobody else is waiting to receive on. */
  lemma FaultIff(m: Chans, a: Alt, p: Prog)
    requires Known(m, SendOpts(a.sends)) && Absent(m, p)
    ensures Fault(m, a, p).Some? <==> HasNil(a) || exists c :: c in Ss(a) && c in Rs(a) && m[c].recv == []
  {
    var mr, ss := Marked(m, Rs(a), [], p), a.sends;
    RecvFaultIff(a.recvs);
    SendFaultIff(mr, ss, p, RecvFault(a.recvs));
    hide SendFault;
    hide RecvFault;
    hide Marked;
    forall c | c in m ensures OwnReceive(mr, c, p) <==> c in Rs(a) && m[c].recv == [] {
      OwnReceiveIff(m, Rs(a), c, p);
    }
    if i :| 0 <= i < |ss| && ss[i].c.Some? && ss[i].c.value in mr && OwnReceive(mr, ss[i].c.value, p) {
      SendsListed(ss, i);
    }
    if c :| c in Ss(a) && c in Rs(a) && m[c].recv == [] {
      var i := ListedSends(ss, c);
      assert ss[i].c.value in mr && OwnReceive(mr, ss[i].c.value, p);
    }
  }

  /** The option altdone notes: the first one on the selected channel, among the sends if `sr` is 0, or the receives if 1. */
  function Selected(a: Alt, sel: Option<ChanId>, sr: int): Option<Opt> {
    if sel.None? then None
    else if sr == 0 then First(SendOpts(a.sends), sel.value)
    else if sr == 1 then First(Receives(a), sel.value)
    else None
  }

  /** The options noted so far, in a loop over `os`. */
  function Noted(os: seq<Opt>, sel: Option<ChanId>, on: bool): Option<Opt> {
    if sel.Some? && on then First(os, sel.value) else None
  }

  /** altdone's variable `sel` after the options `os`: nil once it has been found. */
  function Left(os: seq<Opt>, sel: Option<ChanId>, on: bool): Option<ChanId> {
    if Noted(os, sel, on).Some? then None else sel
  }

  lemma NotedOne(o: Opt, sel: Option<ChanId>, on: bool)
    ensures Noted([o], sel, on) == if on && sel == Some(o.c) then Some(o) else None
  {
    if sel.Some? && on {
      assert [o][1..] == [] && First([], sel.value) == None;
    }
  }

  /** Going on to the options `os'`. */
  lemma NoteMore(regs: map<Prog, Reg>, q: Prog, os: seq<Opt>, os': seq<Opt>, sel: Option<ChanId>, on: bool)
    ensures Left(os', Left(os, sel, on), on) == Left(os + os', sel, on)
    ensures Note(Note(regs, q, Noted(os, sel, on)), q, Noted(os', Left(os, sel, on), on)) == Note(regs, q, Noted(os + os', sel, on))
    ensures Noted(os + os', sel, on) == if Noted(os, sel, on).Some? then Noted(os, sel, on) else Noted(os', Left(os, sel, on), on)
  {
    if sel.Some? {
      FirstAppend(os, os', sel.value);
    }
  }

  /** What an alt comes to: an exception, waiting, nothing to do, a communication, or taking its own mark for a sender. */
  datatype Outcome = Raised(e: Exception) | Blocked | Defaulted | Took | Astray

  /** A receive on a channel that the alt also sends on. */
  predicate Own(a: Alt, o: Opt) {
    !o.sends && o.c in Ss(a)
  }

  /** How an alt by prog `p` decides.  If it takes an option, that is the one with number `rnd` modulo the count of
      altrdy, among those that are ready when everything is marked. */
  ghost predicate AltChoice(vm: Vm, p: Prog, a: Alt, block: bool, rnd: nat, out: Outcome, k: nat) {
    && Known(vm.chans, Options(a)) && Known(vm.chans, SendOpts(a.sends)) && Known(vm.chans, Receives(a))
    && (out.Raised? <==> Fault(vm.chans, a, p).Some?)
    && var n := Counted(vm.chans, a, p);
       match out
       case Raised(e) => Fault(vm.chans, a, p) == Some(e)
       case Blocked => block && n == 0
       case Defaulted => !block && n == 0
       case Took => n > 0 && Chose(Marked(vm.chans, Rs(a), Ss(a), p), Options(a), k, rnd % n) && !Own(a, Options(a)[k]) && Ready(vm.chans, Options(a)[k])
       case Astray => n > 0 && Chose(Marked(vm.chans, Rs(a), Ss(a), p), Options(a), k, rnd % n) && Own(a, Options(a)[k])
  }

  /** What comes of it.  An option is taken as if by a plain send or receive. */
  ghost function AltResult(vm: Vm, p: Prog, a: Alt, out: Outcome, k: nat): Vm {
    match out
    case Blocked => vm.(chans := Marked(vm.chans, Rs(a), Ss(a), p), st := vm.st[p := Alting(a)])
    case Defaulted => vm.(regs := vm.regs[p := Reg(|a.sends| + |a.recvs|, None)])
    case Took => if k < |Options(a)| && Options(a)[k].c in vm.chans then Take(vm, p, Options(a)[k]) else vm
    case _ => vm
  }

  /** The prog that communication on option `k` wakes can be woken; there are marks then. */
  ghost predicate PartnerLeft(vm: Vm, p: Prog, a: Alt, k: nat) {
    k < |Options(a)|
    && var o, mk := Options(a)[k], Marked(vm.chans, Rs(a), Ss(a), p); o.c in mk && PartnerWakes(vm.(chans := mk), o.c, o.sends)
  }

  /** No queue is destroyed: not when a partner is woken, nor when the marks are taken away.  For the latter, every queue
      that has the prog twice must have somebody else, after the communication if there was one. */
  ghost predicate Intact(vm: Vm, p: Prog, a: Alt, out: Outcome, k: nat)
    requires Known(vm.chans, SendOpts(a.sends))
  {
    match out
    case Raised(_) => Safe(vm.chans, Rs(a), Added(Marked(vm.chans, Rs(a), [], p), a.sends, p))
    case Blocked => true
    case Defaulted => Safe(vm.chans, Rs(a), Ss(a))
    case Took => PartnerLeft(vm, p, a, k) && Safe(AltResult(vm, p, a, out, k).chans, Rs(a), Ss(a))
    case Astray => false
  }

  lemma AltBegins(vm: Vm, p: Prog, a: Alt)
    requires Inv(vm) && StateOf(vm, p).Running? && Known(vm.chans, Options(a))
    ensures Known(vm.chans, SendOpts(a.sends)) && Known(vm.chans, Receives(a)) && Absent(vm.chans, p)
  {
    KnownParts(vm.chans, vm.chans, a);
    assert InPlace(vm.chans, p, StateOf(vm, p));
    RunningAbsent(vm.chans, p);
  }

  lemma Raises(vm: Vm, p: Prog, a: Alt, block: bool, rnd: nat, k: nat, e: Exception)
    requires Known(vm.chans, Options(a)) && Known(vm.chans, SendOpts(a.sends)) && Known(vm.chans, Receives(a)) && Fault(vm.chans, a, p) == Some(e)
    ensures AltChoice(vm, p, a, block, rnd, Raised(e), k)
  {
    hide Fault;
    hide Counted;
    hide Known;
  }

  /** With no fault, somebody waits to receive on every channel the alt both sends and receives on. */
  ghost predicate SharedWaits(m: Chans, a: Alt) {
    forall c :: c in Rs(a) && c in Ss(a) ==> c in m && m[c].recv != []
  }

  lemma NoFault(m: Chans, p: Prog, a: Alt)
    requires Known(m, SendOpts(a.sends)) && Known(m, Receives(a)) && Absent(m, p) && Fault(m, a, p).None?
    ensures !HasNil(a) && SharedWaits(m, a)
  {
    hide Fault;
    FaultIff(m, a, p);
    forall c | c in Rs(a) && c in Ss(a) ensures c in m && m[c].recv != [] {
      var i :| 0 <= i < |Ss(a)| && Ss(a)[i] == c;
      assert SendOpts(a.sends)[i].c in m;
    }
  }

  /** If nothing was counted, the two sides of the alt are disjoint and nothing is ready. */
  lemma NothingCounted(m: Chans, p: Prog, a: Alt)
    requires Known(m, SendOpts(a.sends)) && Known(m, Receives(a)) && Counted(m, a, p) == 0
    ensures Stuck(m, Rs(a), Ss(a))
  {
    var mr, ss, rs := Marked(m, Rs(a), [], p), SendOpts(a.sends), Receives(a);
    KnownMarked(m, a, p);
    CountZero(m, rs);
    CountZero(mr, ss);
    SendOptsAre(a.sends);
    RecvOptsAre(|a.sends|, a.recvs);
    forall c | c in Ss(a) && c in m ensures c !in Rs(a) && m[c].recv == [] && !CanPut(m[c]) {
      var i :| 0 <= i < |Ss(a)| && Ss(a)[i] == c;
      assert ss[i].c == c && ss[i].sends && !Ready(mr, ss[i]);
      MarkedReady(m, Rs(a), [], p, ss[i]);
    }
    forall c | c in Rs(a) && c in m ensures m[c].send == [] && !CanGet(m[c]) {
      var i :| 0 <= i < |Rs(a)| && Rs(a)[i] == c;
      assert rs[i].c == c && !rs[i].sends && !Ready(m, rs[i]);
    }
  }

  lemma AltMarked(vm: Vm, p: Prog, a: Alt)
    requires Inv(vm) && StateOf(vm, p).Running? && Known(vm.chans, Options(a))
    requires Known(vm.chans, SendOpts(a.sends)) && Known(vm.chans, Receives(a)) && Fault(vm.chans, a, p).None?
    ensures !HasNil(a) && Known(Marked(vm.chans, Rs(a), Ss(a), p), Options(a))
    ensures Counted(vm.chans, a, p) <= CountReady(Marked(vm.chans, Rs(a), Ss(a), p), Options(a))
    ensures forall w :: Trying(vm.(chans := Marked(vm.chans, Rs(a), Ss(a), p)), p, [], Options(a), w, w)
  {
    AltBegins(vm, p, a);
    NoFault(vm.chans, p, a);
    ReadyExact(vm.chans, a, p);
    var mk, os := vm.(chans := Marked(vm.chans, Rs(a), Ss(a), p)), Options(a);
    hide Marked;
    hide Options;
    hide Inv;
    hide Fault;
    hide Absent;
    hide Counted;
    hide SharedWaits;
    forall i | 0 <= i < |os| ensures Mine(mk.chans, os[i], p) || PartnerOk(mk, p, os[i]) {
      Partner(vm, p, a, i);
    }
    hide PartnerOk;
    hide Mine;
    hide Known;
    forall w ensures Trying(mk, p, [], os, w, w) {
      assert [] <= os && Known(mk.chans, []) && CountReady(mk.chans, []) == 0 by { NoneKnown(mk.chans); }
    }
  }

  lemma NoneKnown(m: Chans)
    ensures Known(m, []) && CountReady(m, []) == 0
  {
  }

  lemma OptionListed(a: Alt, i: nat)
    requires i < |Options(a)|
    ensures var o := Options(a)[i]; if o.sends then o.c in Ss(a) else o.c in Rs(a)
  {
    SendOptsAre(a.sends);
    RecvOptsAre(|a.sends|, a.recvs);
    var k, o := |SendOpts(a.sends)|, Options(a)[i];
    if i < k {
      assert o == SendOpts(a.sends)[i] && Ss(a)[i] == o.c;
    } else {
      assert o == Receives(a)[i - k] && Rs(a)[i - k] == o.c;
    }
  }

  /** Once all is marked, the first sender on a channel is the prog itself exactly for a receive on a channel the alt
      also sends on; whoever else waits on a channel of the alt is properly queued. */
  lemma Partner(vm: Vm, p: Prog, a: Alt, i: nat)
    requires Inv(vm) && Absent(vm.chans, p) && SharedWaits(vm.chans, a) && Known(vm.chans, Options(a)) && i < |Options(a)|
    ensures var mk, o := Marked(vm.chans, Rs(a), Ss(a), p), Options(a)[i];
      && o.c in mk && (Mine(mk, o, p) <==> Own(a, o))
      && (!Own(a, o) ==> PartnerOk(vm.(chans := mk), p, o))
      && (!Own(a, o) && Ready(mk, o) ==> Ready(vm.chans, o))
  {
    var m, mk, o := vm.chans, Marked(vm.chans, Rs(a), Ss(a), p), Options(a)[i];
    OptionListed(a, i);
    MarkedAt(m, o.c, Rs(a), Ss(a), p);
    MarkedReady(m, Rs(a), Ss(a), p, o);
    InvAt(vm, o.c);
    MarkedKeys(m, Rs(a), Ss(a), p);
    hide Marked;
    hide Options;
    hide Inv;
    var ch := m[o.c];
    if o.sends && ch.recv != [] {
      PartnerWaits(vm, p, Rs(a), Ss(a), o.c, ch.recv[0]);
    }
    if !o.sends && ch.send != [] && o.c !in Ss(a) {
      PartnerWaits(vm, p, Rs(a), Ss(a), o.c, ch.send[0]);
    }
  }

  lemma PartnerWaits(vm: Vm, p: Prog, rs: seq<ChanId>, ss: seq<ChanId>, c: ChanId, r: Prog)
    requires Inv(vm) && Absent(vm.chans, p) && c in vm.chans && (r in vm.chans[c].recv || r in vm.chans[c].send)
    ensures Waits(vm.(chans := Marked(vm.chans, rs, ss, p)), p, r)
  {
    InSeq(vm.chans[c].recv, r);
    InSeq(vm.chans[c].send, r);
    assert InPlace(vm.chans, r, StateOf(vm, r));
    assert WantsRecv(StateOf(vm, r), c) + WantsSend(StateOf(vm, r), c) > 0;
    MarkedInPlace(vm.chans, rs, ss, p, r, StateOf(vm, r));
    MarkedKeys(vm.chans, rs, ss, p);
    hide InPlace;
    hide Marked;
  }

  /** Waiting keeps the invariant. */
  lemma Blocks(vm: Vm, p: Prog, a: Alt, rnd: nat, k: nat)
    requires Inv(vm) && StateOf(vm, p).Running? && Known(vm.chans, Options(a))
    requires Known(vm.chans, SendOpts(a.sends)) && Known(vm.chans, Receives(a)) && Fault(vm.chans, a, p).None? && Counted(vm.chans, a, p) == 0
    ensures AltChoice(vm, p, a, true, rnd, Blocked, k)
    ensures Inv(AltResult(vm, p, a, Blocked, k))
  {
    hide Inv;
    hide Known;
    hide Fault;
    hide Counted;
    hide Marked;
    hide Options;
    hide SendOpts;
    hide StateOf;
    NothingCounted(vm.chans, p, a);
    hide Stuck;
    WantsAll(a);
    hide Wants;
    hide Rs;
    hide Ss;
    WaitInv(vm, p, Rs(a), Ss(a), Alting(a));
  }

  lemma WantsAll(a: Alt)
    ensures Wants(Alting(a), Rs(a), Ss(a))
  {
  }

  lemma Defaults(vm: Vm, p: Prog, a: Alt, rnd: nat, k: nat)
    requires Inv(vm) && Known(vm.chans, Options(a)) && Known(vm.chans, SendOpts(a.sends)) && Known(vm.chans, Receives(a))
    requires Fault(vm.chans, a, p).None? && Counted(vm.chans, a, p) == 0
    ensures AltChoice(vm, p, a, false, rnd, Defaulted, k) && Inv(AltResult(vm, p, a, Defaulted, k))
  {
    hide Inv;
    hide Known;
    hide Fault;
    hide Counted;
    hide Options;
    hide SendOpts;
    NoteKeepsInv(vm, p, Some(Opt(false, 0, 0, |a.sends| + |a.recvs|, None)));
  }

  /** Altcomm's choice, as seen from before the marks; and what altdone does after it. */
  lemma Takes(vm: Vm, p: Prog, a: Alt, block: bool, rnd: nat, k: nat)
    requires Inv(vm) && StateOf(vm, p).Running? && Known(vm.chans, Options(a))
    requires Known(vm.chans, SendOpts(a.sends)) && Known(vm.chans, Receives(a)) && Fault(vm.chans, a, p).None? && Counted(vm.chans, a, p) > 0
    requires Chose(Marked(vm.chans, Rs(a), Ss(a), p), Options(a), k, rnd % Counted(vm.chans, a, p))
    ensures var o, mk := Options(a)[k], Marked(vm.chans, Rs(a), Ss(a), p);
      && o.c in vm.chans && o.c in mk && (Mine(mk, o, p) <==> Own(a, o))
      && (Own(a, o) ==> AltChoice(vm, p, a, block, rnd, Astray, k))
      && (!Own(a, o) ==>
            && AltChoice(vm, p, a, block, rnd, Took, k) && AltResult(vm, p, a, Took, k) == Take(vm, p, o) && Inv(Take(vm, p, o))
            && var t := Take(vm.(chans := mk), p, o);
               && Known(t.chans, SendOpts(a.sends)) && Known(t.chans, Receives(a))
               && (PartnerWakes(vm.(chans := mk), o.c, o.sends) && AllRemovable(t.chans, Rs(a), Ss(a), p) <==> Intact(vm, p, a, Took, k))
               && t.(chans := Unmarked(t.chans, Rs(a), Ss(a), p)) == Take(vm, p, o))
  {
    hide Inv;
    hide Fault;
    hide Counted;
    hide Marked;
    hide Unmarked;
    hide Options;
    hide SendOpts;
    hide Receives;
    hide Ready;
    hide Take;
    hide AllRemovable;
    hide Mine;
    hide PartnerOk;
    hide PartnerWakes;
    hide StateOf;
    hide Safe;
    hide Rs;
    hide Ss;
    hide Own;
    var m, o := vm.chans, Options(a)[k];
    AltBegins(vm, p, a);
    NoFault(m, p, a);
    Partner(vm, p, a, k);
    if !Own(a, o) {
      TakenClean(vm, p, a, k);
      hide SharedWaits;
      TakeKeepsInv(vm, p, o);
    }
  }

  lemma TakenClean(vm: Vm, p: Prog, a: Alt, k: nat)
    requires Absent(vm.chans, p) && SharedWaits(vm.chans, a) && Known(vm.chans, Options(a)) && k < |Options(a)|
    requires Ready(vm.chans, Options(a)[k]) && !Own(a, Options(a)[k])
    ensures var o, m' := Options(a)[k], Take(vm, p, Options(a)[k]).chans;
      && o.c in Marked(vm.chans, Rs(a), Ss(a), p)
      && var t := Take(vm.(chans := Marked(vm.chans, Rs(a), Ss(a), p)), p, o);
         && Known(t.chans, SendOpts(a.sends)) && Known(t.chans, Receives(a))
         && (AllRemovable(t.chans, Rs(a), Ss(a), p) <==> Safe(m', Rs(a), Ss(a)))
         && t.(chans := Unmarked(t.chans, Rs(a), Ss(a), p)) == Take(vm, p, o)
  {
    var o := Options(a)[k];
    OptionListed(a, k);
    TakeMarked(vm, p, Rs(a), Ss(a), o);
    TakeAbsent(vm, p, o);
    hide Take;
    hide Marked;
    hide Unmarked;
    hide AllRemovable;
    hide Safe;
    hide Ready;
    hide Absent;
    hide SharedWaits;
    var m' := Take(vm, p, o).chans;
    KnownParts(vm.chans, m', a);
    RetractExact(m', Marked(m', Rs(a), Ss(a), p), a, Ss(a), p);
    SafeIff(m', Rs(a), Ss(a), p);
  }

  lemma RunningInPlace(vm: Vm, p: Prog)
    requires Inv(vm) && StateOf(vm, p).Running?
    ensures InPlace(vm.chans, p, Running)
  {
    assert InPlace(vm.chans, p, StateOf(vm, p));
  }

  /** If the two sides of an alt are disjoint, the option taken is the one with number `rnd` modulo the number of options
      that are ready, counting only those: exactly one of them, and every one of them for some `rnd`. */
  lemma DisjointChoice(vm: Vm, p: Prog, a: Alt, block: bool, rnd: nat, out: Outcome, k: nat)
    requires AltChoice(vm, p, a, block, rnd, out, k) && Disjoint(Rs(a), Ss(a))
    ensures Counted(vm.chans, a, p) == CountReady(vm.chans, Options(a))
    ensures out != Astray
    ensures out == Took ==> Chose(vm.chans, Options(a), k, rnd % CountReady(vm.chans, Options(a)))
  {
    hide Fault;
    hide Ready;
    hide Marked;
    hide Counted;
    hide CountReady;
    hide Chose;
    DisjointCount(vm.chans, a, p);
    if out == Took || out == Astray {
      DisjointPick(vm.chans, a, p, k, rnd % Counted(vm.chans, a, p));
    }
  }

  lemma DisjointCount(m: Chans, a: Alt, p: Prog)
    requires Known(m, Options(a)) && Known(m, SendOpts(a.sends)) && Known(m, Receives(a)) && Disjoint(Rs(a), Ss(a))
    ensures Counted(m, a, p) == CountReady(m, Options(a))
  {
    var mk, os := Marked(m, Rs(a), Ss(a), p), Options(a);
    hide Ready;
    hide Marked;
    hide Counted;
    hide CountReady;
    hide Options;
    ReadyExact(m, a, p);
    forall i | 0 <= i < |os| ensures Ready(mk, os[i]) == Ready(m, os[i]) {
      DisjointReady(m, a, p, i);
    }
    ReceivesReady(m, a);
    CountUp(m, mk, os);
  }

  lemma DisjointPick(m: Chans, a: Alt, p: Prog, k: nat, j: nat)
    requires Known(m, Options(a)) && Known(m, SendOpts(a.sends)) && Known(m, Receives(a)) && Disjoint(Rs(a), Ss(a))
    requires Chose(Marked(m, Rs(a), Ss(a), p), Options(a), k, j)
    ensures Chose(m, Options(a), k, j) && !Own(a, Options(a)[k])
  {
    var mk, os := Marked(m, Rs(a), Ss(a), p), Options(a);
    hide Ready;
    hide Marked;
    hide CountReady;
    hide Options;
    DisjointReady(m, a, p, k);
    KnownPrefix(m, os[..k], os);
    forall i | 0 <= i < k ensures Ready(mk, os[..k][i]) == Ready(m, os[..k][i]) {
      DisjointReady(m, a, p, i);
    }
    CountUp(m, mk, os[..k]);
  }

  lemma ReceivesReady(m: Chans, a: Alt)
    requires Known(m, Receives(a)) && Disjoint(Rs(a), Ss(a))
    ensures forall i :: 0 <= i < |Receives(a)| ==> Receives(a)[i].c !in Ss(a)
  {
    forall i | 0 <= i < |Receives(a)| ensures Receives(a)[i].c !in Ss(a) {
      assert Rs(a)[i] == Receives(a)[i].c;
    }
  }

  /** The other party to taking `o`, if there is one, waits properly. */
  ghost predicate PartnerOk(vm: Vm, p: Prog, o: Opt) {
    && o.c in vm.chans
    && var ch := vm.chans[o.c];
       if o.sends then ch.recv != [] ==> Waits(vm, p, ch.recv[0])
       else ch.send != [] ==> Waits(vm, p, ch.send[0]) && |ch.buf| == ch.cap
  }

  lemma WaitsNoted(vm: Vm, p: Prog, o: Opt)
    requires PartnerOk(vm, p, o)
    ensures PartnerOk(vm.(regs := vm.regs[p := Reg(o.n, o.an)]), p, o)
  {
  }

  /** A receive whose first sender is the prog itself. */
  predicate Mine(m: Chans, o: Opt, p: Prog)
    requires o.c in m
  {
    !o.sends && m[o.c].send != [] && m[o.c].send[0] == p
  }

  /** Taking option `o`, unless (`!ok`) its first sender is the prog itself or waking its partner destroys a queue: the
      model stops there. */
  ghost predicate Acts(vm: Vm, p: Prog, o: Opt, vm': Vm, mine: bool, ok: bool)
    requires o.c in vm.chans
  {
    && (mine <==> Mine(vm.chans, o, p)) && (ok <==> !mine && PartnerWakes(vm, o.c, o.sends))
    && (ok ==> vm' == Take(vm, p, o))
  }

  /** altcomm has passed over the options `pre` of `all`, and `w` is what is left of `which`. */
  ghost predicate Trying(vm: Vm, p: Prog, pre: seq<Opt>, all: seq<Opt>, w: nat, which: nat) {
    && Known(vm.chans, all) && pre <= all && Known(vm.chans, pre) && w + CountReady(vm.chans, pre) == which
    && forall i :: 0 <= i < |all| ==> Mine(vm.chans, all[i], p) || PartnerOk(vm, p, all[i])
  }

  /** Option `k` is ready, and `which` options before it are. */
  ghost predicate Chose(m: Chans, all: seq<Opt>, k: nat, which: nat) {
    Known(m, all) && k < |all| && Ready(m, all[k]) && Known(m, all[..k]) && CountReady(m, all[..k]) == which
  }

  lemma TryingKnown(vm: Vm, p: Prog, pre: seq<Opt>, all: seq<Opt>, w: nat, which: nat)
    requires Trying(vm, p, pre, all, w, which)
    ensures Known(vm.chans, all)
  {
  }

  lemma TryingAll(vm: Vm, p: Prog, all: seq<Opt>, w: nat, which: nat)
    requires Trying(vm, p, all, all, w, which)
    ensures which >= CountReady(vm.chans, all)
  {
  }

  lemma ChooseStep(vm: Vm, p: Prog, pre: seq<Opt>, o: Opt, all: seq<Opt>, w: nat, which: nat)
    requires Trying(vm, p, pre, all, w, which) && pre + [o] <= all
    ensures o.c in vm.chans && (Mine(vm.chans, o, p) || PartnerOk(vm, p, o))
    ensures all[|pre|] == o
    ensures Ready(vm.chans, o) && w == 0 ==> Chose(vm.chans, all, |pre|, which)
    ensures !(Ready(vm.chans, o) && w == 0) ==> Trying(vm, p, pre + [o], all, w - (if Ready(vm.chans, o) then 1 else 0), which)
  {
    hide Ready;
    hide PartnerOk;
    hide Mine;
    assert (pre + [o])[|pre|] == o == all[|pre|];
    assert all[..|pre|] == pre;
    KnownPrefix(vm.chans, pre + [o], all);
    CountOne(vm.chans, o);
    CountAppend(vm.chans, pre, [o]);
  }

  lemma ChoseCounted(m: Chans, all: seq<Opt>, k: nat, which: nat)
    requires Chose(m, all, k, which)
    ensures Known(m, all) && which < CountReady(m, all)
  {
    hide Ready;
    assert all == all[..k] + [all[k]] + all[k + 1..];
    KnownSuffix(m, all[..k] + [all[k]], all[k + 1..]);
    CountOne(m, all[k]);
    CountAppend(m, all[..k], [all[k]]);
    CountAppend(m, all[..k] + [all[k]], all[k + 1..]);
  }

  /** Prog `r` waits, properly queued, while `p` is running. */
  ghost predicate Waits(vm: Vm, p: Prog, r: Prog) {
    r != p && r in vm.st && InPlace(vm.chans, r, vm.st[r]) && (vm.st[r].Alting? ==> AltOk(vm.chans, vm.st[r].a))
  }

  /** Somebody else waits in the queue. */
  predicate Others(q: seq<Prog>, r: Prog) {
    exists i :: 0 <= i < |q| && q[i] != r
  }

  lemma RemovableIff(q: seq<Prog>, r: Prog)
    ensures Removable(q, r) <==> multiset(q)[r] <= 1 || Others(q, r)
  {
    if |q| == 1 { assert q == [q[0]]; }
    if multiset(q)[r] <= 1 {
      OnceRemovable(q, r);
    }
  }

  /** Prog `r` can be woken through channel `c`, where it is the first sender (if `sends`) or the first receiver, without
      destroying a queue: its node there is gone, and besides that no queue holds it twice and nobody else. */
  ghost predicate Wakes(m: Chans, c: ChanId, sends: bool, r: Prog, s: State) {
    s.Alting? ==>
      && (forall d :: d in m && d in Rs(s.a) ==> multiset(Rs(s.a))[d] <= (if d == c && !sends then 2 else 1) || Others(m[d].recv, r))
      && (forall d :: d in m && d in Ss(s.a) ==> multiset(Ss(s.a))[d] <= (if d == c && sends then 2 else 1) || Others(m[d].send, r))
  }

  lemma Wakeable(m: Chans, c: ChanId, sends: bool, r: Prog, s: State)
    ensures !s.Alting? ==> Wakes(m, c, sends, r, s)
  {
  }

  /** A send or a receive on `c` destroys no queue: the prog it wakes, if it wakes one, can be woken. */
  ghost predicate PartnerWakes(vm: Vm, c: ChanId, sends: bool)
    requires c in vm.chans
  {
    var q := if sends then vm.chans[c].recv else vm.chans[c].send;
    q != [] ==> Wakes(vm.chans, c, !sends, q[0], StateOf(vm, q[0]))
  }

  lemma FreedAt(m: Chans, c: ChanId, r: Prog)
    requires c in m
    ensures c in Freed(m, r) && Freed(m, r)[c].buf == m[c].buf
  {
  }

  /** Popping the first prog off a queue and taking it out of the rest is taking it out of all. */
  lemma FreedPopped(m: Chans, c: ChanId, ch: Chan, r: Prog)
    requires c in m
    requires || (m[c].recv != [] && m[c].recv[0] == r && ch == m[c].(recv := m[c].recv[1..]))
             || (m[c].send != [] && m[c].send[0] == r && ch == m[c].(send := m[c].send[1..]))
    ensures Freed(m[c := ch], r) == Freed(m, r)
  {
    assert FreeChan(ch, r) == FreeChan(m[c], r);
    hide FreeChan;
  }

  /** Channel `c` without its first sender or receiver. */
  function PopChan(ch: Chan, sends: bool): Chan
    requires (if sends then ch.send else ch.recv) != []
  {
    if sends then ch.(send := ch.send[1..]) else ch.(recv := ch.recv[1..])
  }

  lemma Popped(m: Chans, c: ChanId, sends: bool, s: State)
    requires c in m && (if sends then m[c].send else m[c].recv) != []
    requires InPlace(m, (if sends then m[c].send else m[c].recv)[0], s) && (s.Alting? ==> AltOk(m, s.a))
    ensures var r, m' := (if sends then m[c].send else m[c].recv)[0], m[c := PopChan(m[c], sends)];
      && (s.Alting? ==>
            && Known(m', SendOpts(s.a.sends)) && Known(m', Receives(s.a))
            && (AllRemovable(m', Rs(s.a), Ss(s.a), r) <==> Wakes(m, c, sends, r, s))
            && Unmarked(m', Rs(s.a), Ss(s.a), r) == Freed(m, r))
      && (!s.Alting? ==> m' == Freed(m, r))
  {
    var r, m' := (if sends then m[c].send else m[c].recv)[0], m[c := PopChan(m[c], sends)];
    FreedPopped(m, c, PopChan(m[c], sends), r);
    PoppedCounts(m, c, sends, r, s);
    if s.Alting? {
      KnownParts(m, m', s.a);
      PoppedAlt(m, m', c, sends, r, s);
    } else {
      PoppedAbsent(m', c, r, s);
      FreedAbsent(m', r);
    }
  }

  lemma KnownParts(m: Chans, m': Chans, a: Alt)
    requires Known(m, Options(a)) && m.Keys == m'.Keys
    ensures Known(m', SendOpts(a.sends)) && Known(m', Receives(a))
  {
    KnownPrefix(m, SendOpts(a.sends), Options(a));
    KnownSuffix(m, SendOpts(a.sends), Receives(a));
  }

  lemma TailCount(q: seq<Prog>)
    requires q != []
    ensures multiset(q)[q[0]] == 1 + multiset(q[1..])[q[0]]
  {
    assert q == [q[0]] + q[1..];
  }

  /** How often `r` is left in the queues. */
  lemma PoppedCounts(m: Chans, c: ChanId, sends: bool, r: Prog, s: State)
    requires c in m && InPlace(m, r, s) && (if sends then m[c].send else m[c].recv) != [] && r == (if sends then m[c].send else m[c].recv)[0]
    ensures var m' := m[c := PopChan(m[c], sends)];
      forall d :: d in m ==>
        && multiset(m'[d].recv)[r] == WantsRecv(s, d) - (if d == c && !sends then 1 else 0)
        && multiset(m'[d].send)[r] == WantsSend(s, d) - (if d == c && sends then 1 else 0)
  {
    hide WantsRecv;
    hide WantsSend;
    var m' := m[c := PopChan(m[c], sends)];
    TailCount(if sends then m[c].send else m[c].recv);
    forall d | d in m
      ensures multiset(m'[d].recv)[r] == WantsRecv(s, d) - (if d == c && !sends then 1 else 0)
      ensures multiset(m'[d].send)[r] == WantsSend(s, d) - (if d == c && sends then 1 else 0)
    {
      assert multiset(m[d].recv)[r] == WantsRecv(s, d) && multiset(m[d].send)[r] == WantsSend(s, d);
    }
  }

  lemma TailOthers(q: seq<Prog>, r: Prog)
    requires q != [] && q[0] == r
    ensures Others(q[1..], r) <==> Others(q, r)
  {
    if Others(q, r) {
      var i :| 0 <= i < |q| && q[i] != r;
      assert q[1..][i - 1] != r;
    }
  }

  /** A prog that waited on one channel is gone. */
  lemma PoppedAbsent(m: Chans, c: ChanId, r: Prog, s: State)
    requires c in m && !s.Alting? && multiset(m[c].recv)[r] + multiset(m[c].send)[r] == WantsRecv(s, c) + WantsSend(s, c) - 1
    requires forall d :: d in m ==> multiset(m[d].recv)[r] <= WantsRecv(s, d) && multiset(m[d].send)[r] <= WantsSend(s, d)
    ensures Absent(m, r)
  {
    forall d | d in m ensures r !in m[d].recv && r !in m[d].send {
      assert d != c ==> WantsRecv(s, d) == 0 && WantsSend(s, d) == 0;
      InSeq(m[d].recv, r);
      InSeq(m[d].send, r);
    }
  }

  /** A queue, perhaps without its first node, in which `r` is `k` times with that node. */
  lemma PoppedQueue(q: seq<Prog>, q': seq<Prog>, first: bool, r: Prog, k: nat)
    requires if first then q != [] && q[0] == r && q' == q[1..] else q' == q
    requires multiset(q')[r] == k - (if first then 1 else 0)
    ensures Removable(q', r) <==> k <= (if first then 2 else 1) || Others(q, r)
  {
    if first { TailOthers(q, r); }
    hide Others;
    RemovableIff(q', r);
  }

  lemma PoppedAlt(m: Chans, m': Chans, c: ChanId, sends: bool, r: Prog, s: State)
    requires c in m && s.Alting? && (if sends then m[c].send else m[c].recv) != [] && r == (if sends then m[c].send else m[c].recv)[0]
    requires m' == m[c := PopChan(m[c], sends)]
    requires forall d :: d in m ==>
      && multiset(m'[d].recv)[r] == WantsRecv(s, d) - (if d == c && !sends then 1 else 0)
      && multiset(m'[d].send)[r] == WantsSend(s, d) - (if d == c && sends then 1 else 0)
    ensures AllRemovable(m', Rs(s.a), Ss(s.a), r) <==> Wakes(m, c, sends, r, s)
    ensures Unmarked(m', Rs(s.a), Ss(s.a), r) == Freed(m', r)
  {
    hide Rs;
    hide Ss;
    hide Others;
    hide Removable;
    forall d | d in m
      ensures Removable(m'[d].recv, r) <==> multiset(Rs(s.a))[d] <= (if d == c && !sends then 2 else 1) || Others(m[d].recv, r)
      ensures Removable(m'[d].send, r) <==> multiset(Ss(s.a))[d] <= (if d == c && sends then 2 else 1) || Others(m[d].send, r)
      ensures (r in m'[d].recv ==> d in Rs(s.a)) && (r in m'[d].send ==> d in Ss(s.a))
    {
      PoppedQueue(m[d].recv, m'[d].recv, d == c && !sends, r, multiset(Rs(s.a))[d]);
      PoppedQueue(m[d].send, m'[d].send, d == c && sends, r, multiset(Ss(s.a))[d]);
      InSeq(m'[d].recv, r);
      InSeq(m'[d].send, r);
      InSeq(Rs(s.a), d);
      InSeq(Ss(s.a), d);
    }
    UnmarkedFrees(m', Rs(s.a), Ss(s.a), r);
  }

  /** A waiting sender is sending, on `c` or by an alt. */
  lemma SenderOffers(m: Chans, c: ChanId, s: State)
    requires c in m && m[c].send != [] && InPlace(m, m[c].send[0], s)
    ensures if s.Alting? then First(SendOpts(s.a.sends), c).Some? else s.Sending?
  {
    var r := m[c].send[0];
    assert multiset(m[c].send)[r] > 0;
    assert WantsSend(s, c) > 0;
    if s.Alting? {
      InSeq(Ss(s.a), c);
      FirstListed(SendOpts(s.a.sends), c);
    }
  }

  lemma {:induction false} FirstListed(os: seq<Opt>, c: ChanId)
    ensures First(os, c).Some? <==> c in ChansOf(os)
  {
    if os != [] {
      FirstListed(os[1..], c);
      assert ChansOf(os) == [os[0].c] + ChansOf(os[1..]);
    }
  }

  lemma NoneSelected(a: Alt, q: Prog)
    ensures forall g :: Note(g, q, Selected(a, None, -1)) == g
  {
  }

  lemma RetractExact(m: Chans, mk: Chans, a: Alt, added: seq<ChanId>, p: Prog)
    requires Known(m, SendOpts(a.sends)) && Known(m, Receives(a)) && Absent(m, p)
    requires mk == Marked(m, Rs(a), added, p) && multiset(added) <= multiset(Ss(a))
    ensures Known(mk, SendOpts(a.sends)) && Known(mk, Receives(a))
    ensures Safe(m, Rs(a), added) <==> AllRemovable(mk, Rs(a), Ss(a), p)
    ensures Unmarked(mk, Rs(a), Ss(a), p) == m
  {
    MarkedKeys(m, Rs(a), added, p);
    hide Marked;
    hide Absent;
    hide Unmarked;
    hide Freed;
    hide Safe;
    hide AllRemovable;
    SafePart(m, a, added, p);
    FreedOne(m, Rs(a), added, p);
    MarkedConfined(m, a, added, p);
    UnmarkedFrees(mk, Rs(a), Ss(a), p);
  }

  /** altdone stops in its first loop. */
  lemma DoneNot(m: Chans, mid: Chans, g: map<Prog, Reg>, mreg: map<Prog, Reg>, a: Alt, q: Prog, sel: Option<ChanId>, sel1: Option<ChanId>, sr: int, v: Value, v1: Value)
    requires Undone(m, mid, g, mreg, SendOpts(a.sends), true, q, sel, sel1, sr == 0, v, v1, false)
    ensures !AllRemovable(m, Rs(a), Ss(a), q)
  {
    hide Removable;
  }

  /** Both loops of altdone together. */
  lemma DoneAll(m: Chans, mid: Chans, m': Chans, g: map<Prog, Reg>, mreg: map<Prog, Reg>, g': map<Prog, Reg>, a: Alt, q: Prog,
                sel: Option<ChanId>, sel1: Option<ChanId>, sel2: Option<ChanId>, sr: int, v1: Value, v2: Value, ok: bool)
    requires Undone(m, mid, g, mreg, SendOpts(a.sends), true, q, sel, sel1, sr == 0, 0, v1, true)
    requires Undone(mid, m', mreg, g', Receives(a), false, q, sel1, sel2, sr == 1, v1, v2, ok)
    ensures Unmarks(m, m', Rs(a), Ss(a), q, ok)
    ensures ok ==> g' == Note(g, q, Selected(a, sel, sr)) && (Selected(a, sel, sr).Some? ==> v2 == Selected(a, sel, sr).value.v)
  {
    UnmarksMore(m, mid, m', [], Ss(a), Rs(a), [], q, ok);
    assert [] + Rs(a) == Rs(a) && Ss(a) + [] == Ss(a);
    hide Unmarks;
  }

  /** The marks altrdy set, when both its loops are done. */
  lemma MarkedBoth(m: Chans, mr: Chans, a: Alt, added: seq<ChanId>, p: Prog)
    requires mr == Marked(m, Rs(a), [], p)
    ensures Marked(mr, [], added, p) == Marked(m, Rs(a), added, p)
  {
    MarkedThen(m, Rs(a), [], [], added, p);
    assert Rs(a) + [] == Rs(a) && [] + added == added;
  }

  lemma MarkedKeys(m: Chans, rs: seq<ChanId>, ss: seq<ChanId>, p: Prog)
    ensures Marked(m, rs, ss, p).Keys == m.Keys
  {
  }

  lemma KnownMarked(m: Chans, a: Alt, p: Prog)
    requires Known(m, SendOpts(a.sends))
    ensures Known(Marked(m, Rs(a), [], p), SendOpts(a.sends))
  {
  }

  lemma InPart(added: seq<ChanId>, ss: seq<ChanId>, c: ChanId)
    requires multiset(added) <= multiset(ss)
    ensures c in added ==> c in ss
  {
    if c in added {
      assert multiset(added)[c] > 0;
    }
  }

  /** Of marks on part of the send queues. */
  lemma SafePart(m: Chans, a: Alt, added: seq<ChanId>, p: Prog)
    requires Absent(m, p) && multiset(added) <= multiset(Ss(a))
    ensures AllRemovable(Marked(m, Rs(a), added, p), Rs(a), Ss(a), p) <==> Safe(m, Rs(a), added)
  {
    var mk := Marked(m, Rs(a), added, p);
    hide Copies;
    hide Removable;
    hide Rs;
    hide Ss;
    forall c | c in m
      ensures Removable(mk[c].recv, p) <==> multiset(Rs(a))[c] <= 1 || m[c].recv != []
      ensures Removable(mk[c].send, p) <==> multiset(added)[c] <= 1 || m[c].send != []
      ensures c in added ==> c in Ss(a)
      ensures c !in added ==> multiset(added)[c] == 0
    {
      MarkedRemovable(m[c].recv, p, multiset(Rs(a))[c]);
      MarkedRemovable(m[c].send, p, multiset(added)[c]);
      InPart(added, Ss(a), c);
      InSeq(added, c);
    }
  }

  lemma MarkedConfined(m: Chans, a: Alt, added: seq<ChanId>, p: Prog)
    requires Absent(m, p) && multiset(added) <= multiset(Ss(a))
    ensures var mk := Marked(m, Rs(a), added, p); forall c :: c in mk ==> (p in mk[c].recv ==> c in Rs(a)) && (p in mk[c].send ==> c in Ss(a))
  {
    var mk := Marked(m, Rs(a), added, p);
    forall c | c in mk ensures (p in mk[c].recv ==> c in Rs(a)) && (p in mk[c].send ==> c in Ss(a)) {
      CopiesCount(p, multiset(Rs(a))[c], p);
      CopiesCount(p, multiset(added)[c], p);
      InPart(added, Ss(a), c);
    }
  }

  // ----- the loop invariants of altrdy and altdone, one step at a time

  /** `m'` is `m` with `p` waiting to send on `added`; unless a fault was found those are all of `ss`, `n` of them ready. */
  ghost predicate SendMarks(m: Chans, m': Chans, ss: seq<SendCase>, added: seq<ChanId>, n: nat, e: Option<Exception>, e0: Option<Exception>, p: Prog) {
    && Known(m, SendOpts(ss)) && m' == Marked(m, [], added, p) && e == SendFault(m, ss, p, e0) && added == Added(m, ss, p)
    && (e.None? ==> added == ChansOf(SendOpts(ss)) && n == CountReady(m, SendOpts(ss)))
    && multiset(added) <= multiset(ChansOf(SendOpts(ss)))
  }

  /** One more send: the mark, and whether it is ready, which the marks on send queues do not change. */
  lemma SendMore(m: Chans, added: seq<ChanId>, os: seq<Opt>, o: Opt, p: Prog)
    requires Known(m, os) && o.c in m && o.sends
    ensures ChansOf(os + [o]) == ChansOf(os) + [o.c]
    ensures Known(m, os + [o]) && CountReady(m, os + [o]) == CountReady(m, os) + if Ready(m, o) then 1 else 0
    ensures Marked(Marked(m, [], added, p), [], [o.c], p) == Marked(m, [], added + [o.c], p)
    ensures o.c in Marked(m, [], added, p) && OwnReceive(Marked(m, [], added, p), o.c, p) == OwnReceive(m, o.c, p)
    ensures Ready(Marked(m, [], added, p), o) == Ready(m, o)
  {
    MarkedReady(m, [], added, p, o);
    MarkedThen(m, [], added, [], [o.c], p);
    var none: seq<ChanId> := [];
    assert none + none == none;
    var mid := Marked(m, [], added, p);
    assert mid[o.c].recv == m[o.c].recv + [];
    ChansAppend(os, [o]);
    assert ChansOf([o]) == [o.c];
    CountOne(m, o);
    CountAppend(m, os, [o]);
    hide Marked;
    hide CountReady;
    hide Ready;
  }

  /** One more send case: what it adds to the options, and to the faults. */
  lemma SendCaseStep(m: Chans, ss: seq<SendCase>, i: nat, e0: Option<Exception>, p: Prog)
    requires i < |ss| && Known(m, SendOpts(ss))
    ensures Known(m, SendOpts(ss[..i])) && Known(m, SendOpts(ss[..i + 1])) && (ss[i].c.Some? ==> ss[i].c.value in m)
    ensures ss[i].c.None? ==> SendOpts(ss[..i + 1]) == SendOpts(ss[..i]) && SendFault(m, ss[..i + 1], p, e0) == Some(ExNilref)
    ensures Added(m, ss[..i + 1], p) ==
      Added(m, ss[..i], p) + if ss[i].c.None? || OwnReceive(m, ss[i].c.value, p) then [] else [ss[i].c.value]
    ensures ss[i].c.Some? ==> SendOpts(ss[..i + 1]) == SendOpts(ss[..i]) + [Opt(true, ss[i].c.value, ss[i].v, i, None)]
    ensures ss[i].c.Some? ==>
      SendFault(m, ss[..i + 1], p, e0) == if OwnReceive(m, ss[i].c.value, p) then Some(ExAlt) else SendFault(m, ss[..i], p, e0)
  {
    SendOptsPrefix(ss, i);
    assert ss[..i + 1][..i] == ss[..i];
    KnownPrefix(m, SendOpts(ss[..i + 1]), SendOpts(ss));
    KnownPrefix(m, SendOpts(ss[..i]), SendOpts(ss));
    if ss[i].c.Some? {
      assert SendOpts(ss[..i + 1])[|SendOpts(ss[..i])|].c == ss[i].c.value;
    }
    hide OwnReceive;
  }

  lemma SendMarksNil(m: Chans, mid: Chans, ss: seq<SendCase>, i: nat, added: seq<ChanId>, n: nat, e: Option<Exception>, e0: Option<Exception>, p: Prog)
    requires i < |ss| && ss[i].c.None? && Known(m, SendOpts(ss)) && SendMarks(m, mid, ss[..i], added, n, e, e0, p)
    ensures SendMarks(m, mid, ss[..i + 1], added, n, Some(ExNilref), e0, p)
  {
    hide Marked;
    hide CountReady;
    hide SendOpts;
    hide ChansOf;
    hide SendFault;
    hide Known;
    hide Added;
    SendCaseStep(m, ss, i, e0, p);
    assert added + [] == added;
  }

  lemma SendMarksStep(m: Chans, mid: Chans, ss: seq<SendCase>, i: nat, added: seq<ChanId>, n: nat, e: Option<Exception>, e0: Option<Exception>, p: Prog)
    requires i < |ss| && ss[i].c.Some? && Known(m, SendOpts(ss)) && SendMarks(m, mid, ss[..i], added, n, e, e0, p)
    ensures ss[i].c.value in mid
    ensures OwnReceive(mid, ss[i].c.value, p) ==> SendMarks(m, mid, ss[..i + 1], added, n, Some(ExAlt), e0, p)
    ensures !OwnReceive(mid, ss[i].c.value, p) ==>
      SendMarks(m, Marked(mid, [], [ss[i].c.value], p), ss[..i + 1], added + [ss[i].c.value],
        n + (if mid[ss[i].c.value].recv != [] || CanPut(mid[ss[i].c.value]) then 1 else 0), e, e0, p)
  {
    hide Marked;
    hide CountReady;
    hide SendOpts;
    hide Known;
    hide OwnReceive;
    hide SendFault;
    hide ChansOf;
    hide Added;
    SendCaseStep(m, ss, i, e0, p);
    assert added + [] == added;
    SendMore(m, added, SendOpts(ss[..i]), Opt(true, ss[i].c.value, ss[i].v, i, None), p);
  }

  ghost predicate Unmarks(m: Chans, m': Chans, rs: seq<ChanId>, ss: seq<ChanId>, q: Prog, ok: bool) {
    ok == AllRemovable(m, rs, ss, q) && (ok ==> m' == Unmarked(m, rs, ss, q))
  }

  lemma UnmarkedOne(m: Chans, c: ChanId, p: Prog)
    requires c in m
    ensures Unmarked(m, [c], [], p) == m[c := m[c].(recv := Without(m[c].recv, p))]
    ensures Unmarked(m, [], [c], p) == m[c := m[c].(send := Without(m[c].send, p))]
  {
    hide Without;
  }

  lemma UnmarksMore(m: Chans, mid: Chans, m': Chans, rs: seq<ChanId>, ss: seq<ChanId>, rs': seq<ChanId>, ss': seq<ChanId>, q: Prog, ok: bool)
    requires Unmarks(m, mid, rs, ss, q, true) && Unmarks(mid, m', rs', ss', q, ok)
    ensures Unmarks(m, m', rs + rs', ss + ss', q, ok)
  {
    RemovableThen(m, rs, ss, rs', ss', q);
    UnmarkedThen(m, rs, ss, rs', ss', q);
  }

  /** Prog `q` has been taken out of the send or receive queues of `os`, and the case selected has been noted. */
  ghost predicate Undone(m: Chans, m': Chans, g: map<Prog, Reg>, g': map<Prog, Reg>, os: seq<Opt>, sends: bool, q: Prog,
                         sel: Option<ChanId>, sel': Option<ChanId>, on: bool, v: Value, v': Value, ok: bool) {
    && Unmarks(m, m', if sends then [] else ChansOf(os), if sends then ChansOf(os) else [], q, ok)
    && (ok ==> sel' == Left(os, sel, on) && g' == Note(g, q, Noted(os, sel, on))
               && v' == if Noted(os, sel, on).Some? then Noted(os, sel, on).value.v else v)
  }

  lemma UndoneNone(m: Chans, g: map<Prog, Reg>, sends: bool, q: Prog, sel: Option<ChanId>, on: bool, v: Value)
    ensures Undone(m, m, g, g, [], sends, q, sel, sel, on, v, v, true)
  {
    UnmarkedNone(m, q);
    assert ChansOf([]) == [];
  }

  lemma UndoneMore(m: Chans, mid: Chans, m': Chans, g: map<Prog, Reg>, mreg: map<Prog, Reg>, g': map<Prog, Reg>, os: seq<Opt>, os': seq<Opt>,
                   sends: bool, q: Prog, sel: Option<ChanId>, msel: Option<ChanId>, sel': Option<ChanId>, on: bool,
                   v: Value, mv: Value, v': Value, ok: bool)
    requires Undone(m, mid, g, mreg, os, sends, q, sel, msel, on, v, mv, true)
    requires Undone(mid, m', mreg, g', os', sends, q, msel, sel', on, mv, v', ok)
    ensures Undone(m, m', g, g', os + os', sends, q, sel, sel', on, v, v', ok)
  {
    var none: seq<ChanId> := [];
    assert none + none == none;
    ChansAppend(os, os');
    if sends {
      UnmarksMore(m, mid, m', [], ChansOf(os), [], ChansOf(os'), q, ok);
    } else {
      UnmarksMore(m, mid, m', ChansOf(os), [], ChansOf(os'), [], q, ok);
    }
    hide Unmarks;
    NoteMore(g, q, os, os', sel, on);
    hide Noted;
    hide Left;
  }

  /** Once a queue has been destroyed, there is no going on. */
  lemma UndoneStop(m: Chans, m': Chans, g: map<Prog, Reg>, g': map<Prog, Reg>, os: seq<Opt>, all: seq<Opt>, sends: bool, q: Prog,
                   sel: Option<ChanId>, sel': Option<ChanId>, on: bool, v: Value, v': Value)
    requires Undone(m, m', g, g', os, sends, q, sel, sel', on, v, v', false) && os <= all
    ensures Undone(m, m', g, g', all, sends, q, sel, sel', on, v, v', false)
  {
    forall c | c in ChansOf(os) ensures c in ChansOf(all) {
      var i :| 0 <= i < |os| && ChansOf(os)[i] == c;
      assert ChansOf(all)[i] == c;
    }
    hide Removable;
  }

  lemma UndoneKeys(m: Chans, m': Chans, g: map<Prog, Reg>, g': map<Prog, Reg>, os: seq<Opt>, sends: bool, q: Prog,
                   sel: Option<ChanId>, sel': Option<ChanId>, on: bool, v: Value, v': Value)
    requires Undone(m, m', g, g', os, sends, q, sel, sel', on, v, v', true)
    ensures m'.Keys == m.Keys
  {
  }

  /** `m'` is `m` with `p` waiting to receive by all of `os`, of which `n` are ready in `m`. */
  ghost predicate Marks(m: Chans, m': Chans, os: seq<Opt>, n: nat, p: Prog) {
    Known(m, os) && m' == Marked(m, ChansOf(os), [], p) && n == CountReady(m, os)
  }

  lemma MarksNone(m: Chans, p: Prog)
    ensures Marks(m, m, [], 0, p)
  {
    MarkedNone(m, p);
    assert ChansOf([]) == [];
  }

  lemma MarksKnown(m: Chans, mid: Chans, os: seq<Opt>, os': seq<Opt>, n: nat, p: Prog)
    requires Marks(m, mid, os, n, p) && Known(m, os + os')
    ensures Known(m, os') && Known(mid, os')
  {
    KnownSuffix(m, os, os');
  }

  lemma MarksMore(m: Chans, mid: Chans, m': Chans, os: seq<Opt>, os': seq<Opt>, n: nat, k: nat, p: Prog)
    requires Marks(m, mid, os, n, p) && Known(m, os') && AllReceive(os') && Marks(mid, m', os', k, p)
    ensures Marks(m, m', os + os', n + k, p)
  {
    hide Marked;
    hide CountReady;
    MarkMore(m, os, os', p);
  }

  lemma CountOne(m: Chans, o: Opt)
    requires o.c in m
    ensures Known(m, [o]) && CountReady(m, [o]) == if Ready(m, o) then 1 else 0
  {
    assert [o][..0] == [];
  }

  lemma KnownSuffix(m: Chans, os: seq<Opt>, os': seq<Opt>)
    requires Known(m, os + os')
    ensures Known(m, os')
  {
    forall i | 0 <= i < |os'| ensures os'[i].c in m {
      assert (os + os')[|os| + i] == os'[i];
    }
  }

  lemma CaseReceives(n: nat, r: RecvCase)
    ensures AllReceive(CaseOpts(n, r))
  {
    if r.Many? {
      ElemOptsAre(n, r.cs);
    }
  }
}
