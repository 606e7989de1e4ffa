/**
  What the register of an alt tells the program (libinterp/alt.c): the number of a case, read in the arrays that the program
  passed, and the events that show what was communicated.
 */
module AltCases {
  import opened Wrappers
  import opened Channels
  import opened AltMarks

  // ----- the cases of an alt, in its own arrays

  /** The register names a case, or an element of an array, that sends or receives on channel `c`. */
  predicate Names(a: Alt, r: Reg, sends: bool, c: ChanId) {
    if r.n < |a.sends| then
      sends && r.an.None? && a.sends[r.n].c == Some(c)
    else
      !sends && r.n - |a.sends| < |a.recvs| &&
      match a.recvs[r.n - |a.sends|]
      case One(d) => r.an.None? && d == Some(c)
      case Many(cs) => r.an.Some? && r.an.value < |cs| && cs[r.an.value] == Some(c)
  }

  ghost predicate HasCase(a: Alt, sends: bool, c: ChanId) {
    exists r :: Names(a, r, sends, c)
  }

  /** The order of the cases in the arrays. */
  predicate Before(r: Reg, s: Reg) {
    r.n < s.n || (r.n == s.n && r.an.Some? && s.an.Some? && r.an.value < s.an.value)
  }

  /** The first case on that side on that channel. */
  ghost predicate NamesFirst(a: Alt, r: Reg, sends: bool, c: ChanId) {
    Names(a, r, sends, c) && forall s :: Before(s, r) ==> !Names(a, s, sends, c)
  }

  function RegOf(o: Opt): Reg { Reg(o.n, o.an) }

  /** What an option stands for. */
  predicate Fits(a: Alt, o: Opt) {
    Names(a, RegOf(o), o.sends, o.c) && (o.sends ==> o.n < |a.sends| && o.v == a.sends[o.n].v)
  }

  predicate Increasing(os: seq<Opt>) {
    forall i, j :: 0 <= i < j < |os| ==> Before(RegOf(os[i]), RegOf(os[j]))
  }

  ghost predicate Listed(os: seq<Opt>, r: Reg, sends: bool, c: ChanId) {
    exists i :: 0 <= i < |os| && RegOf(os[i]) == r && os[i].sends == sends && os[i].c == c
  }

  lemma IncreasingMore(os: seq<Opt>, os': seq<Opt>)
    requires Increasing(os) && Increasing(os')
    requires forall i, j :: 0 <= i < |os| && 0 <= j < |os'| ==> Before(RegOf(os[i]), RegOf(os'[j]))
    ensures Increasing(os + os')
  {
  }

  /** What the send option of case `n` is. */
  function SendOpt(ss: seq<SendCase>, n: nat): seq<Opt>
    requires n < |ss|
  {
    if ss[n].c.None? then [] else [Opt(true, ss[n].c.value, ss[n].v, n, None)]
  }

  lemma SendOptsStep(ss: seq<SendCase>)
    requires ss != []
    ensures SendOpts(ss) == SendOpts(ss[..|ss| - 1]) + SendOpt(ss, |ss| - 1)
  {
  }

  lemma SendOptFits(a: Alt, ss: seq<SendCase>, n: nat)
    requires n < |ss| && ss <= a.sends
    ensures forall i :: 0 <= i < |SendOpt(ss, n)| ==> Fits(a, SendOpt(ss, n)[i]) && SendOpt(ss, n)[i].n == n && SendOpt(ss, n)[i].sends
    ensures Increasing(SendOpt(ss, n))
    ensures forall r: Reg, c: ChanId :: r.n == n && Names(a, r, true, c) ==> Listed(SendOpt(ss, n), r, true, c)
  {
    var os := SendOpt(ss, n);
    forall r: Reg, c: ChanId | r.n == n && Names(a, r, true, c) ensures Listed(os, r, true, c) {
      assert os[0] == Opt(true, c, ss[n].v, n, None);
    }
  }

  lemma {:induction false} SendOptsFit(a: Alt, ss: seq<SendCase>)
    requires ss <= a.sends
    ensures forall i :: 0 <= i < |SendOpts(ss)| ==> Fits(a, SendOpts(ss)[i]) && SendOpts(ss)[i].n < |ss| && SendOpts(ss)[i].sends
    ensures Increasing(SendOpts(ss))
    ensures forall r: Reg, c: ChanId :: r.n < |ss| && Names(a, r, true, c) ==> Listed(SendOpts(ss), r, true, c)
  {
    hide Fits;
    hide Names;
    hide Listed;
    hide SendOpt;
    if ss != [] {
      var n := |ss| - 1;
      SendOptsFit(a, ss[..n]);
      SendOptsStep(ss);
      hide SendOpts;
      SendOptFits(a, ss, n);
      var rest, last := SendOpts(ss[..n]), SendOpt(ss, n);
      IncreasingMore(rest, last);
      forall r: Reg, c: ChanId | r.n < |ss| && Names(a, r, true, c) ensures Listed(SendOpts(ss), r, true, c) {
        if r.n < n {
          ListedLeft(rest, last, r, true, c);
        } else {
          ListedRight(rest, last, r, true, c);
        }
      }
    } else {
      assert SendOpts(ss) == [];
    }
  }

  function ElemOpt(n: nat, cs: seq<Option<ChanId>>, an: nat): seq<Opt>
    requires an < |cs|
  {
    if cs[an].None? then [] else [Opt(false, cs[an].value, 0, n, Some(an))]
  }

  lemma ElemOptsStep(n: nat, cs: seq<Option<ChanId>>)
    requires cs != []
    ensures ElemOpts(n, cs) == ElemOpts(n, cs[..|cs| - 1]) + ElemOpt(n, cs, |cs| - 1)
  {
  }

  /** The option is element `an` of an array. */
  predicate IsElem(o: Opt, n: nat, an: nat) {
    o.n == n && o.an == Some(an) && !o.sends
  }

  lemma ElemOptFits(a: Alt, n: nat, cs: seq<Option<ChanId>>, an: nat)
    requires |a.sends| <= n < |a.sends| + |a.recvs| && a.recvs[n - |a.sends|].Many? && cs <= a.recvs[n - |a.sends|].cs && an < |cs|
    ensures forall i :: 0 <= i < |ElemOpt(n, cs, an)| ==> Fits(a, ElemOpt(n, cs, an)[i]) && IsElem(ElemOpt(n, cs, an)[i], n, an)
    ensures Increasing(ElemOpt(n, cs, an))
    ensures forall r: Reg, c: ChanId :: r == Reg(n, Some(an)) && Names(a, r, false, c) ==> Listed(ElemOpt(n, cs, an), r, false, c)
  {
    var os := ElemOpt(n, cs, an);
    forall r: Reg, c: ChanId | r == Reg(n, Some(an)) && Names(a, r, false, c) ensures Listed(os, r, false, c) {
      assert os[0] == Opt(false, c, 0, n, Some(an));
    }
  }

  lemma {:induction false} ElemOptsFit(a: Alt, n: nat, cs: seq<Option<ChanId>>)
    requires |a.sends| <= n < |a.sends| + |a.recvs| && a.recvs[n - |a.sends|].Many? && cs <= a.recvs[n - |a.sends|].cs
    ensures forall i :: 0 <= i < |ElemOpts(n, cs)| ==>
      var o := ElemOpts(n, cs)[i]; Fits(a, o) && o.an.Some? && o.an.value < |cs| && IsElem(o, n, o.an.value)
    ensures Increasing(ElemOpts(n, cs))
    ensures forall r: Reg, c: ChanId :: r.n == n && r.an.Some? && r.an.value < |cs| && Names(a, r, false, c) ==> Listed(ElemOpts(n, cs), r, false, c)
  {
    hide Fits;
    hide Names;
    hide Listed;
    hide ElemOpt;
    if cs != [] {
      var an := |cs| - 1;
      ElemOptsFit(a, n, cs[..an]);
      ElemOptsStep(n, cs);
      hide ElemOpts;
      ElemOptFits(a, n, cs, an);
      var rest, last := ElemOpts(n, cs[..an]), ElemOpt(n, cs, an);
      IncreasingMore(rest, last);
      forall r: Reg, c: ChanId | r.n == n && r.an.Some? && r.an.value < |cs| && Names(a, r, false, c)
        ensures Listed(ElemOpts(n, cs), r, false, c)
      {
        if r.an.value < an {
          ListedLeft(rest, last, r, false, c);
        } else {
          ListedRight(rest, last, r, false, c);
        }
      }
    } else {
      assert ElemOpts(n, cs) == [];
    }
  }

  lemma CaseOptsFit(a: Alt, n: nat)
    requires |a.sends| <= n < |a.sends| + |a.recvs|
    ensures var os := CaseOpts(n, a.recvs[n - |a.sends|]);
      && (forall i :: 0 <= i < |os| ==> Fits(a, os[i]) && os[i].n == n && !os[i].sends)
      && Increasing(os)
      && forall r: Reg, c: ChanId :: r.n == n && Names(a, r, false, c) ==> Listed(os, r, false, c)
  {
    var k := a.recvs[n - |a.sends|];
    if k.Many? {
      ElemOptsFit(a, n, k.cs);
    } else {
      var os := CaseOpts(n, k);
      forall r: Reg, c: ChanId | r.n == n && Names(a, r, false, c) ensures Listed(os, r, false, c) {
        assert os[0] == Opt(false, c, 0, n, None);
      }
    }
  }

  lemma {:induction false} RecvOptsFit(a: Alt, rs: seq<RecvCase>)
    requires rs <= a.recvs
    ensures var os := RecvOpts(|a.sends|, rs);
      && (forall i :: 0 <= i < |os| ==> Fits(a, os[i]) && |a.sends| <= os[i].n < |a.sends| + |rs| && !os[i].sends)
      && Increasing(os)
      && forall r: Reg, c: ChanId :: r.n < |a.sends| + |rs| && Names(a, r, false, c) ==> Listed(os, r, false, c)
  {
    hide CaseOpts;
    hide Fits;
    if rs != [] {
      var i := |rs| - 1;
      RecvOptsFit(a, rs[..i]);
      CaseOptsFit(a, |a.sends| + i);
      var rest, last := RecvOpts(|a.sends|, rs[..i]), CaseOpts(|a.sends| + i, rs[i]);
      var os := RecvOpts(|a.sends|, rs);
      forall r: Reg, c: ChanId | r.n < |a.sends| + |rs| && Names(a, r, false, c) ensures Listed(os, r, false, c) {
        if r.n < |a.sends| + i {
          ListedLeft(rest, last, r, false, c);
        } else {
          ListedRight(rest, last, r, false, c);
        }
      }
    }
  }

  lemma ListedLeft(os: seq<Opt>, os': seq<Opt>, r: Reg, sends: bool, c: ChanId)
    requires Listed(os, r, sends, c)
    ensures Listed(os + os', r, sends, c)
  {
    var i :| 0 <= i < |os| && RegOf(os[i]) == r && os[i].sends == sends && os[i].c == c;
    assert (os + os')[i] == os[i];
  }

  lemma ListedRight(os: seq<Opt>, os': seq<Opt>, r: Reg, sends: bool, c: ChanId)
    requires Listed(os', r, sends, c)
    ensures Listed(os + os', r, sends, c)
  {
    var i :| 0 <= i < |os'| && RegOf(os'[i]) == r && os'[i].sends == sends && os'[i].c == c;
    assert (os + os')[|os| + i] == os'[i];
  }

  /** The options of an alt are exactly its cases that are not nil, in the order of its arrays. */
  lemma OptionsAreCases(a: Alt)
    ensures forall i :: 0 <= i < |Options(a)| ==> Fits(a, Options(a)[i])
    ensures Increasing(Options(a))
    ensures forall r: Reg, sends: bool, c: ChanId :: Names(a, r, sends, c) ==> Listed(Options(a), r, sends, c)
  {
    hide Fits;
    hide SendOpts;
    hide RecvOpts;
    SendOptsFit(a, a.sends);
    RecvOptsFit(a, a.recvs);
    var ss, rs := SendOpts(a.sends), Receives(a);
    forall r: Reg, sends: bool, c: ChanId | Names(a, r, sends, c) ensures Listed(Options(a), r, sends, c) {
      if sends {
        ListedLeft(ss, rs, r, sends, c);
      } else {
        ListedRight(ss, rs, r, sends, c);
      }
    }
  }

  function Side(a: Alt, sends: bool): seq<Opt> {
    if sends then SendOpts(a.sends) else Receives(a)
  }

  lemma SideFits(a: Alt, sends: bool)
    ensures forall i :: 0 <= i < |Side(a, sends)| ==> Fits(a, Side(a, sends)[i]) && Side(a, sends)[i].sends == sends
    ensures Increasing(Side(a, sends))
    ensures forall r: Reg, c: ChanId :: Names(a, r, sends, c) ==> Listed(Side(a, sends), r, sends, c)
  {
    hide Fits;
    hide SendOpts;
    hide RecvOpts;
    SendOptsFit(a, a.sends);
    RecvOptsFit(a, a.recvs);
  }

  lemma {:induction false} FirstIs(os: seq<Opt>, c: ChanId)
    ensures First(os, c).None? ==> forall i :: 0 <= i < |os| ==> os[i].c != c
    ensures First(os, c).Some? ==> exists i :: 0 <= i < |os| && os[i] == First(os, c).value && os[i].c == c && forall j :: 0 <= j < i ==> os[j].c != c
  {
    if os != [] && os[0].c != c {
      FirstIs(os[1..], c);
      if First(os, c).Some? {
        var i :| 0 <= i < |os[1..]| && os[1..][i] == First(os, c).value && os[1..][i].c == c && forall j :: 0 <= j < i ==> os[1..][j].c != c;
        assert os[i + 1] == First(os, c).value;
        forall j | 0 <= j < i + 1 ensures os[j].c != c { assert j > 0 ==> os[j] == os[1..][j - 1]; }
      } else {
        forall i | 0 <= i < |os| ensures os[i].c != c { assert i > 0 ==> os[i] == os[1..][i - 1]; }
      }
    }
  }

  /** The first option on a channel is the first case there. */
  lemma FirstCase(a: Alt, sends: bool, c: ChanId)
    ensures match First(Side(a, sends), c)
            case None => forall r :: !Names(a, r, sends, c)
            case Some(o) => NamesFirst(a, RegOf(o), sends, c) && Fits(a, o) && o.sends == sends
  {
    hide Names;
    hide Before;
    hide First;
    hide Side;
    var os := Side(a, sends);
    SideFits(a, sends);
    FirstIs(os, c);
    if First(os, c).Some? {
      var i :| 0 <= i < |os| && os[i] == First(os, c).value && os[i].c == c && forall j :: 0 <= j < i ==> os[j].c != c;
      forall s | Before(s, RegOf(os[i])) ensures !Names(a, s, sends, c) {
        if Names(a, s, sends, c) {
          var j :| 0 <= j < |os| && RegOf(os[j]) == s && os[j].sends == sends && os[j].c == c;
          BeforeStrict(s, RegOf(os[i]));
        }
      }
    }
  }

  lemma BeforeStrict(r: Reg, s: Reg)
    requires Before(r, s)
    ensures !Before(s, r) && r != s
  {
  }

  // ----- what is stored

  /** Prog `q`, waiting in alt `a`, is told the first case on the channel, and nobody else is told anything. */
  ghost predicate Told(a: Alt, q: Prog, sends: bool, c: ChanId, regs: map<Prog, Reg>, regs': map<Prog, Reg>) {
    q in regs' && NamesFirst(a, regs'[q], sends, c) && regs' == regs[q := regs'[q]]
  }

  /** altdone stores the number of the first case on the selected channel, if there is one on that side, and of a send
      delivers the value. */
  lemma DoneTells(a: Alt, q: Prog, sel: Option<ChanId>, sr: int, regs: map<Prog, Reg>, regs': map<Prog, Reg>, v: Value)
    requires regs' == Note(regs, q, Selected(a, sel, sr)) && (Selected(a, sel, sr).Some? ==> v == Selected(a, sel, sr).value.v)
    ensures DoneTold(a, q, sel, sr, regs, regs', v)
  {
    hide NamesFirst;
    hide Names;
    hide First;
    if sel.Some? && (sr == 0 || sr == 1) {
      FirstCase(a, sr == 0, sel.value);
      var o := First(Side(a, sr == 0), sel.value);
      if o.Some? {
        NamesIs(a, RegOf(o.value), sr == 0, sel.value);
      }
    }
  }

  lemma NamesIs(a: Alt, r: Reg, sends: bool, c: ChanId)
    requires NamesFirst(a, r, sends, c)
    ensures Names(a, r, sends, c)
  {
  }

  ghost predicate DoneTold(a: Alt, q: Prog, sel: Option<ChanId>, sr: int, regs: map<Prog, Reg>, regs': map<Prog, Reg>, v: Value) {
    if sel.Some? && (sr == 0 || sr == 1) && HasCase(a, sr == 0, sel.value) then
      Told(a, q, sr == 0, sel.value, regs, regs') && (sr == 0 ==> regs'[q].n < |a.sends| && v == a.sends[regs'[q].n].v)
    else
      regs' == regs
  }

  /** Communication on `c`, by a sender or a receiver, tells the partner it wakes, if that waits in an alt. */
  ghost predicate PartnerTold(vm: Vm, c: ChanId, sends: bool, regs': map<Prog, Reg>)
    requires c in vm.chans
  {
    var q := if sends then vm.chans[c].recv else vm.chans[c].send;
    if q != [] && StateOf(vm, q[0]).Alting? then Told(StateOf(vm, q[0]).a, q[0], !sends, c, vm.regs, regs') else regs' == vm.regs
  }

  ghost predicate HeadWaits(vm: Vm, c: ChanId, sends: bool)
    requires c in vm.chans
  {
    var q := if sends then vm.chans[c].recv else vm.chans[c].send;
    q != [] ==> InPlace(vm.chans, q[0], StateOf(vm, q[0]))
  }

  /** A prog in a queue waits there. */
  lemma HeadTaken(vm: Vm, c: ChanId, sends: bool)
    requires c in vm.chans && HeadWaits(vm, c, sends)
    ensures var q := if sends then vm.chans[c].recv else vm.chans[c].send;
      q != [] && StateOf(vm, q[0]).Alting? ==> First(Side(StateOf(vm, q[0]).a, !sends), c).Some?
  {
    hide SendOpts;
    hide Receives;
    hide First;
    var q := if sends then vm.chans[c].recv else vm.chans[c].send;
    if q != [] && StateOf(vm, q[0]).Alting? {
      var a := StateOf(vm, q[0]).a;
      assert multiset(q)[q[0]] > 0;
      InSeq(if sends then Rs(a) else Ss(a), c);
      FirstListed(Side(a, !sends), c);
    }
  }

  lemma WakeTells(vm: Vm, c: ChanId, sends: bool)
    requires c in vm.chans && HeadWaits(vm, c, sends)
    ensures var q := if sends then vm.chans[c].recv else vm.chans[c].send;
      q != [] ==> PartnerTold(vm, c, sends, Note(vm.regs, q[0], Taken(StateOf(vm, q[0]), !sends, c)))
    ensures var q := if sends then vm.chans[c].recv else vm.chans[c].send; q == [] ==> PartnerTold(vm, c, sends, vm.regs)
  {
    hide SendOpts;
    hide Receives;
    hide First;
    hide NamesFirst;
    hide Names;
    hide Fits;
    hide InPlace;
    var q := if sends then vm.chans[c].recv else vm.chans[c].send;
    HeadTaken(vm, c, sends);
    if q != [] && StateOf(vm, q[0]).Alting? {
      FirstCase(StateOf(vm, q[0]).a, !sends, c);
    }
  }

  lemma SendTells(vm: Vm, p: Prog, c: ChanId, v: Value)
    requires c in vm.chans && HeadWaits(vm, c, true)
    ensures PartnerTold(vm, c, true, SendTo(vm, p, c, v).regs)
  {
    hide PartnerTold;
    hide HeadWaits;
    hide First;
    hide Taken;
    hide Freed;
    WakeTells(vm, c, true);
  }

  lemma ReceiveTells(vm: Vm, p: Prog, c: ChanId)
    requires c in vm.chans && HeadWaits(vm, c, false)
    ensures PartnerTold(vm, c, false, ReceiveFrom(vm, p, c).regs)
  {
    hide PartnerTold;
    hide HeadWaits;
    hide First;
    hide Taken;
    hide Freed;
    WakeTells(vm, c, false);
  }

  /** The case that the register names is the one of the event. */
  predicate Shows(a: Alt, r: Reg, e: Event) {
    Names(a, r, e.Sent?, e.c) && (e.Sent? ==> r.n < |a.sends| && e.v == a.sends[r.n].v)
  }

  /** A prog waiting in an alt learns the first case on the channel of the event. */
  ghost predicate ShowsFirst(s: State, q: Prog, regs: map<Prog, Reg>, e: Event) {
    s.Alting? ==> q in regs && Shows(s.a, regs[q], e) && NamesFirst(s.a, regs[q], e.Sent?, e.c)
  }

  predicate Uninvolved(vm: Vm, vm': Vm, q: Prog) {
    forall i :: |vm.log| <= i < |vm'.log| ==> vm'.log[i].who != q
  }

  predicate SameReg(regs: map<Prog, Reg>, regs': map<Prog, Reg>, q: Prog) {
    (q in regs' <==> q in regs) && (q in regs ==> regs'[q] == regs[q])
  }

  /** Between `vm` and `vm'` prog `p` communicated in alt `a`, and everybody who did is told the right case. */
  ghost predicate Reports(vm: Vm, vm': Vm, p: Prog, a: Alt) {
    && vm.log <= vm'.log
    && (exists i :: |vm.log| <= i < |vm'.log| && vm'.log[i].who == p)
    && (forall i :: |vm.log| <= i < |vm'.log| ==>
          var e := vm'.log[i];
          if e.who == p then p in vm'.regs && Shows(a, vm'.regs[p], e)
          else ShowsFirst(StateOf(vm, e.who), e.who, vm'.regs, e))
    && (forall q :: Uninvolved(vm, vm', q) ==> SameReg(vm.regs, vm'.regs, q))
  }

  lemma TakenShows(vm: Vm, c: ChanId, sends: bool, e: Event, regs: map<Prog, Reg>)
    requires c in vm.chans && HeadWaits(vm, c, sends) && e.c == c && e.Sent? == !sends
    requires var q := if sends then vm.chans[c].recv else vm.chans[c].send;
      q != [] && e.who == q[0] && (e.Sent? ==> e.v == Offer(StateOf(vm, q[0]), c))
    ensures var q := if sends then vm.chans[c].recv else vm.chans[c].send;
      ShowsFirst(StateOf(vm, q[0]), q[0], Note(regs, q[0], Taken(StateOf(vm, q[0]), !sends, c)), e)
  {
    hide NamesFirst;
    hide First;
    hide SendOpts;
    hide Receives;
    hide InPlace;
    var q := if sends then vm.chans[c].recv else vm.chans[c].send;
    HeadTaken(vm, c, sends);
    if StateOf(vm, q[0]).Alting? {
      FirstCase(StateOf(vm, q[0]).a, !sends, c);
      var o := First(Side(StateOf(vm, q[0]).a, !sends), c).value;
      NamesIs(StateOf(vm, q[0]).a, RegOf(o), !sends, c);
    }
  }

  /** The event of the prog itself. */
  function OwnEvent(vm: Vm, p: Prog, o: Opt): Event
    requires o.c in vm.chans
  {
    var ch := vm.chans[o.c];
    if o.sends then Sent(o.c, p, o.v)
    else Got(o.c, p, if CanGet(ch) then ch.buf[0] else if ch.send != [] then Offer(StateOf(vm, ch.send[0]), o.c) else 0)
  }

  /** The event of its partner. */
  function PartnerEvent(vm: Vm, o: Opt, q: Prog): Event {
    if o.sends then Got(o.c, q, o.v) else Sent(o.c, q, Offer(StateOf(vm, q), o.c))
  }

  function Queue(vm: Vm, o: Opt): seq<Prog>
    requires o.c in vm.chans
  {
    if o.sends then vm.chans[o.c].recv else vm.chans[o.c].send
  }

  lemma TakeIs(vm: Vm, p: Prog, o: Opt)
    requires o.c in vm.chans && Ready(vm.chans, o) && (Queue(vm, o) != [] ==> Queue(vm, o)[0] != p)
    ensures var vm', q, e := Take(vm, p, o), Queue(vm, o), OwnEvent(vm, p, o);
      var regs := vm.regs[p := RegOf(o)];
      if q == [] then vm'.log == vm.log + [e] && vm'.regs == regs
      else
        var f := PartnerEvent(vm, o, q[0]);
        && (vm'.log == vm.log + [e, f] || vm'.log == vm.log + [f, e])
        && vm'.regs == Note(regs, q[0], Taken(StateOf(vm, q[0]), !o.sends, o.c))
  {
    hide Freed;
    hide First;
  }

  lemma AloneReports(vm: Vm, vm': Vm, p: Prog, a: Alt, o: Opt, e: Event)
    requires Fits(a, o) && e.who == p && e.c == o.c && e.Sent? == o.sends && (e.Sent? ==> e.v == o.v)
    requires vm'.log == vm.log + [e] && vm'.regs == vm.regs[p := RegOf(o)]
    ensures Reports(vm, vm', p, a)
  {
    hide Names;
    assert vm'.log[|vm.log|] == e;
  }

  lemma BothReport(vm: Vm, vm': Vm, p: Prog, a: Alt, o: Opt, e: Event, f: Event)
    requires Fits(a, o) && e.who == p && e.c == o.c && e.Sent? == o.sends && (e.Sent? ==> e.v == o.v)
    requires vm'.log == vm.log + [e, f] || vm'.log == vm.log + [f, e]
    requires f.who != p && ShowsFirst(StateOf(vm, f.who), f.who, vm'.regs, f)
    requires vm'.regs == Note(vm.regs[p := RegOf(o)], f.who, Taken(StateOf(vm, f.who), f.Sent?, f.c))
    ensures Reports(vm, vm', p, a)
  {
    hide Names;
    hide ShowsFirst;
    hide Taken;
    var n := |vm.log|;
    assert (vm'.log[n] == e && vm'.log[n + 1] == f) || (vm'.log[n] == f && vm'.log[n + 1] == e);
    forall q | Uninvolved(vm, vm', q) ensures SameReg(vm.regs, vm'.regs, q) {
      assert vm'.log[n].who != q && vm'.log[n + 1].who != q;
    }
  }

  /** Taking a ready option of an alt tells everybody the right case; its own number is that of the option. */
  lemma TakeReports(vm: Vm, p: Prog, a: Alt, k: nat)
    requires k < |Options(a)| && Options(a)[k].c in vm.chans && Ready(vm.chans, Options(a)[k]) && PartnerOk(vm, p, Options(a)[k])
    ensures Reports(vm, Take(vm, p, Options(a)[k]), p, a)
    ensures p in Take(vm, p, Options(a)[k]).regs && Take(vm, p, Options(a)[k]).regs[p] == RegOf(Options(a)[k])
  {
    hide Reports;
    hide Fits;
    hide First;
    hide Options;
    hide Take;
    hide Taken;
    hide Offer;
    hide ShowsFirst;
    hide InPlace;
    hide Known;
    OptionsAreCases(a);
    var o := Options(a)[k];
    var q, e := Queue(vm, o), OwnEvent(vm, p, o);
    TakeIs(vm, p, o);
    if q == [] {
      AloneReports(vm, Take(vm, p, o), p, a, o, e);
    } else {
      var f := PartnerEvent(vm, o, q[0]);
      TakenShows(vm, o.c, o.sends, f, vm.regs[p := RegOf(o)]);
      BothReport(vm, Take(vm, p, o), p, a, o, e, f);
    }
  }

  lemma PartnerWaits(vm: Vm, p: Prog, o: Opt)
    requires Inv(vm) && StateOf(vm, p).Running? && o.c in vm.chans
    ensures PartnerOk(vm, p, o)
  {
    hide AltOk;
    hide Flow;
    var q := Queue(vm, o);
    if q != [] {
      assert multiset(q)[q[0]] > 0;
      assert InPlace(vm.chans, q[0], StateOf(vm, q[0]));
      assert InPlace(vm.chans, p, Running) by { assert InPlace(vm.chans, p, StateOf(vm, p)); }
      assert Quiet(vm.chans[o.c]);
    }
  }

  /** After the case was taken, the register of the prog and that of its partner name the cases that the events show. */
  lemma TookReports(vm: Vm, p: Prog, a: Alt, block: bool, rnd: nat, k: nat)
    requires Inv(vm) && StateOf(vm, p).Running? && AltChoice(vm, p, a, block, rnd, Took, k)
    ensures Reports(vm, AltResult(vm, p, a, Took, k), p, a)
    ensures k < |Options(a)| && p in AltResult(vm, p, a, Took, k).regs
    ensures AltResult(vm, p, a, Took, k).regs[p] == RegOf(Options(a)[k])
  {
    hide Inv;
    hide Reports;
    hide Take;
    hide Options;
    hide PartnerOk;
    hide Counted;
    hide Marked;
    hide CountReady;
    PartnerWaits(vm, p, Options(a)[k]);
    TakeReports(vm, p, a, k);
  }

  /** If nothing was ready, the register names no case. */
  lemma DefaultNamesNone(a: Alt, sends: bool, c: ChanId)
    ensures !Names(a, Reg(|a.sends| + |a.recvs|, None), sends, c)
  {
  }

  lemma ActsReport(vm: Vm, p: Prog, a: Alt, k: nat, which: nat, vm': Vm, mine: bool)
    requires Trying(vm, p, [], Options(a), which, which) && Chose(vm.chans, Options(a), k, which)
    requires Options(a)[k].c in vm.chans && Acts(vm, p, Options(a)[k], vm', mine, true)
    ensures Reports(vm, vm', p, a) && p in vm'.regs && vm'.regs[p] == RegOf(Options(a)[k])
  {
    hide Reports;
    hide Take;
    hide Options;
    hide CountReady;
    hide Ready;
    hide PartnerWakes;
    TakeReports(vm, p, a, k);
  }

  // ----- who comes first

  /** The queue has lost one prog at most, and the running prog has joined at its end; nobody has overtaken anybody. */
  ghost predicate InOrder(q: seq<Prog>, q': seq<Prog>, p: Prog) {
    exists r: Prog, k: nat :: Follows(q, q', r, p, k)
  }

  predicate Follows(q: seq<Prog>, q': seq<Prog>, r: Prog, p: Prog, k: nat) {
    q' == q + Copies(p, k) || q' == Without(q, r) + Copies(p, k)
  }

  ghost predicate QueuesInOrder(m: Chans, m': Chans, p: Prog) {
    m.Keys == m'.Keys && forall c :: c in m ==> InOrder(m[c].recv, m'[c].recv, p) && InOrder(m[c].send, m'[c].send, p)
  }

  /** Every partner was at the head of its queue. */
  predicate PartnersFirst(vm: Vm, vm': Vm, p: Prog) {
    vm.log <= vm'.log && forall i :: |vm.log| <= i < |vm'.log| ==> PartnerFirst(vm, vm'.log[i], p)
  }

  predicate PartnerFirst(vm: Vm, e: Event, p: Prog) {
    e.who != p ==>
      && e.c in vm.chans
      && var q := if e.Got? then vm.chans[e.c].recv else vm.chans[e.c].send; q != [] && q[0] == e.who
  }

  lemma Stays(q: seq<Prog>, r: Prog, p: Prog)
    ensures InOrder(q, q, p) && InOrder(q, Without(q, r), p) && InOrder(q, q + [p], p)
  {
    assert Copies(p, 0) == [] && Copies(p, 1) == [p];
    assert Follows(q, q, r, p, 0) && Follows(q, Without(q, r), r, p, 0) && Follows(q, q + [p], r, p, 1);
  }

  lemma AllStay(m: Chans, m': Chans, p: Prog)
    requires m.Keys == m'.Keys && forall c :: c in m ==> m'[c].recv == m[c].recv && m'[c].send == m[c].send
    ensures QueuesInOrder(m, m', p)
  {
    forall c | c in m ensures InOrder(m[c].recv, m'[c].recv, p) && InOrder(m[c].send, m'[c].send, p) {
      Stays(m[c].recv, p, p);
      Stays(m[c].send, p, p);
    }
  }

  lemma FreedStay(m: Chans, m': Chans, r: Prog, p: Prog)
    requires m.Keys == m'.Keys && forall c :: c in m ==> m'[c].recv == Without(m[c].recv, r) && m'[c].send == Without(m[c].send, r)
    ensures QueuesInOrder(m, m', p)
  {
    forall c | c in m ensures InOrder(m[c].recv, m'[c].recv, p) && InOrder(m[c].send, m'[c].send, p) {
      Stays(m[c].recv, r, p);
      Stays(m[c].send, r, p);
    }
  }

  lemma JoinsLast(m: Chans, m': Chans, c: ChanId, p: Prog)
    requires c in m && m.Keys == m'.Keys && forall d :: d in m && d != c ==> m'[d] == m[d]
    requires (m'[c].recv == m[c].recv + [p] && m'[c].send == m[c].send) || (m'[c].send == m[c].send + [p] && m'[c].recv == m[c].recv)
    ensures QueuesInOrder(m, m', p)
  {
    forall d | d in m ensures InOrder(m[d].recv, m'[d].recv, p) && InOrder(m[d].send, m'[d].send, p) {
      Stays(m[d].recv, p, p);
      Stays(m[d].send, p, p);
    }
  }

  lemma MarkedInOrder(m: Chans, rs: seq<ChanId>, ss: seq<ChanId>, p: Prog)
    ensures QueuesInOrder(m, Marked(m, rs, ss, p), p)
  {
    forall c | c in m ensures InOrder(m[c].recv, Marked(m, rs, ss, p)[c].recv, p) && InOrder(m[c].send, Marked(m, rs, ss, p)[c].send, p) {
      assert Follows(m[c].recv, Marked(m, rs, ss, p)[c].recv, p, p, multiset(rs)[c]);
      assert Follows(m[c].send, Marked(m, rs, ss, p)[c].send, p, p, multiset(ss)[c]);
    }
  }

  lemma SendInOrder(vm: Vm, p: Prog, c: ChanId, v: Value)
    requires c in vm.chans
    ensures QueuesInOrder(vm.chans, SendTo(vm, p, c, v).chans, p) && PartnersFirst(vm, SendTo(vm, p, c, v), p)
  {
    hide QueuesInOrder;
    hide Taken;
    var m, m' := vm.chans, SendTo(vm, p, c, v).chans;
    if m[c].recv != [] {
      FreedStay(m, m', m[c].recv[0], p);
    } else if CanPut(m[c]) {
      AllStay(m, m', p);
    } else {
      JoinsLast(m, m', c, p);
    }
  }

  lemma ReceiveQueues(vm: Vm, p: Prog, c: ChanId)
    requires c in vm.chans
    ensures QueuesInOrder(vm.chans, ReceiveFrom(vm, p, c).chans, p)
  {
    hide QueuesInOrder;
    hide Taken;
    hide Offer;
    var m, m' := vm.chans, ReceiveFrom(vm, p, c).chans;
    if m[c].send != [] {
      FreedStay(m, m', m[c].send[0], p);
    } else if CanGet(m[c]) {
      AllStay(m, m', p);
    } else {
      JoinsLast(m, m', c, p);
    }
  }

  lemma ReceivePartner(vm: Vm, p: Prog, c: ChanId)
    requires c in vm.chans
    ensures PartnersFirst(vm, ReceiveFrom(vm, p, c), p)
  {
    hide Taken;
    hide Offer;
    hide Freed;
  }

  lemma ReceiveInOrder(vm: Vm, p: Prog, c: ChanId)
    requires c in vm.chans
    ensures QueuesInOrder(vm.chans, ReceiveFrom(vm, p, c).chans, p) && PartnersFirst(vm, ReceiveFrom(vm, p, c), p)
  {
    hide *;
    ReceiveQueues(vm, p, c);
    ReceivePartner(vm, p, c);
  }
}
