/** The code of libinterp/alt.c, with isend and irecv of libinterp/xec.c: progs wait on many channels at once. */
module Alternation {
  import opened Wrappers
  import opened Channels
  import opened AltMarks
  import opened AltCases

  /** The virtual machine: channels, progs, the registers in which alts find their answers, and a history. */
  class Interp {
    var chans: Chans
    var st: map<Prog, State>
    var regs: map<Prog, Reg>
    ghost var log: seq<Event>

    ghost function Now(): Vm
      reads this
    {
      Vm(chans, st, regs, log)
    }

    // ----- marking

    /** cqadd. */
    method CqAdd(sends: bool, c: ChanId, p: Prog)
      requires c in chans
      modifies this`chans
      ensures chans == if sends then Marked(old(chans), [], [c], p) else Marked(old(chans), [c], [], p)
    {
      MarkedOne(chans, c, p);
      var ch := chans[c];
      chans := chans[c := if sends then ch.(send := ch.send + [p]) else ch.(recv := ch.recv + [p])];
    }

    /** altmark: mark an array of channels for receiving; nil channels are passed over. */
    method AltMark(ghost n: nat, cs: seq<Option<ChanId>>, p: Prog) returns (nrdy: nat)
      requires Known(chans, ElemOpts(n, cs))
      modifies this`chans
      ensures Marks(old(chans), chans, ElemOpts(n, cs), nrdy, p)
    {
      hide Marks;
      ghost var m := chans;
      nrdy := 0;
      MarksNone(m, p);
      assert cs[..0] == [];
      for j := 0 to |cs|
        invariant Marks(m, chans, ElemOpts(n, cs[..j]), nrdy, p)
      {
        ElemOptsPrefix(n, cs, j);
        KnownPrefix(m, ElemOpts(n, cs[..j + 1]), ElemOpts(n, cs));
        ghost var os, mid, os' := ElemOpts(n, cs[..j]), chans, [];
        var k := 0;
        if cs[j].Some? {
          os' := [Opt(false, cs[j].value, 0, n, Some(j))];
        }
        assert ElemOpts(n, cs[..j + 1]) == os + os';
        MarksKnown(m, mid, os, os', nrdy, p);
        hide ElemOpts;
        if cs[j].Some? {
          assert os'[0].c in mid;
          k := MarkReceive(os'[0], cs[j].value, p);
        } else {
          MarksNone(mid, p);
        }
        MarksMore(m, mid, chans, os, os', nrdy, k, p);
        nrdy := nrdy + k;
      }
      assert cs[..|cs|] == cs;
    }

    /** One channel: is it ready, and mark it. */
    method MarkReceive(ghost o: Opt, c: ChanId, p: Prog) returns (k: nat)
      requires c in chans && o.c == c && !o.sends
      modifies this`chans
      ensures Marks(old(chans), chans, [o], k, p)
    {
      CountOne(chans, o);
      k := if chans[c].send != [] || CanGet(chans[c]) then 1 else 0;
      hide Marked;
      CqAdd(false, c, p);
      assert ChansOf([o]) == [c];
    }

    /** One receive case of altrdy. */
    method MarkCase(ghost n: nat, r: RecvCase, p: Prog) returns (nrdy: nat)
      requires Known(chans, CaseOpts(n, r))
      modifies this`chans
      ensures Marks(old(chans), chans, CaseOpts(n, r), nrdy, p)
    {
      hide Marks;
      match r {
        case One(c) =>
          if c.None? {
            MarksNone(chans, p);
            return 0;
          }
          ghost var o := Opt(false, c.value, 0, n, None);
          assert CaseOpts(n, r)[0] == o;
          nrdy := MarkReceive(o, c.value, p);
        case Many(cs) =>
          nrdy := AltMark(n, cs, p);
      }
    }

    /** The first loop of altrdy. */
    method MarkReceives(ghost base: nat, rs: seq<RecvCase>, p: Prog) returns (nrdy: nat, e: Option<Exception>)
      requires Known(chans, RecvOpts(base, rs))
      modifies this`chans
      ensures Marks(old(chans), chans, RecvOpts(base, rs), nrdy, p) && e == RecvFault(rs)
    {
      hide Marks;
      hide CaseOpts;
      ghost var m := chans;
      nrdy, e := 0, None;
      MarksNone(m, p);
      assert rs[..0] == [];
      for i := 0 to |rs|
        invariant Marks(m, chans, RecvOpts(base, rs[..i]), nrdy, p) && e == RecvFault(rs[..i])
      {
        RecvOptsPrefix(base, rs, i);
        ghost var os, os', mid := RecvOpts(base, rs[..i]), CaseOpts(base + i, rs[i]), chans;
        KnownPrefix(m, RecvOpts(base, rs[..i + 1]), RecvOpts(base, rs));
        assert rs[..i + 1][..i] == rs[..i];
        MarksKnown(m, mid, os, os', nrdy, p);
        CaseReceives(base + i, rs[i]);
        hide RecvOpts;
        hide AllReceive;
        if rs[i] == One(None) {
          e := Some(ExNilref);
        }
        var k := MarkCase(base + i, rs[i], p);
        MarksMore(m, mid, chans, os, os', nrdy, k, p);
        nrdy := nrdy + k;
      }
      assert rs[..|rs|] == rs;
    }

    /** One send case of altrdy. */
    method MarkSend(ghost m: Chans, ghost ss: seq<SendCase>, i: nat, c: Option<ChanId>, p: Prog, nrdy: nat, e: Option<Exception>,
                    ghost e0: Option<Exception>, ghost added: seq<ChanId>)
      returns (nrdy': nat, e': Option<Exception>, ghost added': seq<ChanId>)
      requires i < |ss| && c == ss[i].c && Known(m, SendOpts(ss)) && SendMarks(m, chans, ss[..i], added, nrdy, e, e0, p)
      modifies this`chans
      ensures SendMarks(m, chans, ss[..i + 1], added', nrdy', e', e0, p)
    {
      nrdy', e', added' := nrdy, e, added;
      hide SendMarks;
      hide Marked;
      if c.None? {
        SendMarksNil(m, chans, ss, i, added, nrdy, e, e0, p);
        e' := Some(ExNilref);
        return;
      }
      SendMarksStep(m, chans, ss, i, added, nrdy, e, e0, p);
      var ch := chans[c.value];
      if ch.recv != [] || CanPut(ch) {
        if ch.recv != [] && ch.recv[0] == p {
          e' := Some(ExAlt);
          return;
        }
        nrdy' := nrdy + 1;
      }
      CqAdd(true, c.value, p);
      added' := added + [c.value];
    }

    /** The second loop of altrdy. */
    method MarkSends(ss: seq<SendCase>, p: Prog, e0: Option<Exception>) returns (nrdy: nat, e: Option<Exception>, ghost added: seq<ChanId>)
      requires Known(chans, SendOpts(ss))
      modifies this`chans
      ensures SendMarks(old(chans), chans, ss, added, nrdy, e, e0, p)
    {
      ghost var m := chans;
      nrdy, e, added := 0, e0, [];
      assert ss[..0] == [];
      MarkedNone(m, p);
      assert SendMarks(m, chans, ss[..0], added, nrdy, e, e0, p);
      hide SendMarks;
      for i := 0 to |ss|
        invariant SendMarks(m, chans, ss[..i], added, nrdy, e, e0, p)
      {
        nrdy, e, added := MarkSend(m, ss, i, ss[i].c, p, nrdy, e, e0, added);
      }
      assert ss[..|ss|] == ss;
    }

    // ----- taking the marks away

    /** cqdelp, where there is anything to delete: false if the queue is left a nil pointer. */
    method CqDelP(sends: bool, c: ChanId, q: Prog) returns (ok: bool)
      requires c in chans
      modifies this`chans
      ensures Unmarks(old(chans), chans, if sends then [] else [c], if sends then [c] else [], q, ok)
    {
      UnmarkedOne(chans, c, q);
      hide Unmarked;
      var ch := chans[c];
      var s := if sends then ch.send else ch.recv;
      ok := |s| <= 1 || exists i :: 0 <= i < |s| && s[i] != q;
      chans := chans[c := if sends then ch.(send := Without(s, q)) else ch.(recv := Without(s, q))];
    }

    /** One channel of altdone: take `q` out of its queue, and if it is the one selected, note the case. */
    method UndoOne(o: Opt, q: Prog, sel: Option<ChanId>, on: bool, v: Value) returns (ok: bool, sel': Option<ChanId>, v': Value)
      requires o.c in chans
      modifies this`chans, this`regs
      ensures Undone(old(chans), chans, old(regs), regs, [o], o.sends, q, sel, sel', on, v, v', ok)
    {
      hide Unmarks;
      ok := CqDelP(o.sends, o.c, q);
      sel', v' := sel, v;
      if on && sel == Some(o.c) {
        v' := o.v;
        regs := regs[q := Reg(o.n, o.an)];
        sel' := None;
      }
      NotedOne(o, sel, on);
      assert ChansOf([o]) == [o.c];
    }

    /** altunmark. */
    method AltUnmark(n: nat, cs: seq<Option<ChanId>>, q: Prog, sel: Option<ChanId>, on: bool, v: Value)
      returns (ok: bool, sel': Option<ChanId>, v': Value)
      requires Known(chans, ElemOpts(n, cs))
      modifies this`chans, this`regs
      ensures Undone(old(chans), chans, old(regs), regs, ElemOpts(n, cs), false, q, sel, sel', on, v, v', ok)
    {
      hide Undone;
      ghost var m, g := chans, regs;
      ok, sel', v' := true, sel, v;
      UndoneNone(m, g, false, q, sel, on, v);
      assert cs[..0] == [];
      for j := 0 to |cs|
        invariant chans.Keys == m.Keys && ok
        invariant Undone(m, chans, g, regs, ElemOpts(n, cs[..j]), false, q, sel, sel', on, v, v', true)
      {
        ElemOptsPrefix(n, cs, j);
        KnownPrefix(m, ElemOpts(n, cs[..j + 1]), ElemOpts(n, cs));
        ghost var os, mid, mreg, msel, mv := ElemOpts(n, cs[..j]), chans, regs, sel', v';
        if cs[j].Some? {
          var o := Opt(false, cs[j].value, 0, n, Some(j));
          assert ElemOpts(n, cs[..j + 1]) == os + [o] && ElemOpts(n, cs[..j + 1])[|os|] == o;
          ok, sel', v' := UndoOne(o, q, sel', on, v');
          UndoneMore(m, mid, chans, g, mreg, regs, os, [o], false, q, sel, msel, sel', on, v, mv, v', ok);
          if !ok {
            UndoneStop(m, chans, g, regs, os + [o], ElemOpts(n, cs), false, q, sel, sel', on, v, v');
            return;
          }
          UndoneKeys(m, chans, g, regs, os + [o], false, q, sel, sel', on, v, v');
        } else {
          assert ElemOpts(n, cs[..j + 1]) == os;
        }
      }
      assert cs[..|cs|] == cs;
    }

    /** The first loop of altdone. */
    method DoneSends(ss: seq<SendCase>, q: Prog, sel: Option<ChanId>, on: bool, v: Value) returns (ok: bool, sel': Option<ChanId>, v': Value)
      requires Known(chans, SendOpts(ss))
      modifies this`chans, this`regs
      ensures Undone(old(chans), chans, old(regs), regs, SendOpts(ss), true, q, sel, sel', on, v, v', ok)
    {
      hide Undone;
      ghost var m, g := chans, regs;
      ok, sel', v' := true, sel, v;
      UndoneNone(m, g, true, q, sel, on, v);
      assert ss[..0] == [];
      for n := 0 to |ss|
        invariant chans.Keys == m.Keys && ok
        invariant Undone(m, chans, g, regs, SendOpts(ss[..n]), true, q, sel, sel', on, v, v', true)
      {
        SendOptsPrefix(ss, n);
        KnownPrefix(m, SendOpts(ss[..n + 1]), SendOpts(ss));
        ghost var os, mid, mreg, msel, mv := SendOpts(ss[..n]), chans, regs, sel', v';
        if ss[n].c.Some? {
          var o := Opt(true, ss[n].c.value, ss[n].v, n, None);
          assert SendOpts(ss[..n + 1]) == os + [o] && SendOpts(ss[..n + 1])[|os|] == o;
          ok, sel', v' := UndoOne(o, q, sel', on, v');
          UndoneMore(m, mid, chans, g, mreg, regs, os, [o], true, q, sel, msel, sel', on, v, mv, v', ok);
          if !ok {
            UndoneStop(m, chans, g, regs, os + [o], SendOpts(ss), true, q, sel, sel', on, v, v');
            return;
          }
          UndoneKeys(m, chans, g, regs, os + [o], true, q, sel, sel', on, v, v');
        } else {
          assert SendOpts(ss[..n + 1]) == os;
        }
      }
      assert ss[..|ss|] == ss;
    }

    /** One receive case of altdone. */
    method DoneCase(n: nat, r: RecvCase, q: Prog, sel: Option<ChanId>, on: bool, v: Value) returns (ok: bool, sel': Option<ChanId>, v': Value)
      requires Known(chans, CaseOpts(n, r))
      modifies this`chans, this`regs
      ensures Undone(old(chans), chans, old(regs), regs, CaseOpts(n, r), false, q, sel, sel', on, v, v', ok)
    {
      hide Undone;
      match r {
        case One(c) =>
          if c.None? {
            UndoneNone(chans, regs, false, q, sel, on, v);
            return true, sel, v;
          }
          assert CaseOpts(n, r)[0].c == c.value;
          ok, sel', v' := UndoOne(Opt(false, c.value, 0, n, None), q, sel, on, v);
        case Many(cs) =>
          ok, sel', v' := AltUnmark(n, cs, q, sel, on, v);
      }
    }

    /** The second loop of altdone. */
    method DoneReceives(base: nat, rs: seq<RecvCase>, q: Prog, sel: Option<ChanId>, on: bool, v: Value)
      returns (ok: bool, sel': Option<ChanId>, v': Value)
      requires Known(chans, RecvOpts(base, rs))
      modifies this`chans, this`regs
      ensures Undone(old(chans), chans, old(regs), regs, RecvOpts(base, rs), false, q, sel, sel', on, v, v', ok)
    {
      hide Undone;
      hide CaseOpts;
      ghost var m, g := chans, regs;
      ok, sel', v' := true, sel, v;
      UndoneNone(m, g, false, q, sel, on, v);
      assert rs[..0] == [];
      for i := 0 to |rs|
        invariant chans.Keys == m.Keys && ok
        invariant Undone(m, chans, g, regs, RecvOpts(base, rs[..i]), false, q, sel, sel', on, v, v', true)
      {
        RecvOptsPrefix(base, rs, i);
        KnownPrefix(m, RecvOpts(base, rs[..i + 1]), RecvOpts(base, rs));
        ghost var os, os', mid, mreg, msel, mv := RecvOpts(base, rs[..i]), CaseOpts(base + i, rs[i]), chans, regs, sel', v';
        KnownSuffix(mid, os, os');
        ok, sel', v' := DoneCase(base + i, rs[i], q, sel', on, v');
        UndoneMore(m, mid, chans, g, mreg, regs, os, os', false, q, sel, msel, sel', on, v, mv, v', ok);
        if !ok {
          UndoneStop(m, chans, g, regs, os + os', RecvOpts(base, rs), false, q, sel, sel', on, v, v');
          return;
        }
        UndoneKeys(m, chans, g, regs, os + os', false, q, sel, sel', on, v, v');
      }
      assert rs[..|rs|] == rs;
    }

    /** altdone: take `q` out of all the queues of its alt, and note the case that was selected.  `ok` says that no queue
        has been left a nil pointer. */
    method AltDone(a: Alt, q: Prog, sel: Option<ChanId>, sr: int) returns (ok: bool, v: Value)
      requires Known(chans, SendOpts(a.sends)) && Known(chans, Receives(a))
      modifies this`chans, this`regs
      ensures ok <==> AllRemovable(old(chans), Rs(a), Ss(a), q)
      ensures ok ==> chans == Unmarked(old(chans), Rs(a), Ss(a), q)
      ensures ok ==> regs == Note(old(regs), q, Selected(a, sel, sr))
      ensures ok && Selected(a, sel, sr).Some? ==> v == Selected(a, sel, sr).value.v
      ensures ok ==> DoneTold(a, q, sel, sr, old(regs), regs, v)
    {
      hide DoneTold;
      hide Undone;
      ghost var m, g := chans, regs;
      var sel1, v1;
      ok, sel1, v1 := DoneSends(a.sends, q, sel, sr == 0, 0);
      ghost var mid, mreg := chans, regs;
      v := v1;
      if !ok {
        DoneNot(m, mid, g, mreg, a, q, sel, sel1, sr, 0, v1);
        return;
      }
      UndoneKeys(m, mid, g, mreg, SendOpts(a.sends), true, q, sel, sel1, sr == 0, 0, v1);
      var sel2;
      ok, sel2, v := DoneReceives(|a.sends|, a.recvs, q, sel1, sr == 1, v1);
      DoneAll(m, mid, chans, g, mreg, regs, a, q, sel, sel1, sel2, sr, v1, v, ok);
      if ok {
        DoneTells(a, q, sel, sr, g, regs, v);
      }
    }

    /** altrdy after a fault: the marks set so far are taken away. */
    method Retract(ghost m: Chans, a: Alt, ghost added: seq<ChanId>, p: Prog) returns (ok: bool)
      requires Known(m, SendOpts(a.sends)) && Known(m, Receives(a)) && Absent(m, p)
      requires chans == Marked(m, Rs(a), added, p) && multiset(added) <= multiset(Ss(a))
      modifies this`chans, this`regs
      ensures ok ==> chans == m && regs == old(regs)
      ensures ok <==> Safe(m, Rs(a), added)
    {
      hide *;
      RetractExact(m, chans, a, added, p);
      var v;
      ok, v := AltDone(a, p, None, -1);
      NoneSelected(a, p);
    }

    /** altrdy: mark all the queues and count what is ready; after a fault, take the marks away again. */
    method AltRdy(a: Alt, p: Prog) returns (nrdy: nat, e: Option<Exception>, ok: bool)
      requires Known(chans, SendOpts(a.sends)) && Known(chans, Receives(a)) && Absent(chans, p)
      modifies this`chans, this`regs
      ensures e == Fault(old(chans), a, p) && (ok ==> regs == old(regs))
      ensures e.None? ==> ok && chans == Marked(old(chans), Rs(a), Ss(a), p) && nrdy == Counted(old(chans), a, p)
      ensures e.Some? && ok ==> chans == old(chans)
      ensures e.Some? ==> (ok <==> Safe(old(chans), Rs(a), Added(Marked(old(chans), Rs(a), [], p), a.sends, p)))
    {
      hide CountReady;
      hide Added;
      hide Safe;
      hide Absent;
      hide SendFault;
      hide Known;
      hide Marked;
      hide SendOpts;
      hide RecvOpts;
      ghost var m := chans;
      KnownMarked(m, a, p);
      var n1, e1 := MarkReceives(|a.sends|, a.recvs, p);
      ghost var mr := chans;
      var n2;
      ghost var added;
      n2, e, added := MarkSends(a.sends, p, e1);
      nrdy, ok := n1 + n2, true;
      MarkedBoth(m, mr, a, added, p);
      if e.Some? {
        ok := Retract(m, a, added, p);
      }
    }

    // ----- communication

    /** isend: hand the value to a waiting receiver, or put it into the buffer, or wait.  `ok` says that no queue has been
        left a nil pointer. */
    method ISend(p: Prog, c: ChanId, v: Value) returns (ok: bool)
      requires c in chans && (chans[c].recv != [] ==> Waits(Now(), p, chans[c].recv[0]))
      modifies this
      ensures ok <==> old(PartnerWakes(Now(), c, true))
      ensures ok ==> Now() == SendTo(old(Now()), p, c, v)
      ensures ok ==> PartnerTold(old(Now()), c, true, regs)
    {
      hide PartnerTold;
      SendTells(Now(), p, c, v);
      var ch := chans[c];
      if ch.recv == [] {
        if CanPut(ch) {
          chans := chans[c := ch.(buf := ch.buf + [v])];
          log := log + [Sent(c, p, v)];
        } else {
          chans := chans[c := ch.(send := ch.send + [p])];
          st := st[p := Sending(c, v)];
        }
        return true;
      }
      hide First;
      hide Freed;
      hide AllRemovable;
      hide InPlace;
      hide AltOk;
      hide Unmarked;
      hide Known;
      ghost var vm := Now();
      var r := ch.recv[0];
      chans := chans[c := ch.(recv := ch.recv[1..])];
      Popped(vm.chans, c, false, st[r]);
      Wakeable(vm.chans, c, false, r, st[r]);
      hide Wakes;
      if st[r].Alting? {
        var x;
        ok, x := AltDone(st[r].a, r, Some(c), 1);
        if !ok {
          return;
        }
      }
      ok := true;
      st := st[r := Running];
      log := log + [Sent(c, p, v), Got(c, r, v)];
    }

    /** irecv: take a value from the buffer or from a waiting sender, or wait. */
    method IRecv(p: Prog, c: ChanId) returns (ok: bool)
      requires c in chans && (chans[c].send != [] ==> Waits(Now(), p, chans[c].send[0]) && |chans[c].buf| == chans[c].cap)
      modifies this
      ensures ok <==> old(PartnerWakes(Now(), c, false))
      ensures ok ==> Now() == ReceiveFrom(old(Now()), p, c)
      ensures ok ==> PartnerTold(old(Now()), c, false, regs)
    {
      hide PartnerTold;
      ReceiveTells(Now(), p, c);
      var ch := chans[c];
      if ch.send == [] {
        if CanGet(ch) {
          chans := chans[c := ch.(buf := ch.buf[1..])];
          log := log + [Got(c, p, ch.buf[0])];
        } else {
          chans := chans[c := ch.(recv := ch.recv + [p])];
          st := st[p := Receiving(c)];
        }
        return true;
      }
      hide First;
      hide Freed;
      hide AllRemovable;
      hide InPlace;
      hide AltOk;
      hide Unmarked;
      hide Known;
      ghost var vm := Now();
      var s := ch.send[0];
      FreedAt(vm.chans, c, s);
      SenderOffers(vm.chans, c, st[s]);
      chans := chans[c := ch.(send := ch.send[1..])];
      Popped(vm.chans, c, true, st[s]);
      Wakeable(vm.chans, c, true, s, st[s]);
      hide Wakes;
      var v := 0;
      if st[s].Alting? {
        var x;
        ok, x := AltDone(st[s].a, s, Some(c), 0);
        if !ok {
          return;
        }
        v := x;
      } else {
        v := st[s].v;
      }
      ok := true;
      st := st[s := Running];
      if ch.cap > 0 {
        // cgetb, then cputb
        chans := chans[c := chans[c].(buf := ch.buf[1..] + [v])];
        log := log + [Got(c, p, ch.buf[0]), Sent(c, s, v)];
      } else {
        log := log + [Sent(c, s, v), Got(c, p, v)];
      }
    }

    /** The test `ready && which-- == 0` of altcomm, and the communication if it succeeds. */
    method TryOption(o: Opt, p: Prog, w: nat) returns (done: bool, mine: bool, ok: bool, w': nat)
      requires o.c in chans && (Mine(chans, o, p) || PartnerOk(Now(), p, o))
      modifies this
      ensures done <==> Ready(old(chans), o) && w == 0
      ensures done ==> Acts(old(Now()), p, o, Now(), mine, ok)
      ensures !done ==> Now() == old(Now()) && w' == w - if Ready(chans, o) then 1 else 0
    {
      hide SendTo;
      hide ReceiveFrom;
      hide Waits;
      hide Wakes;
      done, mine, ok, w' := false, false, false, w;
      if Ready(chans, o) {
        if w > 0 {
          w' := w - 1;
          return;
        }
        done := true;
        if !o.sends && chans[o.c].send != [] && chans[o.c].send[0] == p {
          mine := true;
          return;
        }
        WaitsNoted(Now(), p, o);
        regs := regs[p := Reg(o.n, o.an)];
        if o.sends {
          ok := ISend(p, o.c, o.v);
        } else {
          ok := IRecv(p, o.c);
        }
      }
    }

    /** The loop over an array of channels in altcomm. */
    method CommElems(n: nat, cs: seq<Option<ChanId>>, p: Prog, w0: nat, ghost pre: seq<Opt>, ghost all: seq<Opt>, ghost which: nat)
      returns (done: bool, mine: bool, ok: bool, w: nat, ghost k: nat)
      requires Trying(Now(), p, pre, all, w0, which) && pre + ElemOpts(n, cs) <= all
      modifies this
      ensures done ==> Chose(old(chans), all, k, which) && all[k].c in old(chans) && Acts(old(Now()), p, all[k], Now(), mine, ok)
      ensures !done ==> Now() == old(Now()) && Trying(Now(), p, pre + ElemOpts(n, cs), all, w, which)
    {
      hide Trying;
      hide Chose;
      hide Acts;
      hide Mine;
      done, mine, ok, w, k := false, false, false, w0, 0;
      assert cs[..0] == [] && pre + [] == pre;
      for j := 0 to |cs|
        invariant Now() == old(Now()) && !done
        invariant Trying(Now(), p, pre + ElemOpts(n, cs[..j]), all, w, which)
      {
        ElemOptsPrefix(n, cs, j);
        if cs[j].Some? {
          var o := Opt(false, cs[j].value, 0, n, Some(j));
          ghost var os := pre + ElemOpts(n, cs[..j]);
          assert os + [o] == pre + ElemOpts(n, cs[..j + 1]) <= pre + ElemOpts(n, cs) <= all;
          hide ElemOpts;
          ChooseStep(Now(), p, os, o, all, w, which);
          done, mine, ok, w := TryOption(o, p, w);
          if done {
            k := |os|;
            return;
          }
        } else {
          assert ElemOpts(n, cs[..j + 1]) == ElemOpts(n, cs[..j]);
        }
      }
      assert cs[..|cs|] == cs;
    }

    /** The first loop of altcomm. */
    method CommSends(ss: seq<SendCase>, p: Prog, ghost all: seq<Opt>, which: nat) returns (done: bool, mine: bool, ok: bool, w: nat, ghost k: nat)
      requires Trying(Now(), p, [], all, which, which) && SendOpts(ss) <= all && forall i :: 0 <= i < |ss| ==> ss[i].c.Some?
      modifies this
      ensures done ==> Chose(old(chans), all, k, which) && all[k].c in old(chans) && Acts(old(Now()), p, all[k], Now(), mine, ok)
      ensures !done ==> Now() == old(Now()) && Trying(Now(), p, SendOpts(ss), all, w, which)
    {
      hide Trying;
      hide Chose;
      hide Acts;
      hide Mine;
      done, mine, ok, w, k := false, false, false, which, 0;
      assert ss[..0] == [];
      for n := 0 to |ss|
        invariant Now() == old(Now()) && !done
        invariant Trying(Now(), p, SendOpts(ss[..n]), all, w, which)
      {
        SendOptsPrefix(ss, n);
        var o := Opt(true, ss[n].c.value, ss[n].v, n, None);
        ghost var os := SendOpts(ss[..n]);
        assert os + [o] == SendOpts(ss[..n + 1]) <= SendOpts(ss) <= all;
        hide SendOpts;
        ChooseStep(Now(), p, os, o, all, w, which);
        done, mine, ok, w := TryOption(o, p, w);
        if done {
          k := |os|;
          return;
        }
      }
      assert ss[..|ss|] == ss;
    }

    /** One receive case of altcomm. */
    method CommCase(n: nat, r: RecvCase, p: Prog, w0: nat, ghost pre: seq<Opt>, ghost all: seq<Opt>, ghost which: nat)
      returns (done: bool, mine: bool, ok: bool, w: nat, ghost k: nat)
      requires Trying(Now(), p, pre, all, w0, which) && pre + CaseOpts(n, r) <= all && r != One(None)
      modifies this
      ensures done ==> Chose(old(chans), all, k, which) && all[k].c in old(chans) && Acts(old(Now()), p, all[k], Now(), mine, ok)
      ensures !done ==> Now() == old(Now()) && Trying(Now(), p, pre + CaseOpts(n, r), all, w, which)
    {
      hide Trying;
      hide Chose;
      hide Acts;
      hide Mine;
      match r {
        case One(c) =>
          var o := Opt(false, c.value, 0, n, None);
          ChooseStep(Now(), p, pre, o, all, w0, which);
          done, mine, ok, w := TryOption(o, p, w0);
          k := |pre|;
        case Many(cs) =>
          done, mine, ok, w, k := CommElems(n, cs, p, w0, pre, all, which);
      }
    }

    /** The second loop of altcomm. */
    method CommReceives(base: nat, rs: seq<RecvCase>, p: Prog, w0: nat, ghost pre: seq<Opt>, ghost all: seq<Opt>, ghost which: nat)
      returns (done: bool, mine: bool, ok: bool, w: nat, ghost k: nat)
      requires Trying(Now(), p, pre, all, w0, which) && pre + RecvOpts(base, rs) <= all && forall i :: 0 <= i < |rs| ==> rs[i] != One(None)
      modifies this
      ensures done ==> Chose(old(chans), all, k, which) && all[k].c in old(chans) && Acts(old(Now()), p, all[k], Now(), mine, ok)
      ensures !done ==> Now() == old(Now()) && Trying(Now(), p, pre + RecvOpts(base, rs), all, w, which)
    {
      hide Trying;
      hide Chose;
      hide Acts;
      hide Mine;
      hide CaseOpts;
      done, mine, ok, w, k := false, false, false, w0, 0;
      assert rs[..0] == [] && pre + RecvOpts(base, []) == pre;
      for i := 0 to |rs|
        invariant Now() == old(Now()) && !done
        invariant Trying(Now(), p, pre + RecvOpts(base, rs[..i]), all, w, which)
      {
        RecvOptsPrefix(base, rs, i);
        ghost var os := pre + RecvOpts(base, rs[..i]);
        assert os + CaseOpts(base + i, rs[i]) == pre + RecvOpts(base, rs[..i + 1]) <= pre + RecvOpts(base, rs) <= all;
        hide RecvOpts;
        done, mine, ok, w, k := CommCase(base + i, rs[i], p, w, os, all, which);
        if done {
          return;
        }
      }
      assert rs[..|rs|] == rs;
    }

    /** altcomm: communicate on the ready option with number `which`. */
    method AltComm(a: Alt, p: Prog, which: nat) returns (done: bool, mine: bool, ok: bool, ghost k: nat)
      requires Trying(Now(), p, [], Options(a), which, which) && !HasNil(a)
      modifies this
      ensures Known(old(chans), Options(a)) && (done <==> which < CountReady(old(chans), Options(a)))
      ensures done ==> Chose(old(chans), Options(a), k, which) && Options(a)[k].c in old(chans) && Acts(old(Now()), p, Options(a)[k], Now(), mine, ok)
      ensures done && ok ==> Reports(old(Now()), Now(), p, a) && p in regs && regs[p] == RegOf(Options(a)[k])
      ensures !done ==> Now() == old(Now())
    {
      hide Reports;
      hide Trying;
      hide Chose;
      hide Acts;
      hide Mine;
      hide CountReady;
      hide SendOpts;
      hide RecvOpts;
      ghost var all := Options(a);
      TryingKnown(Now(), p, [], all, which, which);
      var w;
      done, mine, ok, w, k := CommSends(a.sends, p, all, which);
      if !done {
        done, mine, ok, w, k := CommReceives(|a.sends|, a.recvs, p, w, SendOpts(a.sends), all, which);
      }
      if done {
        ChoseCounted(old(chans), all, k, which);
        if ok {
          ActsReport(old(Now()), p, a, k, which, Now(), mine);
        }
      } else {
        TryingAll(Now(), p, all, w, which);
      }
    }

    /** xecalt: `rnd` is the random number, `block` whether to wait if nothing is ready.  `ok` says that no queue has been
        destroyed and no mark taken for a sender; then the result is as specified, and the invariant is kept. */
    method XecAlt(p: Prog, a: Alt, block: bool, rnd: nat) returns (out: Outcome, ok: bool, ghost k: nat)
      requires Inv(Now()) && StateOf(Now(), p).Running? && Known(chans, Options(a))
      modifies this
      ensures Known(old(chans), SendOpts(a.sends)) && AltChoice(old(Now()), p, a, block, rnd, out, k)
      ensures ok <==> Intact(old(Now()), p, a, out, k)
      ensures ok ==> Now() == AltResult(old(Now()), p, a, out, k)
      ensures ok && out.Took? ==>
        Reports(old(Now()), Now(), p, a) && k < |Options(a)| && p in regs && regs[p] == RegOf(Options(a)[k])
      ensures ok ==> Inv(Now())
    {
      hide Reports;
      hide Inv;
      hide AltOk;
      hide Known;
      hide Absent;
      hide Fault;
      hide Counted;
      hide Marked;
      hide Unmarked;
      hide Safe;
      hide Added;
      hide AllRemovable;
      hide Trying;
      hide Chose;
      hide Take;
      hide CountReady;
      hide AltChoice;
      hide Options;
      hide SendOpts;
      hide Receives;
      hide Rs;
      hide Ss;
      hide HasNil;
      hide Note;
      hide Selected;
      hide StateOf;
      hide Mine;
      hide Own;
      ghost var vm := Now();
      AltBegins(vm, p, a);
      k := 0;
      var v;
      var nrdy, e;
      nrdy, e, ok := AltRdy(a, p);
      NoneSelected(a, p);
      if e.Some? {
        Raises(vm, p, a, block, rnd, k, e.value);
        out := Raised(e.value);
        return;
      }
      AltMarked(vm, p, a);
      if nrdy == 0 {
        if block {
          st := st[p := Alting(a)];
          Blocks(vm, p, a, rnd, k);
          out := Blocked;
          return;
        }
        regs := regs[p := Reg(|a.sends| + |a.recvs|, None)];
        RetractExact(vm.chans, chans, a, Ss(a), p);
        ok, v := AltDone(a, p, None, -1);
        Defaults(vm, p, a, rnd, k);
        out := Defaulted;
        return;
      }
      out, ok, k := Communicate(vm, p, a, block, rnd, nrdy);
    }

    /** The last two passes of xecalt. */
    method Communicate(ghost vm: Vm, p: Prog, a: Alt, ghost block: bool, rnd: nat, nrdy: nat) returns (out: Outcome, ok: bool, ghost k: nat)
      requires Inv(vm) && StateOf(vm, p).Running? && Known(vm.chans, Options(a))
      requires Known(vm.chans, SendOpts(a.sends)) && Known(vm.chans, Receives(a)) && Fault(vm.chans, a, p).None?
      requires nrdy == Counted(vm.chans, a, p) > 0 && Now() == vm.(chans := Marked(vm.chans, Rs(a), Ss(a), p))
      modifies this
      ensures AltChoice(vm, p, a, block, rnd, out, k) && (out == Took || out == Astray)
      ensures ok <==> Intact(vm, p, a, out, k)
      ensures ok ==> Now() == AltResult(vm, p, a, out, k) && Inv(Now())
      ensures ok ==> Reports(vm, Now(), p, a) && k < |Options(a)| && p in regs && regs[p] == RegOf(Options(a)[k])
    {
      hide Reports;
      hide Inv;
      hide Known;
      hide Fault;
      hide Counted;
      hide Marked;
      hide Unmarked;
      hide Safe;
      hide AllRemovable;
      hide Trying;
      hide Chose;
      hide Take;
      hide CountReady;
      hide AltChoice;
      hide AltResult;
      hide Options;
      hide SendOpts;
      hide Receives;
      hide Rs;
      hide Ss;
      hide HasNil;
      hide Note;
      hide Selected;
      hide StateOf;
      hide Mine;
      hide Own;
      hide PartnerWakes;
      hide PartnerLeft;
      AltMarked(vm, p, a);
      NoneSelected(a, p);
      var v, done, mine;
      done, mine, ok, k := AltComm(a, p, rnd % nrdy);
      Takes(vm, p, a, block, rnd, k);
      if mine {
        return Astray, false, k;
      }
      if !ok {
        return Took, false, k;
      }
      ok, v := AltDone(a, p, None, -1);
      if ok {
        TookReports(vm, p, a, block, rnd, k);
      }
      out := Took;
    }
  }

  // ----- whole runs

  /** What a running prog may do next. */
  datatype Op = DoSend(p: Prog, c: ChanId, v: Value) | DoReceive(p: Prog, c: ChanId) | DoAlt(p: Prog, a: Alt, block: bool, rnd: nat, out: Outcome, k: nat)

  /** An operation counts as a step if it destroys no queue and, for an alt, does not take its own mark for a sender. */
  ghost predicate Step(vm: Vm, op: Op, vm': Vm) {
    && StateOf(vm, op.p).Running?
    && match op
       case DoSend(p, c, v) => c in vm.chans && PartnerWakes(vm, c, true) && vm' == SendTo(vm, p, c, v)
       case DoReceive(p, c) => c in vm.chans && PartnerWakes(vm, c, false) && vm' == ReceiveFrom(vm, p, c)
       case DoAlt(p, a, block, rnd, out, k) =>
         && AltChoice(vm, p, a, block, rnd, out, k) && Intact(vm, p, a, out, k)
         && vm' == AltResult(vm, p, a, out, k)
  }

  lemma ChosenIn(vm: Vm, p: Prog, a: Alt, block: bool, rnd: nat, k: nat)
    requires AltChoice(vm, p, a, block, rnd, Took, k)
    ensures k < |Options(a)| && Options(a)[k].c in vm.chans
  {
  }

  lemma StepKeepsInv(vm: Vm, op: Op, vm': Vm)
    requires Inv(vm) && Step(vm, op, vm')
    ensures Inv(vm')
  {
    hide Inv;
    hide AltOk;
    hide Known;
    hide Fault;
    hide Counted;
    hide Marked;
    hide Options;
    hide SendOpts;
    hide Receives;
    hide StateOf;
    hide Take;
    hide SendTo;
    hide ReceiveFrom;
    hide Safe;
    hide Added;
    hide PartnerWakes;
    hide PartnerLeft;
    match op
    case DoSend(p, c, v) => SendKeepsInv(vm, p, c, v);
    case DoReceive(p, c) => ReceiveKeepsInv(vm, p, c);
    case DoAlt(p, a, block, rnd, out, k) =>
      match out {
        case Raised(_) =>
        case Blocked => Blocks(vm, p, a, rnd, k);
        case Defaulted => Defaults(vm, p, a, rnd, k);
        case Took =>
          ChosenIn(vm, p, a, block, rnd, k);
          TakeKeepsInv(vm, p, Options(a)[k]);
        case Astray =>
      }
  }

  /** First come, first served: in every queue those who stay keep their order and the running prog joins at the end, and
      whoever communicates with it was first in its queue. */
  lemma StepKeepsOrder(vm: Vm, op: Op, vm': Vm)
    requires Step(vm, op, vm')
    ensures QueuesInOrder(vm.chans, vm'.chans, op.p) && PartnersFirst(vm, vm', op.p)
  {
    hide QueuesInOrder;
    hide AltOk;
    hide Known;
    hide Fault;
    hide Counted;
    hide Marked;
    hide Options;
    hide SendOpts;
    hide Receives;
    hide StateOf;
    hide SendTo;
    hide ReceiveFrom;
    hide Safe;
    hide Added;
    hide PartnerWakes;
    hide PartnerLeft;
    match op
    case DoSend(p, c, v) => SendInOrder(vm, p, c, v);
    case DoReceive(p, c) => ReceiveInOrder(vm, p, c);
    case DoAlt(p, a, block, rnd, out, k) =>
      match out {
        case Blocked => MarkedInOrder(vm.chans, Rs(a), Ss(a), p);
        case Took =>
          ChosenIn(vm, p, a, block, rnd, k);
          var o := Options(a)[k];
          var vm1 := vm.(regs := Note(vm.regs, p, Some(o)));
          if o.sends {
            SendInOrder(vm1, p, o.c, o.v);
          } else {
            ReceiveInOrder(vm1, p, o.c);
          }
        case _ => AllStay(vm.chans, vm'.chans, p);
      }
  }

  /** A machine in which nobody waits yet, and nothing has been sent. */
  ghost predicate Fresh(vm: Vm) {
    && vm.log == [] && (forall q :: StateOf(vm, q).Running?)
    && forall c :: c in vm.chans ==> vm.chans[c] == Chan(vm.chans[c].cap, [], [], [])
  }

  ghost predicate Run(vms: seq<Vm>, ops: seq<Op>) {
    |vms| == |ops| + 1 && Fresh(vms[0]) && forall i :: 0 <= i < |ops| ==> Step(vms[i], ops[i], vms[i + 1])
  }

  lemma {:induction false} RunKeepsInv(vms: seq<Vm>, ops: seq<Op>, i: nat)
    requires Run(vms, ops) && i < |vms|
    ensures Inv(vms[i])
  {
    if i == 0 {
      assert AllQuiet(vms[0].chans);
      forall q ensures InPlace(vms[0].chans, q, StateOf(vms[0], q)) {}
    } else {
      RunKeepsInv(vms, ops, i - 1);
      hide Inv;
      hide Fresh;
      assert Step(vms[i - 1], ops[i - 1], vms[i]);
      hide Step;
      StepKeepsInv(vms[i - 1], ops[i - 1], vms[i]);
    }
  }

  /** In every state of every run of any progs: a running prog is in no queue; no prog waits while there is something for
      it to take or room for what it sends; and each channel delivers exactly what was sent, in order. */
  lemma EveryRun(vms: seq<Vm>, ops: seq<Op>, i: nat, p: Prog, c: ChanId)
    requires Run(vms, ops) && i < |vms| && c in vms[i].chans
    ensures StateOf(vms[i], p).Running? ==> p !in vms[i].chans[c].recv && p !in vms[i].chans[c].send
    ensures Quiet(vms[i].chans[c])
    ensures Outs(vms[i].log, c) + vms[i].chans[c].buf == Ins(vms[i].log, c)
  {
    RunKeepsInv(vms, ops, i);
    InvAt(vms[i], c);
    if StateOf(vms[i], p).Running? {
      RunningInPlace(vms[i], p);
      RunningAbsent(vms[i].chans, p);
    }
  }

  // ----- why channels must not be shared between the two sides of an alt, nor listed twice

  const SharedChans: Chans := map[0 := Chan(0, [], [], [2]), 1 := Chan(1, [5], [], [])]
  const SharedAlt := Alt([SendCase(Some(0), 9)], [One(Some(0)), One(Some(1))])
  const SharedSend := Opt(true, 0, 9, 0, None)
  const SharedOwn := Opt(false, 0, 0, 1, None)
  const SharedOther := Opt(false, 1, 0, 2, None)

  lemma SharedOptions()
    ensures SendOpts(SharedAlt.sends) == [SharedSend] && Receives(SharedAlt) == [SharedOwn, SharedOther]
    ensures Rs(SharedAlt) == [0, 1] && Ss(SharedAlt) == [0]
  {
    var a := SharedAlt;
    assert a.sends[..0] == [] && SendOpts([]) == [];
    assert a.recvs[..1] == [One(Some(0))] && a.recvs[..1][..0] == [] && RecvOpts(1, []) == [];
    assert RecvOpts(1, a.recvs[..1]) == [SharedOwn];
  }

  lemma SharedCounts()
    ensures Known(SharedChans, Receives(SharedAlt)) && CountReady(SharedChans, Receives(SharedAlt)) == 1
    ensures forall rs, ss :: 0 in rs ==> var mk := Marked(SharedChans, rs, ss, 1); Known(mk, [SharedSend]) && CountReady(mk, [SharedSend]) == 1
  {
    SharedOptions();
    var m := SharedChans;
    CountOne(m, SharedOwn);
    CountOne(m, SharedOther);
    CountAppend(m, [SharedOwn], [SharedOther]);
    assert [SharedOwn] + [SharedOther] == [SharedOwn, SharedOther];
    forall rs, ss | 0 in rs ensures var mk := Marked(m, rs, ss, 1); Known(mk, [SharedSend]) && CountReady(mk, [SharedSend]) == 1 {
      MarkedReady(m, rs, ss, 1, SharedSend);
      CountOne(Marked(m, rs, ss, 1), SharedSend);
    }
  }

  /** Prog 1 sends on channel 0, where prog 2 waits to receive, and receives on channels 0 and 1.  altrdy counts two ready
      cases, and altcomm, asked for the second, takes the receive on channel 0, on which nobody sends but prog 1 itself. */
  lemma SelfService()
    ensures var m, a := SharedChans, SharedAlt;
      && Known(m, SendOpts(a.sends)) && Known(m, Receives(a)) && Fault(m, a, 1).None? && Counted(m, a, 1) == 2
      && Chose(Marked(m, Rs(a), Ss(a), 1), Options(a), 1, 1) && !Ready(m, Options(a)[1])
  {
    var m, a := SharedChans, SharedAlt;
    SharedOptions();
    SharedCounts();
    hide CountReady;
    hide SendOpts;
    hide Receives;
    hide Rs;
    hide Ss;
    assert !HasNil(a);
    FaultIff(m, a, 1);
    hide Fault;
    MarkedReady(m, Rs(a), Ss(a), 1, SharedOwn);
    MarkedKeys(m, Rs(a), Ss(a), 1);
    hide Marked;
    assert Options(a) == [SharedSend, SharedOwn, SharedOther];
    assert Options(a)[..1] == [SharedSend];
  }

  /** Prog 2 waits to send on channel 0. */
  const SenderWaits := Vm(map[0 := Chan(0, [], [2], [])], map[2 := Sending(0, 9)], map[], [])

  /** Two receives on channel 0. */
  const TwiceAlt := Alt([], [One(Some(0)), One(Some(0))])

  lemma TwiceOptions()
    ensures SendOpts(TwiceAlt.sends) == [] && Options(TwiceAlt) == [Opt(false, 0, 0, 0, None), Opt(false, 0, 0, 1, None)]
    ensures Rs(TwiceAlt) == [0, 0] && Ss(TwiceAlt) == [] && Receives(TwiceAlt) == Options(TwiceAlt)
  {
    var rs := TwiceAlt.recvs;
    assert rs[..1] == [One(Some(0))] && rs[..1][..0] == [] && RecvOpts(0, []) == [];
    assert RecvOpts(0, rs[..1]) == [Opt(false, 0, 0, 0, None)];
  }

  lemma SenderWaitsInv()
    ensures Inv(SenderWaits) && Known(SenderWaits.chans, Options(TwiceAlt))
  {
    TwiceOptions();
    var vm := SenderWaits;
    forall q ensures InPlace(vm.chans, q, StateOf(vm, q)) {
      assert multiset([2])[q] == if q == 2 then 1 else 0;
    }
    assert Outs([], 0) + [] == Ins([], 0);
  }

  lemma TwiceBreaks(k: nat)
    ensures Known(SenderWaits.chans, SendOpts(TwiceAlt.sends)) && Known(SenderWaits.chans, Receives(TwiceAlt))
    ensures k < 2 ==> !Intact(SenderWaits, 1, TwiceAlt, Took, k)
    ensures Fault(SenderWaits.chans, TwiceAlt, 1).None? && Counted(SenderWaits.chans, TwiceAlt, 1) > 0
  {
    TwiceOptions();
    hide SendOpts;
    hide Receives;
    hide Options;
    hide Rs;
    hide Ss;
    var vm := SenderWaits;
    var m := vm.chans;
    assert Absent(m, 1);
    assert !HasNil(TwiceAlt);
    FaultIff(m, TwiceAlt, 1);
    CountZero(m, Receives(TwiceAlt));
    assert Ready(m, Receives(TwiceAlt)[0]);
    if k < 2 {
      var t := AltResult(vm, 1, TwiceAlt, Took, k).chans;
      assert t[0].recv == [];
      assert 0 in Rs(TwiceAlt) && multiset(Rs(TwiceAlt))[0] == 2;
    }
  }

  /** An alt with two receives on a channel where only a sender waits: the communication is made, but the queue of the
      channel is left a nil pointer. */
  method QueueDestroyed() returns (out: Outcome, ok: bool)
    ensures out == Took && !ok
  {
    var vm := new Interp;
    vm.chans, vm.st, vm.regs, vm.log := SenderWaits.chans, SenderWaits.st, SenderWaits.regs, [];
    SenderWaitsInv();
    ghost var k;
    out, ok, k := vm.XecAlt(1, TwiceAlt, true, 0);
    TwiceOptions();
    TwiceBreaks(k);
  }

  /** `n` receives on channel 0. */
  function Repeated(n: nat): Alt {
    Alt([], seq(n, _ => One(Some(0))))
  }

  lemma {:induction false} RepeatedOpts(n: nat)
    ensures var os := RecvOpts(0, Repeated(n).recvs); |os| == n && forall i :: 0 <= i < n ==> os[i] == Opt(false, 0, 0, i, None)
  {
    if n > 0 {
      RepeatedOpts(n - 1);
      assert Repeated(n).recvs[..n - 1] == Repeated(n - 1).recvs;
    }
  }

  lemma {:induction false} AllSame(cs: seq<ChanId>, c: ChanId)
    requires forall i :: 0 <= i < |cs| ==> cs[i] == c
    ensures forall d :: multiset(cs)[d] == if d == c then |cs| else 0
  {
    if cs != [] {
      AllSame(cs[1..], c);
      assert cs == [cs[0]] + cs[1..];
    }
  }

  lemma RepeatedNoNil(n: nat)
    ensures !HasNil(Repeated(n)) && Repeated(n).sends == [] && SendOpts([]) == []
  {
    hide RecvOpts;
  }

  lemma RepeatedIs(n: nat)
    ensures var a := Repeated(n);
      && Receives(a) == Options(a) && SendOpts(a.sends) == [] && Ss(a) == [] && !HasNil(a)
      && |Options(a)| == n && forall i :: 0 <= i < n ==> Options(a)[i].c == 0 && !Options(a)[i].sends
  {
    RepeatedNoNil(n);
    RepeatedOpts(n);
    hide Repeated;
    hide RecvOpts;
    hide HasNil;
    hide SendOpts;
    var a := Repeated(n);
    assert [] + Receives(a) == Receives(a);
  }

  lemma RepeatedCount(n: nat)
    ensures var a := Repeated(n);
      |Rs(a)| == n && (n > 0 ==> 0 in Rs(a)) && (forall c :: c in Rs(a) ==> c == 0) && forall d :: multiset(Rs(a))[d] == if d == 0 then n else 0
  {
    RepeatedIs(n);
    hide Repeated;
    hide RecvOpts;
    hide HasNil;
    hide SendOpts;
    hide Options;
    var a := Repeated(n);
    AllSame(Rs(a), 0);
    if n > 0 { assert Rs(a)[0] == 0; }
  }

  /** Nobody waits on channel 0. */
  const Idle := Vm(map[0 := Chan(0, [], [], [])], map[], map[], [])

  lemma IdleInv(n: nat)
    ensures Inv(Idle) && Known(Idle.chans, Options(Repeated(n))) && Absent(Idle.chans, 1)
  {
    RepeatedIs(n);
    hide Repeated;
    hide Options;
    forall q ensures InPlace(Idle.chans, q, StateOf(Idle, q)) {}
    assert Outs([], 0) + [] == Ins([], 0);
  }

  lemma IdleWaits(n: nat, rnd: nat, out: Outcome, k: nat)
    requires AltChoice(Idle, 1, Repeated(n), true, rnd, out, k)
    ensures out == Blocked
  {
    RepeatedIs(n);
    IdleInv(n);
    hide Repeated;
    hide Options;
    hide SendOpts;
    hide Receives;
    hide RecvOpts;
    hide HasNil;
    hide Inv;
    var m, a := Idle.chans, Repeated(n);
    FaultIff(m, a, 1);
    hide Fault;
    CountZero(m, Receives(a));
  }

  /** What is in the queue of channel 0 after that. */
  lemma IdleMarked(n: nat)
    requires n > 0
    ensures var m := Marked(Idle.chans, Rs(Repeated(n)), Ss(Repeated(n)), 1);
      0 in m && |m[0].recv| == n && forall i :: 0 <= i < n ==> m[0].recv[i] == 1
  {
    RepeatedIs(n);
    RepeatedCount(n);
    hide Repeated;
    hide Options;
    hide Rs;
    hide Ss;
    var q := Marked(Idle.chans, Rs(Repeated(n)), Ss(Repeated(n)), 1)[0].recv;
    assert q == Copies(1, n);
    CopiesAre(1, n);
  }

  lemma {:induction false} CopiesAre(p: Prog, n: nat)
    ensures |Copies(p, n)| == n && forall i :: 0 <= i < n ==> Copies(p, n)[i] == p
  {
    if n > 0 { CopiesAre(p, n - 1); }
  }

  /** Prog 1 waits in an alt with `n` receives on channel 0, and prog 2 sends there: the queue survives if there were at
      most two. */
  method WaitsRepeatedly(n: nat) returns (out: Outcome, ok: bool)
    requires n > 0
    ensures out == Blocked && (ok <==> n <= 2)
  {
    hide Inv;
    hide Marked;
    hide AltChoice;
    hide Options;
    hide SendOpts;
    hide Receives;
    hide Rs;
    hide Ss;
    hide HasNil;
    var vm := new Interp;
    vm.chans, vm.st, vm.regs, vm.log := Idle.chans, Idle.st, Idle.regs, [];
    IdleInv(n);
    ghost var k;
    out, ok, k := vm.XecAlt(1, Repeated(n), true, 0);
    IdleWaits(n, 0, out, k);
    IdleMarked(n);
    RepeatedWaits(n, vm.Now());
    ok := vm.ISend(2, 0, 9);
  }

  lemma RepeatedWaits(n: nat, vm: Vm)
    requires n > 0 && vm == AltResult(Idle, 1, Repeated(n), Blocked, 0) && Inv(vm)
    ensures 0 in vm.chans && vm.chans[0].recv != [] && Waits(vm, 2, vm.chans[0].recv[0])
    ensures PartnerWakes(vm, 0, true) <==> n <= 2
  {
    IdleMarked(n);
    hide Marked;
    hide Repeated;
    hide Options;
    hide Rs;
    hide Ss;
    hide Wakes;
    assert InPlace(vm.chans, 1, StateOf(vm, 1)) && AltOk(vm.chans, Repeated(n));
    hide InPlace;
    hide Inv;
    hide AltOk;
    RepeatedWakes(n, vm.chans);
  }

  lemma RepeatedWakes(n: nat, m: Chans)
    requires n > 0 && 0 in m && |m[0].recv| == n && forall i :: 0 <= i < n ==> m[0].recv[i] == 1
    ensures Wakes(m, 0, false, 1, Alting(Repeated(n))) <==> n <= 2
  {
    RepeatedIs(n);
    RepeatedCount(n);
    hide Repeated;
    hide Options;
    hide Rs;
    hide Ss;
    hide SendOpts;
    hide Receives;
    assert !Others(m[0].recv, 1);
  }
}
