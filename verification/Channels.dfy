/**
  Channels of the Dis virtual machine: their queues of waiting progs (Progq, libinterp/xec.c), and what sending,
  receiving and `alt` (libinterp/alt.c) mean as changes of one value.  Module Alternation has the code that makes them.
 */
module Channels {
  import opened Wrappers

  type Prog = nat
  type ChanId = nat
  type Value = nat

  // ----- Progq: a linked list that always has a node; the empty queue is one node without a prog

  datatype Progq = Nil | Node(prog: Option<Prog>, next: Progq)

  predicate Full(q: Progq) {
    q.Node? ==> q.prog.Some? && Full(q.next)
  }

  predicate Proper(q: Progq) {
    q.Node? && Full(q.next) && (q.prog.None? ==> q.next.Nil?)
  }

  /** The progs waiting, first to last. */
  function Waiting(q: Progq): seq<Prog> {
    if q.Nil? then [] else (if q.prog.Some? then [q.prog.value] else []) + Waiting(q.next)
  }

  function Append(q: Progq, n: Progq): Progq {
    if q.Nil? then n else q.(next := Append(q.next, n))
  }

  function CqAdd(q: Progq, p: Prog): Progq
    requires q.Node?
  {
    if q.prog.None? then q.(prog := Some(p)) else Append(q, Node(Some(p), Nil))
  }

  function CqDel(q: Progq): Progq
    requires q.Node?
  {
    if q.next.Nil? then q.(prog := None) else q.next
  }

  function Sweep(q: Progq, p: Prog): Progq {
    if q.Nil? then Nil else if q.prog == Some(p) then Sweep(q.next, p) else q.(next := Sweep(q.next, p))
  }

  function CqDelP(q: Progq, p: Prog): Progq
    requires q.Node?
  {
    if q.next.Nil? then (if q.prog == Some(p) then q.(prog := None) else q) else Sweep(q, p)
  }

  function Without(s: seq<Prog>, p: Prog): (r: seq<Prog>)
    ensures |r| <= |s|
  {
    if s == [] then [] else if s[0] == p then Without(s[1..], p) else [s[0]] + Without(s[1..], p)
  }

  /** Taking `p` out leaves the queue its one node. */
  predicate Removable(s: seq<Prog>, p: Prog) {
    |s| <= 1 || exists i :: 0 <= i < |s| && s[i] != p
  }

  lemma {:induction false} AppendWaits(q: Progq, p: Prog)
    requires Full(q)
    ensures Full(Append(q, Node(Some(p), Nil))) && Waiting(Append(q, Node(Some(p), Nil))) == Waiting(q) + [p]
  {
    if q.Node? {
      AppendWaits(q.next, p);
    }
  }

  lemma CqAddWaits(q: Progq, p: Prog)
    requires Proper(q)
    ensures Proper(CqAdd(q, p)) && Waiting(CqAdd(q, p)) == Waiting(q) + [p]
  {
    if q.prog.Some? {
      AppendWaits(q, p);
    }
  }

  lemma CqDelWaits(q: Progq)
    requires Proper(q) && Waiting(q) != []
    ensures Proper(CqDel(q)) && Waiting(CqDel(q)) == Waiting(q)[1..]
  {
  }

  lemma {:induction false} SweepWaits(q: Progq, p: Prog)
    requires Full(q)
    ensures Full(Sweep(q, p)) && Waiting(Sweep(q, p)) == Without(Waiting(q), p)
  {
    if q.Node? {
      SweepWaits(q.next, p);
      assert Waiting(q)[1..] == Waiting(q.next);
    }
  }

  lemma {:induction false} WithoutAll(s: seq<Prog>, p: Prog)
    ensures Without(s, p) == [] <==> forall i :: 0 <= i < |s| ==> s[i] == p
  {
    if s != [] {
      WithoutAll(s[1..], p);
      assert forall i :: 1 <= i < |s| ==> s[i] == s[1..][i - 1];
    }
  }

  /** cqdelp takes every occurrence of `p` out of the queue; but if the queue has several nodes, all of them for `p`, it
      frees them all and leaves a nil pointer, which no other code is prepared to find. */
  lemma CqDelPWaits(q: Progq, p: Prog)
    requires Proper(q)
    ensures CqDelP(q, p) == Nil <==> !Removable(Waiting(q), p)
    ensures Removable(Waiting(q), p) ==> Proper(CqDelP(q, p)) && Waiting(CqDelP(q, p)) == Without(Waiting(q), p)
  {
    if q.next.Nil? {
      assert |Waiting(q)| <= 1;
    } else {
      SweepWaits(q, p);
      WithoutAll(Waiting(q), p);
      assert |Waiting(q.next)| >= 1;
    }
  }

  // ----- the machine

  /** A channel: the size of its buffer (0 if it has none), the values in it, and the two queues. */
  datatype Chan = Chan(cap: nat, buf: seq<Value>, send: seq<Prog>, recv: seq<Prog>)

  predicate CanGet(c: Chan) { |c.buf| > 0 }

  predicate CanPut(c: Chan) { |c.buf| < c.cap }

  /** The cases of an alt.  None stands for a nil channel; a receive may be from an array of channels. */
  datatype SendCase = SendCase(c: Option<ChanId>, v: Value)
  datatype RecvCase = One(c: Option<ChanId>) | Many(cs: seq<Option<ChanId>>)
  datatype Alt = Alt(sends: seq<SendCase>, recvs: seq<RecvCase>)

  /** One way to go on: send `v` or receive on channel `c`; `n` is the number of the case, `an` the position in an array. */
  datatype Opt = Opt(sends: bool, c: ChanId, v: Value, n: nat, an: Option<nat>)

  function SendOpts(ss: seq<SendCase>): seq<Opt> {
    if ss == [] then []
    else
      var n := |ss| - 1;
      SendOpts(ss[..n]) + if ss[n].c.None? then [] else [Opt(true, ss[n].c.value, ss[n].v, n, None)]
  }

  function ElemOpts(n: nat, cs: seq<Option<ChanId>>): seq<Opt> {
    if cs == [] then []
    else
      var an := |cs| - 1;
      ElemOpts(n, cs[..an]) + if cs[an].None? then [] else [Opt(false, cs[an].value, 0, n, Some(an))]
  }

  function CaseOpts(n: nat, r: RecvCase): seq<Opt> {
    match r
    case One(c) => if c.None? then [] else [Opt(false, c.value, 0, n, None)]
    case Many(cs) => ElemOpts(n, cs)
  }

  function RecvOpts(base: nat, rs: seq<RecvCase>): seq<Opt> {
    if rs == [] then []
    else
      var i := |rs| - 1;
      RecvOpts(base, rs[..i]) + CaseOpts(base + i, rs[i])
  }

  function Receives(a: Alt): seq<Opt> { RecvOpts(|a.sends|, a.recvs) }

  function Options(a: Alt): seq<Opt> { SendOpts(a.sends) + Receives(a) }

  function ChansOf(os: seq<Opt>): (cs: seq<ChanId>)
    ensures |cs| == |os| && forall i :: 0 <= i < |os| ==> cs[i] == os[i].c
  {
    seq(|os|, i requires 0 <= i < |os| => os[i].c)
  }

  /** The channels an alt receives from, and those it sends on, with repetitions. */
  function Rs(a: Alt): seq<ChanId> { ChansOf(Receives(a)) }

  function Ss(a: Alt): seq<ChanId> { ChansOf(SendOpts(a.sends)) }

  function First(os: seq<Opt>, c: ChanId): Option<Opt> {
    if os == [] then None
    else if os[0].c == c then Some(os[0])
    else First(os[1..], c)
  }

  /** What a prog is doing. */
  datatype State = Running | Sending(c: ChanId, v: Value) | Receiving(c: ChanId) | Alting(a: Alt)

  /** The number of the case an alt took, and the position in its array of channels. */
  datatype Reg = Reg(n: nat, an: Option<nat>)

  datatype Event = Sent(c: ChanId, who: Prog, v: Value) | Got(c: ChanId, who: Prog, v: Value)

  type Chans = map<ChanId, Chan>

  datatype Vm = Vm(chans: Chans, st: map<Prog, State>, regs: map<Prog, Reg>, log: seq<Event>)

  predicate Ready(m: Chans, o: Opt)
    requires o.c in m
  {
    if o.sends then m[o.c].recv != [] || CanPut(m[o.c]) else m[o.c].send != [] || CanGet(m[o.c])
  }

  predicate Known(m: Chans, os: seq<Opt>) {
    forall i :: 0 <= i < |os| ==> os[i].c in m
  }

  function CountReady(m: Chans, os: seq<Opt>): (n: nat)
    requires Known(m, os)
    ensures n <= |os|
  {
    if os == [] then 0
    else CountReady(m, os[..|os| - 1]) + if Ready(m, os[|os| - 1]) then 1 else 0
  }

  // ----- communication

  /** A channel, and all channels, without prog `r` in their queues. */
  function FreeChan(ch: Chan, r: Prog): Chan {
    ch.(recv := Without(ch.recv, r), send := Without(ch.send, r))
  }

  function Freed(m: Chans, r: Prog): Chans {
    map c | c in m :: FreeChan(m[c], r)
  }

  /** The number of the case taken is stored where the alt asked for it. */
  function Note(regs: map<Prog, Reg>, q: Prog, o: Option<Opt>): map<Prog, Reg> {
    if o.Some? then regs[q := Reg(o.value.n, o.value.an)] else regs
  }

  /** `r` goes on running, in none of the queues; if it was in an alt, it learns which case was taken. */
  function Wake(vm: Vm, r: Prog, o: Option<Opt>): Vm {
    vm.(chans := Freed(vm.chans, r), st := vm.st[r := Running], regs := Note(vm.regs, r, o))
  }

  /** The case of a waiting prog that communication on `c` takes, if it is in an alt. */
  function Taken(s: State, sends: bool, c: ChanId): Option<Opt> {
    if !s.Alting? then None else First(if sends then SendOpts(s.a.sends) else Receives(s.a), c)
  }

  function StateOf(vm: Vm, p: Prog): State {
    if p in vm.st then vm.st[p] else Running
  }

  /** The value a waiting sender offers on `c`. */
  function Offer(s: State, c: ChanId): Value {
    if s.Sending? then s.v
    else var o := Taken(s, true, c); if o.Some? then o.value.v else 0
  }

  /** A running prog sends `v` on `c`: to the first waiting receiver, into the buffer, or else it waits. */
  function SendTo(vm: Vm, p: Prog, c: ChanId, v: Value): Vm
    requires c in vm.chans
  {
    var ch := vm.chans[c];
    if ch.recv != [] then
      var r := ch.recv[0];
      Wake(vm, r, Taken(StateOf(vm, r), false, c)).(log := vm.log + [Sent(c, p, v), Got(c, r, v)])
    else if CanPut(ch) then
      vm.(chans := vm.chans[c := ch.(buf := ch.buf + [v])], log := vm.log + [Sent(c, p, v)])
    else
      vm.(chans := vm.chans[c := ch.(send := ch.send + [p])], st := vm.st[p := Sending(c, v)])
  }

  /** A running prog receives on `c`: from the buffer, from the first waiting sender, or else it waits.  A waiting sender
      is let go on, and if there is a buffer its value goes there. */
  function ReceiveFrom(vm: Vm, p: Prog, c: ChanId): Vm
    requires c in vm.chans
  {
    var ch := vm.chans[c];
    if ch.send != [] then
      var s := ch.send[0];
      var v := Offer(StateOf(vm, s), c);
      var w := Wake(vm, s, Taken(StateOf(vm, s), true, c));
      if CanGet(ch) then
        w.(chans := w.chans[c := w.chans[c].(buf := ch.buf[1..] + [v])], log := vm.log + [Got(c, p, ch.buf[0]), Sent(c, s, v)])
      else
        w.(log := vm.log + [Sent(c, s, v), Got(c, p, v)])
    else if CanGet(ch) then
      vm.(chans := vm.chans[c := ch.(buf := ch.buf[1..])], log := vm.log + [Got(c, p, ch.buf[0])])
    else
      vm.(chans := vm.chans[c := ch.(recv := ch.recv + [p])], st := vm.st[p := Receiving(c)])
  }

  /** Taking one option of an alt is a plain send or receive on its channel, with the number of the case noted. */
  function Take(vm: Vm, p: Prog, o: Opt): Vm
    requires o.c in vm.chans
  {
    var vm1 := vm.(regs := Note(vm.regs, p, Some(o)));
    if o.sends then SendTo(vm1, p, o.c, o.v) else ReceiveFrom(vm1, p, o.c)
  }

  // ----- waiting on many queues

  function Copies(p: Prog, k: nat): seq<Prog> {
    if k == 0 then [] else Copies(p, k - 1) + [p]
  }

  function MarkChan(ch: Chan, j: nat, k: nat, p: Prog): Chan {
    ch.(recv := ch.recv + Copies(p, j), send := ch.send + Copies(p, k))
  }

  /** `p` added to the receive queues of `rs` and the send queues of `ss`, as often as they are listed. */
  function Marked(m: Chans, rs: seq<ChanId>, ss: seq<ChanId>, p: Prog): Chans {
    map c | c in m :: MarkChan(m[c], multiset(rs)[c], multiset(ss)[c], p)
  }

  function UnmarkChan(ch: Chan, r: bool, s: bool, p: Prog): Chan {
    ch.(recv := if r then Without(ch.recv, p) else ch.recv, send := if s then Without(ch.send, p) else ch.send)
  }

  /** `p` taken out of the receive queues of `rs` and the send queues of `ss`. */
  function Unmarked(m: Chans, rs: seq<ChanId>, ss: seq<ChanId>, p: Prog): Chans {
    map c | c in m :: UnmarkChan(m[c], c in rs, c in ss, p)
  }

  // ----- the invariant

  predicate Disjoint(rs: seq<ChanId>, ss: seq<ChanId>) {
    forall c :: c in rs ==> c !in ss
  }

  /** How often a prog should be in the receive, or send, queue of `c`. */
  function WantsRecv(s: State, c: ChanId): nat {
    match s
    case Receiving(d) => if d == c then 1 else 0
    case Alting(a) => multiset(Rs(a))[c]
    case _ => 0
  }

  function WantsSend(s: State, c: ChanId): nat {
    match s
    case Sending(d, _) => if d == c then 1 else 0
    case Alting(a) => multiset(Ss(a))[c]
    case _ => 0
  }

  /** The queues hold exactly the progs that wait, each as often as it waits there. */
  ghost predicate Queued(vm: Vm) {
    forall q :: InPlace(vm.chans, q, StateOf(vm, q))
  }

  /** Prog `q`, in state `s`, is in the queues it waits in and no others. */
  ghost predicate InPlace(m: Chans, q: Prog, s: State) {
    forall c :: c in m ==> multiset(m[c].recv)[q] == WantsRecv(s, c) && multiset(m[c].send)[q] == WantsSend(s, c)
  }

  /** No prog waits for what it could have. */
  predicate Quiet(c: Chan) {
    && |c.buf| <= c.cap
    && (c.recv != [] ==> c.send == [] && !CanGet(c))
    && (c.send != [] ==> !CanPut(c))
  }

  /** The channels of the alt exist. */
  ghost predicate AltOk(m: Chans, a: Alt) {
    Known(m, Options(a))
  }

  ghost predicate AltsOk(vm: Vm) {
    forall q :: StateOf(vm, q).Alting? ==> AltOk(vm.chans, StateOf(vm, q).a)
  }

  /** The values taken from a channel, and those put in. */
  function Outs(log: seq<Event>, c: ChanId): seq<Value> {
    if log == [] then []
    else Outs(log[..|log| - 1], c) + var e := log[|log| - 1]; if e.Got? && e.c == c then [e.v] else []
  }

  function Ins(log: seq<Event>, c: ChanId): seq<Value> {
    if log == [] then []
    else Ins(log[..|log| - 1], c) + var e := log[|log| - 1]; if e.Sent? && e.c == c then [e.v] else []
  }

  /** Nothing is lost, repeated or reordered: what came out, followed by the buffer, is what went in. */
  ghost predicate Flow(vm: Vm) {
    forall c :: c in vm.chans ==> Outs(vm.log, c) + vm.chans[c].buf == Ins(vm.log, c)
  }

  ghost predicate AllQuiet(m: Chans) {
    forall c :: c in m ==> Quiet(m[c])
  }

  ghost predicate Inv(vm: Vm) {
    Queued(vm) && AllQuiet(vm.chans) && AltsOk(vm) && Flow(vm)
  }

  // ----- facts about queues

  lemma {:induction false} WithoutCount(s: seq<Prog>, p: Prog, q: Prog)
    ensures multiset(Without(s, p))[q] == if p == q then 0 else multiset(s)[q]
  {
    if s != [] {
      WithoutCount(s[1..], p, q);
      assert s == [s[0]] + s[1..];
    }
  }

  lemma {:induction false} WithoutAbsent(s: seq<Prog>, p: Prog)
    requires p !in s
    ensures Without(s, p) == s
  {
    if s != [] {
      WithoutAbsent(s[1..], p);
    }
  }

  lemma {:induction false} WithoutAppend(s: seq<Prog>, t: seq<Prog>, p: Prog)
    ensures Without(s + t, p) == Without(s, p) + Without(t, p)
  {
    hide Without;
    if s == [] {
      assert s + t == t;
      WithoutNone(p);
    } else {
      WithoutAppend(s[1..], t, p);
      assert (s + t)[1..] == s[1..] + t;
      WithoutCons(s, p);
      WithoutCons(s + t, p);
    }
  }

  lemma WithoutNone(p: Prog)
    ensures Without([], p) == []
  {
  }

  lemma WithoutCons(s: seq<Prog>, p: Prog)
    requires s != []
    ensures Without(s, p) == (if s[0] == p then [] else [s[0]]) + Without(s[1..], p)
  {
  }

  lemma {:induction false} CopiesWithout(p: Prog, k: nat, q: Prog)
    ensures Without(Copies(p, k), q) == if p == q then [] else Copies(p, k)
  {
    if k > 0 {
      CopiesWithout(p, k - 1, q);
      WithoutAppend(Copies(p, k - 1), [p], q);
      assert Without([p], q) == if p == q then [] else [p];
      hide Without;
    }
  }

  lemma {:induction false} CopiesCount(p: Prog, k: nat, q: Prog)
    ensures |Copies(p, k)| == k && (forall i :: 0 <= i < k ==> Copies(p, k)[i] == p)
    ensures multiset(Copies(p, k))[q] == if p == q then k else 0
  {
    if k > 0 {
      CopiesCount(p, k - 1, q);
    }
  }

  lemma {:induction false} CopiesAdd(p: Prog, j: nat, k: nat)
    ensures Copies(p, j + k) == Copies(p, j) + Copies(p, k)
  {
    if k > 0 {
      CopiesAdd(p, j, k - 1);
      assert Copies(p, j) + (Copies(p, k - 1) + [p]) == (Copies(p, j) + Copies(p, k - 1)) + [p];
    }
  }

  lemma InSeq<T>(s: seq<T>, x: T)
    ensures x in s <==> multiset(s)[x] > 0
  {
  }

  lemma MarkChanThen(ch: Chan, j: nat, k: nat, j': nat, k': nat, p: Prog)
    ensures MarkChan(MarkChan(ch, j, k, p), j', k', p) == MarkChan(ch, j + j', k + k', p)
  {
    CopiesAdd(p, j, j');
    CopiesAdd(p, k, k');
    hide Copies;
    assert ch.recv + Copies(p, j) + Copies(p, j') == ch.recv + (Copies(p, j) + Copies(p, j'));
    assert ch.send + Copies(p, k) + Copies(p, k') == ch.send + (Copies(p, k) + Copies(p, k'));
  }

  /** Marking in two parts. */
  lemma MarkedThen(m: Chans, rs: seq<ChanId>, ss: seq<ChanId>, rs': seq<ChanId>, ss': seq<ChanId>, p: Prog)
    ensures Marked(Marked(m, rs, ss, p), rs', ss', p) == Marked(m, rs + rs', ss + ss', p)
  {
    hide MarkChan;
    forall c | c in m ensures Marked(Marked(m, rs, ss, p), rs', ss', p)[c] == Marked(m, rs + rs', ss + ss', p)[c] {
      MarkChanThen(m[c], multiset(rs)[c], multiset(ss)[c], multiset(rs')[c], multiset(ss')[c], p);
    }
  }

  lemma FreeMarkChan(ch: Chan, j: nat, k: nat, p: Prog, q: Prog)
    ensures FreeChan(MarkChan(ch, j, k, p), q) == if p == q then FreeChan(ch, p) else MarkChan(FreeChan(ch, q), j, k, p)
  {
    CopiesWithout(p, j, q);
    CopiesWithout(p, k, q);
    WithoutAppend(ch.recv, Copies(p, j), q);
    WithoutAppend(ch.send, Copies(p, k), q);
    hide Without;
    hide Copies;
  }

  /** Marking, then letting go. */
  lemma FreedMarked(m: Chans, rs: seq<ChanId>, ss: seq<ChanId>, p: Prog, q: Prog)
    ensures Freed(Marked(m, rs, ss, p), q) == if p == q then Freed(m, p) else Marked(Freed(m, q), rs, ss, p)
  {
    hide MarkChan;
    hide FreeChan;
    forall c | c in m
      ensures Freed(Marked(m, rs, ss, p), q)[c] == (if p == q then Freed(m, p) else Marked(Freed(m, q), rs, ss, p))[c]
    {
      FreeMarkChan(m[c], multiset(rs)[c], multiset(ss)[c], p, q);
    }
  }

  ghost predicate Absent(m: Chans, p: Prog) {
    forall c :: c in m ==> p !in m[c].recv && p !in m[c].send
  }

  lemma FreedAbsent(m: Chans, p: Prog)
    requires Absent(m, p)
    ensures Freed(m, p) == m
  {
    forall c | c in m ensures Freed(m, p)[c] == m[c] {
      WithoutAbsent(m[c].recv, p);
      WithoutAbsent(m[c].send, p);
    }
  }

  lemma RunningAbsent(m: Chans, p: Prog)
    requires InPlace(m, p, Running)
    ensures Absent(m, p)
  {
    forall c | c in m ensures p !in m[c].recv && p !in m[c].send {
      assert multiset(m[c].recv)[p] == WantsRecv(Running, c) && multiset(m[c].send)[p] == 0;
    }
  }

  // ----- every step keeps the invariant

  lemma FreedInPlace(m: Chans, r: Prog, q: Prog, s: State)
    requires q != r ==> InPlace(m, q, s)
    ensures InPlace(Freed(m, r), q, if q == r then Running else s)
  {
    forall c | c in m
      ensures multiset(Freed(m, r)[c].recv)[q] == if q == r then 0 else WantsRecv(s, c)
      ensures multiset(Freed(m, r)[c].send)[q] == if q == r then 0 else WantsSend(s, c)
    {
      WithoutCount(m[c].recv, r, q);
      WithoutCount(m[c].send, r, q);
    }
  }

  lemma FreedQuiet(m: Chans, r: Prog)
    requires AllQuiet(m)
    ensures AllQuiet(Freed(m, r))
  {
    forall c | c in m ensures Quiet(Freed(m, r)[c]) {
      assert Quiet(m[c]);
    }
  }

  lemma WakeInv(vm: Vm, r: Prog, o: Option<Opt>)
    requires Inv(vm)
    ensures Inv(Wake(vm, r, o))
  {
    hide InPlace;
    hide AllQuiet;
    hide Outs;
    hide Ins;
    var w := Wake(vm, r, o);
    FreedQuiet(vm.chans, r);
    forall q ensures InPlace(w.chans, q, StateOf(w, q)) {
      FreedInPlace(vm.chans, r, q, StateOf(vm, q));
    }
    assert forall q :: q != r ==> StateOf(w, q) == StateOf(vm, q);
    assert forall c :: c in vm.chans ==> w.chans[c].buf == vm.chans[c].buf;
  }

  lemma LogOne(log: seq<Event>, e: Event, c: ChanId)
    ensures Outs(log + [e], c) == Outs(log, c) + if e.Got? && e.c == c then [e.v] else []
    ensures Ins(log + [e], c) == Ins(log, c) + if e.Sent? && e.c == c then [e.v] else []
  {
    assert (log + [e])[..|log|] == log;
  }

  lemma LogTwo(log: seq<Event>, e: Event, f: Event, c: ChanId)
    ensures Outs(log + [e, f], c) == Outs(log, c) + (if e.Got? && e.c == c then [e.v] else []) + (if f.Got? && f.c == c then [f.v] else [])
    ensures Ins(log + [e, f], c) == Ins(log, c) + (if e.Sent? && e.c == c then [e.v] else []) + (if f.Sent? && f.c == c then [f.v] else [])
  {
    LogOne(log, e, c);
    LogOne(log + [e], f, c);
    assert log + [e, f] == log + [e] + [f];
  }

  /** The same queues and states, with another buffer in `c` and the log to match. */
  lemma BufferInv(vm: Vm, c: ChanId, buf: seq<Value>, log: seq<Event>)
    requires Inv(vm) && c in vm.chans && Quiet(vm.chans[c].(buf := buf))
    requires Outs(log, c) + buf == Ins(log, c)
    requires forall d :: d != c ==> Outs(log, d) == Outs(vm.log, d) && Ins(log, d) == Ins(vm.log, d)
    ensures Inv(vm.(chans := vm.chans[c := vm.chans[c].(buf := buf)], log := log))
  {
    hide Outs;
    hide Ins;
    hide WantsRecv;
    hide WantsSend;
    hide Quiet;
    hide AltOk;
    var w := vm.(chans := vm.chans[c := vm.chans[c].(buf := buf)], log := log);
    assert Queued(w) && AltsOk(w) by {
      forall q ensures InPlace(w.chans, q, StateOf(w, q)) && (StateOf(w, q).Alting? ==> AltOk(w.chans, StateOf(w, q).a)) {
        BufferPlace(vm, c, buf, q);
        assert InPlace(vm.chans, q, StateOf(vm, q));
      }
    }
    hide Queued;
    hide AltsOk;
  }

  lemma BufferPlace(vm: Vm, c: ChanId, buf: seq<Value>, q: Prog)
    requires c in vm.chans && InPlace(vm.chans, q, StateOf(vm, q)) && (StateOf(vm, q).Alting? ==> AltOk(vm.chans, StateOf(vm, q).a))
    ensures var m := vm.chans[c := vm.chans[c].(buf := buf)];
      InPlace(m, q, StateOf(vm, q)) && (StateOf(vm, q).Alting? ==> AltOk(m, StateOf(vm, q).a))
  {
    hide WantsRecv;
    hide WantsSend;
    hide Options;
  }

  /** A value is handed from sender to receiver. */
  lemma HandOver(vm: Vm, c: ChanId, p: Prog, q: Prog, v: Value)
    requires Inv(vm) && c in vm.chans && vm.chans[c].buf == []
    ensures Inv(vm.(log := vm.log + [Sent(c, p, v), Got(c, q, v)]))
  {
    var log := vm.log + [Sent(c, p, v), Got(c, q, v)];
    forall d ensures (d != c ==> Outs(log, d) == Outs(vm.log, d) && Ins(log, d) == Ins(vm.log, d)) {
      LogTwo(vm.log, Sent(c, p, v), Got(c, q, v), d);
    }
    LogTwo(vm.log, Sent(c, p, v), Got(c, q, v), c);
    assert Outs(vm.log, c) + [] == Ins(vm.log, c);
    assert Quiet(vm.chans[c]);
    BufferInv(vm, c, [], log);
    assert vm.chans[c := vm.chans[c].(buf := [])] == vm.chans;
  }

  lemma MarkedInPlace(m: Chans, rs: seq<ChanId>, ss: seq<ChanId>, p: Prog, q: Prog, s: State)
    requires InPlace(m, q, if p == q then Running else s)
    requires p == q ==> Wants(s, rs, ss)
    ensures InPlace(Marked(m, rs, ss, p), q, s)
  {
    forall c | c in m
      ensures multiset(Marked(m, rs, ss, p)[c].recv)[q] == WantsRecv(s, c)
      ensures multiset(Marked(m, rs, ss, p)[c].send)[q] == WantsSend(s, c)
    {
      CopiesCount(p, multiset(rs)[c], q);
      CopiesCount(p, multiset(ss)[c], q);
    }
  }

  /** State `s` waits to receive on `rs` and to send on `ss`. */
  ghost predicate Wants(s: State, rs: seq<ChanId>, ss: seq<ChanId>) {
    forall c :: WantsRecv(s, c) == multiset(rs)[c] && WantsSend(s, c) == multiset(ss)[c]
  }

  /** Nothing can be received on `rs` or sent on `ss`. */
  ghost predicate Stuck(m: Chans, rs: seq<ChanId>, ss: seq<ChanId>) {
    && (forall c :: c in rs && c in m ==> m[c].send == [] && !CanGet(m[c]) && c !in ss)
    && (forall c :: c in ss && c in m ==> m[c].recv == [] && !CanPut(m[c]))
  }

  lemma MarkChanQuiet(ch: Chan, j: nat, k: nat, p: Prog)
    requires Quiet(ch) && (j > 0 ==> ch.send == [] && !CanGet(ch) && k == 0) && (k > 0 ==> ch.recv == [] && !CanPut(ch))
    ensures Quiet(MarkChan(ch, j, k, p))
  {
    CopiesCount(p, j, p);
    CopiesCount(p, k, p);
    hide Copies;
  }

  lemma MarkedQuiet(m: Chans, rs: seq<ChanId>, ss: seq<ChanId>, p: Prog)
    requires AllQuiet(m) && Stuck(m, rs, ss)
    ensures AllQuiet(Marked(m, rs, ss, p))
  {
    hide Quiet;
    hide MarkChan;
    forall c | c in m ensures Quiet(Marked(m, rs, ss, p)[c]) {
      InSeq(rs, c);
      InSeq(ss, c);
      MarkChanQuiet(m[c], multiset(rs)[c], multiset(ss)[c], p);
    }
  }

  /** Waiting for what is not to be had. */
  lemma WaitInv(vm: Vm, p: Prog, rs: seq<ChanId>, ss: seq<ChanId>, s: State)
    requires Inv(vm) && StateOf(vm, p).Running? && Wants(s, rs, ss) && Stuck(vm.chans, rs, ss)
    requires s.Alting? ==> AltOk(vm.chans, s.a)
    ensures Inv(vm.(chans := Marked(vm.chans, rs, ss, p), st := vm.st[p := s]))
  {
    hide Outs;
    hide Ins;
    hide InPlace;
    hide AllQuiet;
    hide Stuck;
    hide Wants;
    hide Rs;
    hide Ss;
    var w := vm.(chans := Marked(vm.chans, rs, ss, p), st := vm.st[p := s]);
    MarkedQuiet(vm.chans, rs, ss, p);
    assert forall q :: StateOf(w, q) == if q == p then s else StateOf(vm, q);
    forall q ensures InPlace(w.chans, q, StateOf(w, q)) {
      assert InPlace(vm.chans, q, StateOf(vm, q));
      MarkedInPlace(vm.chans, rs, ss, p, q, StateOf(w, q));
    }
    assert forall c :: c in vm.chans ==> w.chans[c].buf == vm.chans[c].buf;
  }

  /** Marking one queue is one cqadd. */
  lemma MarkedOne(m: Chans, c: ChanId, p: Prog)
    requires c in m
    ensures Marked(m, [c], [], p) == m[c := m[c].(recv := m[c].recv + [p])]
    ensures Marked(m, [], [c], p) == m[c := m[c].(send := m[c].send + [p])]
  {
    assert Copies(p, 0) == [] && Copies(p, 1) == [p];
    hide Copies;
    forall d | d in m
      ensures Marked(m, [c], [], p)[d] == m[c := m[c].(recv := m[c].recv + [p])][d]
      ensures Marked(m, [], [c], p)[d] == m[c := m[c].(send := m[c].send + [p])][d]
    {
      assert multiset([c])[d] == if c == d then 1 else 0;
    }
  }

  lemma WaitOne(vm: Vm, p: Prog, c: ChanId, ch: Chan, s: State)
    requires Inv(vm) && c in vm.chans && StateOf(vm, p).Running? && (s.Receiving? || s.Sending?) && s.c == c
    requires s.Receiving? ==> ch == vm.chans[c].(recv := vm.chans[c].recv + [p]) && vm.chans[c].send == [] && !CanGet(vm.chans[c])
    requires s.Sending? ==> ch == vm.chans[c].(send := vm.chans[c].send + [p]) && vm.chans[c].recv == [] && !CanPut(vm.chans[c])
    ensures Inv(vm.(chans := vm.chans[c := ch], st := vm.st[p := s]))
  {
    hide Inv;
    hide Marked;
    MarkedOne(vm.chans, c, p);
    if s.Receiving? {
      WaitInv(vm, p, [c], [], s);
    } else {
      WaitInv(vm, p, [], [c], s);
    }
  }

  lemma InvAt(vm: Vm, c: ChanId)
    requires Inv(vm) && c in vm.chans
    ensures Quiet(vm.chans[c]) && Outs(vm.log, c) + vm.chans[c].buf == Ins(vm.log, c)
  {
  }

  lemma BufferOne(vm: Vm, c: ChanId, buf: seq<Value>, e: Event)
    requires Inv(vm) && c in vm.chans && Quiet(vm.chans[c].(buf := buf)) && e.c == c
    requires if e.Sent? then buf == vm.chans[c].buf + [e.v] else vm.chans[c].buf == [e.v] + buf
    ensures Inv(vm.(chans := vm.chans[c := vm.chans[c].(buf := buf)], log := vm.log + [e]))
  {
    InvAt(vm, c);
    hide Inv;
    var log := vm.log + [e];
    forall d ensures (d != c ==> Outs(log, d) == Outs(vm.log, d) && Ins(log, d) == Ins(vm.log, d)) {
      LogOne(vm.log, e, d);
    }
    LogOne(vm.log, e, c);
    hide Outs;
    hide Ins;
    BufferInv(vm, c, buf, log);
  }

  /** Sending keeps the invariant, whether the value is taken at once, buffered, or the sender has to wait. */
  lemma SendKeepsInv(vm: Vm, p: Prog, c: ChanId, v: Value)
    requires Inv(vm) && c in vm.chans && StateOf(vm, p).Running?
    ensures Inv(SendTo(vm, p, c, v))
  {
    InvAt(vm, c);
    hide Inv;
    hide Outs;
    hide Ins;
    var ch := vm.chans[c];
    if ch.recv != [] {
      var r := ch.recv[0];
      var o := Taken(StateOf(vm, r), false, c);
      hide Taken;
      WakeInv(vm, r, o);
      HandOver(Wake(vm, r, o), c, p, r, v);
    } else if CanPut(ch) {
      BufferOne(vm, c, ch.buf + [v], Sent(c, p, v));
    } else {
      WaitOne(vm, p, c, ch.(send := ch.send + [p]), Sending(c, v));
    }
  }

  /** A waiting sender's value follows the one taken from a full buffer. */
  lemma Rotate(vm: Vm, c: ChanId, p: Prog, s: Prog, v: Value)
    requires Inv(vm) && c in vm.chans && CanGet(vm.chans[c])
    ensures var b := vm.chans[c].buf;
      Inv(vm.(chans := vm.chans[c := vm.chans[c].(buf := b[1..] + [v])], log := vm.log + [Got(c, p, b[0]), Sent(c, s, v)]))
  {
    InvAt(vm, c);
    hide Inv;
    var b, log := vm.chans[c].buf, vm.log + [Got(c, p, vm.chans[c].buf[0]), Sent(c, s, v)];
    forall d ensures (d != c ==> Outs(log, d) == Outs(vm.log, d) && Ins(log, d) == Ins(vm.log, d)) {
      LogTwo(vm.log, Got(c, p, b[0]), Sent(c, s, v), d);
    }
    LogTwo(vm.log, Got(c, p, b[0]), Sent(c, s, v), c);
    hide Outs;
    hide Ins;
    assert b == [b[0]] + b[1..];
    assert Outs(vm.log, c) + [b[0]] + (b[1..] + [v]) == (Outs(vm.log, c) + b) + [v];
    BufferInv(vm, c, b[1..] + [v], log);
  }

  /** So does receiving. */
  lemma ReceiveKeepsInv(vm: Vm, p: Prog, c: ChanId)
    requires Inv(vm) && c in vm.chans && StateOf(vm, p).Running?
    ensures Inv(ReceiveFrom(vm, p, c))
  {
    InvAt(vm, c);
    hide Inv;
    hide Outs;
    hide Ins;
    var ch := vm.chans[c];
    if ch.send != [] {
      var s := ch.send[0];
      var o, v := Taken(StateOf(vm, s), true, c), Offer(StateOf(vm, s), c);
      hide Taken;
      hide Offer;
      WakeInv(vm, s, o);
      var w := Wake(vm, s, o);
      assert w.chans[c].buf == ch.buf;
      if CanGet(ch) {
        Rotate(w, c, p, s, v);
      } else {
        HandOver(w, c, s, p, v);
      }
    } else if CanGet(ch) {
      BufferOne(vm, c, ch.buf[1..], Got(c, p, ch.buf[0]));
    } else {
      WaitOne(vm, p, c, ch.(recv := ch.recv + [p]), Receiving(c));
    }
  }

  lemma NoteKeepsInv(vm: Vm, p: Prog, o: Option<Opt>)
    requires Inv(vm)
    ensures Inv(vm.(regs := Note(vm.regs, p, o)))
  {
    var w := vm.(regs := Note(vm.regs, p, o));
    assert forall q :: StateOf(w, q) == StateOf(vm, q);
  }

  lemma TakeKeepsInv(vm: Vm, p: Prog, o: Opt)
    requires Inv(vm) && o.c in vm.chans && StateOf(vm, p).Running?
    ensures Inv(Take(vm, p, o))
  {
    var vm1 := vm.(regs := Note(vm.regs, p, Some(o)));
    NoteKeepsInv(vm, p, Some(o));
    hide Inv;
    if o.sends {
      SendKeepsInv(vm1, p, o.c, o.v);
    } else {
      ReceiveKeepsInv(vm1, p, o.c);
    }
  }

  // ----- an alt that communicates is a plain send or receive

  lemma AbsentFreed(m: Chans, p: Prog, r: Prog)
    requires Absent(m, p)
    ensures Absent(Freed(m, r), p)
  {
    forall c | c in m ensures p !in Freed(m, r)[c].recv && p !in Freed(m, r)[c].send {
      WithoutCount(m[c].recv, r, p);
      WithoutCount(m[c].send, r, p);
    }
  }

  lemma FreedOne(m: Chans, rs: seq<ChanId>, ss: seq<ChanId>, p: Prog)
    requires Absent(m, p)
    ensures Freed(Marked(m, rs, ss, p), p) == m
  {
    FreedMarked(m, rs, ss, p, p);
    FreedAbsent(m, p);
  }

  lemma MarkedBuffer(m: Chans, c: ChanId, buf: seq<Value>, rs: seq<ChanId>, ss: seq<ChanId>, p: Prog)
    requires c in m
    ensures Marked(m, rs, ss, p)[c := Marked(m, rs, ss, p)[c].(buf := buf)] == Marked(m[c := m[c].(buf := buf)], rs, ss, p)
  {
    hide Copies;
  }

  /** The channel, marked: more progs at the end of its queues, and the same values. */
  lemma MarkedAt(m: Chans, c: ChanId, rs: seq<ChanId>, ss: seq<ChanId>, p: Prog)
    requires c in m
    ensures var x := Marked(m, rs, ss, p)[c];
      && x.buf == m[c].buf && x.cap == m[c].cap && m[c].recv <= x.recv && m[c].send <= x.send
      && (c !in rs ==> x.recv == m[c].recv) && (c !in ss ==> x.send == m[c].send)
      && (c in rs ==> x.recv != []) && (c in ss ==> x.send != [] && (m[c].send == [] ==> x.send[0] == p))
  {
    CopiesCount(p, multiset(rs)[c], p);
    CopiesCount(p, multiset(ss)[c], p);
    InSeq(rs, c);
    InSeq(ss, c);
    assert Copies(p, 0) == [];
    hide Copies;
    assert m[c].recv + [] == m[c].recv && m[c].send + [] == m[c].send;
  }

  lemma SendMarked(vm: Vm, p: Prog, rs: seq<ChanId>, ss: seq<ChanId>, c: ChanId, v: Value)
    requires Absent(vm.chans, p) && c in vm.chans && (c in rs ==> vm.chans[c].recv != []) && (vm.chans[c].recv != [] || CanPut(vm.chans[c]))
    ensures var t := SendTo(vm, p, c, v);
      SendTo(vm.(chans := Marked(vm.chans, rs, ss, p)), p, c, v) == t.(chans := Marked(t.chans, rs, ss, p))
  {
    var m := vm.chans;
    MarkedAt(m, c, rs, ss, p);
    hide Marked;
    hide Freed;
    hide Taken;
    if m[c].recv != [] {
      FreedMarked(m, rs, ss, p, m[c].recv[0]);
    } else {
      MarkedBuffer(m, c, m[c].buf + [v], rs, ss, p);
    }
  }

  lemma ReceiveMarked(vm: Vm, p: Prog, rs: seq<ChanId>, ss: seq<ChanId>, c: ChanId)
    requires Absent(vm.chans, p) && c in vm.chans && c !in ss && (vm.chans[c].send != [] || CanGet(vm.chans[c]))
    ensures var t := ReceiveFrom(vm, p, c);
      ReceiveFrom(vm.(chans := Marked(vm.chans, rs, ss, p)), p, c) == t.(chans := Marked(t.chans, rs, ss, p))
  {
    var m := vm.chans;
    MarkedAt(m, c, rs, ss, p);
    hide Marked;
    hide Taken;
    hide Offer;
    hide Without;
    if m[c].send != [] {
      var s := m[c].send[0];
      FreedMarked(m, rs, ss, p, s);
      if CanGet(m[c]) {
        MarkedBuffer(Freed(m, s), c, m[c].buf[1..] + [Offer(StateOf(vm, s), c)], rs, ss, p);
      }
    } else {
      MarkedBuffer(m, c, m[c].buf[1..], rs, ss, p);
    }
  }

  /** Taking a ready option does not see the marks of the prog itself, nor disturb them. */
  lemma TakeMarked(vm: Vm, p: Prog, rs: seq<ChanId>, ss: seq<ChanId>, o: Opt)
    requires Absent(vm.chans, p) && o.c in vm.chans && Ready(vm.chans, o)
    requires if o.sends then o.c in rs ==> vm.chans[o.c].recv != [] else o.c !in ss
    ensures var t := Take(vm, p, o);
      o.c in Marked(vm.chans, rs, ss, p) && Take(vm.(chans := Marked(vm.chans, rs, ss, p)), p, o) == t.(chans := Marked(t.chans, rs, ss, p))
  {
    var vm1 := vm.(regs := Note(vm.regs, p, Some(o)));
    hide SendTo;
    hide ReceiveFrom;
    if o.sends {
      SendMarked(vm1, p, rs, ss, o.c, o.v);
    } else {
      ReceiveMarked(vm1, p, rs, ss, o.c);
    }
  }

  /** Communication puts nobody in a queue. */
  lemma TakeAbsent(vm: Vm, p: Prog, o: Opt)
    requires Absent(vm.chans, p) && o.c in vm.chans && Ready(vm.chans, o)
    ensures Absent(Take(vm, p, o).chans, p) && Take(vm, p, o).chans.Keys == vm.chans.Keys
  {
    var ch := vm.chans[o.c];
    if o.sends && ch.recv != [] {
      AbsentFreed(vm.chans, p, ch.recv[0]);
    } else if !o.sends && ch.send != [] {
      AbsentFreed(vm.chans, p, ch.send[0]);
    }
    hide Without;
    hide Taken;
    hide Offer;
  }

  // ----- counting ready options

  lemma {:induction false} CountAppend(m: Chans, os: seq<Opt>, os': seq<Opt>)
    requires Known(m, os) && Known(m, os')
    ensures Known(m, os + os') && CountReady(m, os + os') == CountReady(m, os) + CountReady(m, os')
  {
    hide Ready;
    if os' == [] {
      assert os + os' == os;
    } else {
      var k := |os'| - 1;
      CountAppend(m, os, os'[..k]);
      assert (os + os')[..|os + os'| - 1] == os + os'[..k];
    }
  }

  /** If whatever is ready in `m` is ready in `m'`, the counts agree just when the same options are ready. */
  lemma {:induction false} CountUp(m: Chans, m': Chans, os: seq<Opt>)
    requires Known(m, os) && Known(m', os)
    requires forall i :: 0 <= i < |os| && Ready(m, os[i]) ==> Ready(m', os[i])
    ensures CountReady(m, os) <= CountReady(m', os)
    ensures CountReady(m, os) == CountReady(m', os) <==> forall i :: 0 <= i < |os| ==> Ready(m, os[i]) == Ready(m', os[i])
  {
    hide Ready;
    if os != [] {
      var k := |os| - 1;
      CountUp(m, m', os[..k]);
      assert forall i :: 0 <= i < k ==> os[..k][i] == os[i];
      assert os[k] == os[|os| - 1];
    }
  }

  lemma {:induction false} CountZero(m: Chans, os: seq<Opt>)
    requires Known(m, os)
    ensures CountReady(m, os) == 0 <==> forall i :: 0 <= i < |os| ==> !Ready(m, os[i])
  {
    hide Ready;
    if os != [] {
      var k := |os| - 1;
      CountZero(m, os[..k]);
      assert forall i :: 0 <= i < k ==> os[..k][i] == os[i];
      assert os[k] == os[|os| - 1];
    }
  }

  lemma {:induction false} SendOptsAre(ss: seq<SendCase>)
    ensures forall i :: 0 <= i < |SendOpts(ss)| ==> SendOpts(ss)[i].sends
  {
    if ss != [] {
      SendOptsAre(ss[..|ss| - 1]);
    }
  }

  lemma {:induction false} ElemOptsAre(n: nat, cs: seq<Option<ChanId>>)
    ensures forall i :: 0 <= i < |ElemOpts(n, cs)| ==> !ElemOpts(n, cs)[i].sends
    decreases |cs|
  {
    if cs != [] {
      ElemOptsAre(n, cs[..|cs| - 1]);
    }
  }

  lemma {:induction false} RecvOptsAre(base: nat, rs: seq<RecvCase>)
    ensures forall i :: 0 <= i < |RecvOpts(base, rs)| ==> !RecvOpts(base, rs)[i].sends
    decreases |rs|
  {
    if rs != [] {
      var i := |rs| - 1;
      RecvOptsAre(base, rs[..i]);
      if rs[i].Many? {
        ElemOptsAre(base + i, rs[i].cs);
      }
    }
  }

  lemma MarkedReady(m: Chans, rs: seq<ChanId>, ss: seq<ChanId>, p: Prog, o: Opt)
    requires o.c in m
    ensures Ready(Marked(m, rs, ss, p), o) <==> Ready(m, o) || o.c in (if o.sends then rs else ss)
  {
    CopiesCount(p, multiset(rs)[o.c], p);
    CopiesCount(p, multiset(ss)[o.c], p);
    hide Copies;
  }

  /** The count altrdy makes: receives before anything is marked, sends when the receives are marked. */
  function Counted(m: Chans, a: Alt, p: Prog): nat
    requires Known(m, SendOpts(a.sends)) && Known(m, Receives(a))
  {
    CountReady(m, Receives(a)) + CountReady(Marked(m, Rs(a), [], p), SendOpts(a.sends))
  }

  /** The count altrdy makes is the count altcomm sees after the marks are set exactly when every receive on a channel
      the alt also sends on was ready without the marks. */
  lemma ReadyExact(m: Chans, a: Alt, p: Prog)
    requires Known(m, SendOpts(a.sends)) && Known(m, Receives(a))
    ensures Known(Marked(m, Rs(a), Ss(a), p), Options(a))
    ensures Counted(m, a, p) <= CountReady(Marked(m, Rs(a), Ss(a), p), Options(a))
    ensures Counted(m, a, p) == CountReady(Marked(m, Rs(a), Ss(a), p), Options(a)) <==>
      forall i :: 0 <= i < |Receives(a)| && Receives(a)[i].c in Ss(a) ==> Ready(m, Receives(a)[i])
  {
    var mr, mk, ss, rs := Marked(m, Rs(a), [], p), Marked(m, Rs(a), Ss(a), p), SendOpts(a.sends), Receives(a);
    CountAppend(mk, ss, rs);
    SendOptsAre(a.sends);
    RecvOptsAre(|a.sends|, a.recvs);
    hide Ready;
    hide SendOpts;
    hide RecvOpts;
    forall i | 0 <= i < |ss| ensures Ready(mr, ss[i]) == Ready(mk, ss[i]) {
      MarkedReady(m, Rs(a), [], p, ss[i]);
      MarkedReady(m, Rs(a), Ss(a), p, ss[i]);
    }
    CountUp(mr, mk, ss);
    forall i | 0 <= i < |rs| ensures Ready(mk, rs[i]) <==> Ready(m, rs[i]) || rs[i].c in Ss(a) {
      MarkedReady(m, Rs(a), Ss(a), p, rs[i]);
    }
    CountUp(m, mk, rs);
  }

  /** With disjoint channels, the marks make nothing ready that was not. */
  lemma DisjointReady(m: Chans, a: Alt, p: Prog, i: nat)
    requires Known(m, Options(a)) && Disjoint(Rs(a), Ss(a)) && i < |Options(a)|
    ensures Ready(Marked(m, Rs(a), Ss(a), p), Options(a)[i]) == Ready(m, Options(a)[i])
    ensures if Options(a)[i].sends then Options(a)[i].c !in Rs(a) else Options(a)[i].c !in Ss(a)
  {
    SendOptsAre(a.sends);
    RecvOptsAre(|a.sends|, a.recvs);
    var k, o := |SendOpts(a.sends)|, Options(a)[i];
    if i < k {
      assert o == SendOpts(a.sends)[i] && Ss(a)[i] == o.c;
    } else {
      assert o == Receives(a)[i - k] && Rs(a)[i - k] == o.c;
    }
    MarkedReady(m, Rs(a), Ss(a), p, o);
  }
}
