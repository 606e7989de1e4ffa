/**
  Any number of processes sharing one QLock of lib9/lock.c, each pairing qlock or a
  successful canqlock with its own qunlock.  The logs below are read off the run itself.
 */
module Mutex {
  import opened QueueLock
  import opened Wrappers

  datatype CPc = Idle | In(c: Pc) | Holding

  /** What an idle process calls when it is next scheduled. */
  datatype Call = Qlock | Canqlock

  datatype Mem = Mem(q: QLock, ps: Procs, pcs: seq<CPc>)

  function On(pc: CPc): Pc {
    if pc.In? then pc.c else Out
  }

  function View(pcs: seq<CPc>): (v: seq<Pc>)
    ensures |v| == |pcs| && forall i :: 0 <= i < |v| ==> v[i] == On(pcs[i])
  {
    seq(|pcs|, i requires 0 <= i < |pcs| => On(pcs[i]))
  }

  predicate MemFits(m: Mem) {
    var n := |m.pcs|;
    ProcsFit(m.ps, n) && LockFits(m.q, n) && forall i :: 0 <= i < n ==> PcFits(On(m.pcs[i]), n)
  }

  function MemStep(m: Mem, p: nat, call: Call): (r: Mem)
    requires MemFits(m) && p < |m.pcs|
    ensures MemFits(r) && |r.pcs| == |m.pcs|
  {
    match m.pcs[p]
    case Idle => m.(pcs := m.pcs[p := In(if call.Qlock? then LkSpin else CanSpin)])
    case Holding => m.(pcs := m.pcs[p := In(UnSpin)])
    case In(c) =>
      if Running(c) then
        assert PcFits(On(m.pcs[p]), |m.pcs|);
        StepFits(m.q, m.ps, p, c);
        var (q, ps, c') := Step(m.q, m.ps, p, c);
        Mem(q, ps, m.pcs[p := In(c')])
      else
        m.(pcs := m.pcs[p := if c.Got? then Holding else Idle])
  }

  function HistStep(m: Mem, a: Aux, p: nat): Aux
    requires p < |m.pcs| == |m.ps.sem|
  {
    if m.pcs[p].In? && Running(m.pcs[p].c) then AuxStep(m.q, m.ps, a, p, m.pcs[p].c) else a
  }

  function SysOf(m: Mem, a: Aux): Sys {
    Sys(m.q, m.ps, View(m.pcs), a)
  }

  predicate PInv(m: Mem, a: Aux, p: nat)
    requires p < |m.pcs| == |m.ps.sem|
  {
    && (On(m.pcs[p]).Out? ==> (m.pcs[p].Holding? <==> a.owner == Proc(p)) && !m.ps.sem[p])
    && (m.pcs[p].In? ==> !m.pcs[p].c.Out?)
  }

  predicate MInv(m: Mem, a: Aux) {
    MemFits(m) && Inv(SysOf(m, a)) && a.owner != Group && forall p :: 0 <= p < |m.pcs| ==> PInv(m, a, p)
  }

  lemma LockStepKeepsMInv(m: Mem, a: Aux, p: nat, call: Call)
    requires MInv(m, a) && p < |m.pcs| && m.pcs[p].In? && Running(m.pcs[p].c)
    ensures MInv(MemStep(m, p, call), HistStep(m, a, p))
  {
    hide Step;
    hide AuxStep;
    hide Inv;
    var m', a', s := MemStep(m, p, call), HistStep(m, a, p), SysOf(m, a);
    StepKeepsInv(s, p);
    assert View(m'.pcs) == View(m.pcs)[p := On(m'.pcs[p])];
    assert SysOf(m', a') == Next(s, p);
    StepTouches(s, p);
    StepStaysCalled(m.q, m.ps, p, m.pcs[p].c);
    forall r | 0 <= r < |m'.pcs| ensures PInv(m', a', r) { assert PInv(m, a, r); }
  }

  lemma ClientStepKeepsMInv(m: Mem, a: Aux, p: nat, call: Call)
    requires MInv(m, a) && p < |m.pcs| && !(m.pcs[p].In? && Running(m.pcs[p].c))
    ensures MInv(MemStep(m, p, call), a)
  {
    hide Inv;
    hide Step;
    var m', s := MemStep(m, p, call), SysOf(m, a);
    assert PInv(m, a, p);
    assert View(m'.pcs) == View(m.pcs)[p := On(m'.pcs[p])];
    assert a.(owner := a.owner) == a;
    match m.pcs[p] {
      case Idle => EnterKeepsInv(s, p, On(m'.pcs[p]));
      case Holding => EnterUnlockKeepsInv(s, p);
      case In(c) => LeaveKeepsInv(s, p, a.owner);
    }
    forall r | 0 <= r < |m'.pcs| ensures PInv(m', a, r) { assert PInv(m, a, r); }
  }

  /** Every step of every process keeps the invariant. */
  lemma StepKeepsMInv(m: Mem, a: Aux, p: nat, call: Call)
    requires MInv(m, a) && p < |m.pcs|
    ensures MInv(MemStep(m, p, call), HistStep(m, a, p))
  {
    hide MInv;
    hide MemStep;
    if m.pcs[p].In? && Running(m.pcs[p].c) {
      LockStepKeepsMInv(m, a, p, call);
    } else {
      ClientStepKeepsMInv(m, a, p, call);
    }
  }

  // ----- whole runs

  type Schedule = seq<(nat, Call)>

  function Start(n: nat): (m: Mem)
    ensures MemFits(m) && |m.pcs| == n
  {
    Mem(UNLOCKED, Procs(seq(n, _ => None), seq(n, _ => false)), seq(n, _ => Idle))
  }

  /** The memory after a schedule, with no mention of history. */
  function Run(n: nat, sched: Schedule): (m: Mem)
    ensures MemFits(m) && |m.pcs| == n
  {
    if sched == [] then Start(n)
    else
      var m, (p, call) := Run(n, sched[..|sched| - 1]), sched[|sched| - 1];
      if p < n then MemStep(m, p, call) else m
  }

  function RunHist(n: nat, sched: Schedule): Aux {
    if sched == [] then NO_HISTORY
    else
      var m, a, p := Run(n, sched[..|sched| - 1]), RunHist(n, sched[..|sched| - 1]), sched[|sched| - 1].0;
      if p < n then HistStep(m, a, p) else a
  }

  /** Processes in the order in which they finished queueing themselves. */
  function Arrivals(n: nat, sched: Schedule): seq<nat> {
    if sched == [] then []
    else
      var before, m, p := Arrivals(n, sched[..|sched| - 1]), Run(n, sched[..|sched| - 1]), sched[|sched| - 1].0;
      if p < n && m.pcs[p] == In(LkClear) then before + [p] else before
  }

  /** Processes in the order in which their blocked qlock returned. */
  function Returns(n: nat, sched: Schedule): seq<nat> {
    if sched == [] then []
    else
      var before, m, p := Returns(n, sched[..|sched| - 1]), Run(n, sched[..|sched| - 1]), sched[|sched| - 1].0;
      if p < n && m.pcs[p] == In(LkBlock) && m.ps.sem[p] then before + [p] else before
  }

  lemma {:induction false} RunKeepsMInv(n: nat, sched: Schedule)
    ensures MInv(Run(n, sched), RunHist(n, sched))
    decreases |sched|
  {
    if sched == [] {
    } else {
      hide MInv;
      hide MemStep;
      hide HistStep;
      RunKeepsMInv(n, sched[..|sched| - 1]);
      if sched[|sched| - 1].0 < n {
        StepKeepsMInv(Run(n, sched[..|sched| - 1]), RunHist(n, sched[..|sched| - 1]), sched[|sched| - 1].0, sched[|sched| - 1].1);
      }
    }
  }

  /** At most one process is between acquiring and releasing the lock. */
  lemma AtMostOneHolder(n: nat, sched: Schedule, p: nat, q: nat)
    requires p < n && q < n && Run(n, sched).pcs[p].Holding? && Run(n, sched).pcs[q].Holding?
    ensures p == q && Run(n, sched).q.locked
  {
    hide Run;
    hide RunHist;
    RunKeepsMInv(n, sched);
    assert PInv(Run(n, sched), RunHist(n, sched), p) && PInv(Run(n, sched), RunHist(n, sched), q);
  }

  lemma RunSizes(n: nat, sched: Schedule)
    ensures |Run(n, sched).pcs| == n && |Run(n, sched).ps.sem| == n
  {
    hide Run;
    assert MemFits(Run(n, sched));
  }

  lemma LogsStep(m: Mem, a: Aux, p: nat)
    requires p < |m.pcs| == |m.ps.sem|
    ensures HistStep(m, a, p).arrivals == if m.pcs[p] == In(LkClear) then a.arrivals + [p] else a.arrivals
    ensures HistStep(m, a, p).returned == if m.pcs[p] == In(LkBlock) && m.ps.sem[p] then a.returned + [p] else a.returned
  {
  }

  lemma {:induction false} LogsAreHistory(n: nat, sched: Schedule)
    ensures Arrivals(n, sched) == RunHist(n, sched).arrivals && Returns(n, sched) == RunHist(n, sched).returned
    decreases |sched|
  {
    hide Step;
    hide MemStep;
    hide MemFits;
    hide Run;
    if sched != [] {
      LogsAreHistory(n, sched[..|sched| - 1]);
      RunSizes(n, sched[..|sched| - 1]);
      if sched[|sched| - 1].0 < n {
        LogsStep(Run(n, sched[..|sched| - 1]), RunHist(n, sched[..|sched| - 1]), sched[|sched| - 1].0);
      }
      hide HistStep;
    }
  }

  /** First in, first out: blocked calls return in exactly the order in which they queued. */
  lemma FirstInFirstOut(n: nat, sched: Schedule)
    ensures Returns(n, sched) <= Arrivals(n, sched)
  {
    hide Run;
    hide RunHist;
    RunKeepsMInv(n, sched);
    LogsAreHistory(n, sched);
  }

  /** Follow `qnext` from a pointer for at most `fuel` links. */
  function Walk(from: Option<nat>, qnext: seq<Option<nat>>, fuel: nat): seq<nat>
    decreases fuel
  {
    if fuel == 0 || from.None? || from.value >= |qnext| then []
    else [from.value] + Walk(qnext[from.value], qnext, fuel - 1)
  }

  lemma {:induction false} WalkSpells(q: QLock, qnext: seq<Option<nat>>, w: seq<nat>, fuel: nat)
    requires Spells(q, qnext, w) && |w| <= fuel && forall i :: 0 <= i < |w| ==> w[i] < |qnext|
    ensures Walk(q.head, qnext, fuel) == w
    decreases fuel
  {
    if w != [] {
      assert [w[0]] + w[1..] == w;
      if |w| > 1 { assert w[1..][|w| - 2] == w[|w| - 1]; }
      WalkSpells(q.(head := qnext[w[0]], tail := Last(w[1..])), qnext, w[1..], fuel - 1);
    }
  }

  lemma {:induction false} DistinctFits(w: seq<nat>, n: nat)
    requires Distinct(w) && forall i :: 0 <= i < |w| ==> w[i] < n
    ensures |w| <= n
    decreases n
  {
    assert w == [] || w[0] < n;
    if n > 0 && n - 1 in w {
      var i :| 0 <= i < |w| && w[i] == n - 1;
      DistinctFits(w[..i] + w[i + 1..], n - 1);
    } else if n > 0 {
      DistinctFits(w, n - 1);
    }
  }

  /** Nobody has yet been told to wake `p`. */
  predicate Unsignalled(m: Mem, p: nat)
    requires p < |m.ps.sem|
  {
    !m.ps.sem[p] && forall r :: 0 <= r < |m.pcs| ==> Waking(On(m.pcs[r])) != Some(p)
  }

  /** Whenever the spin word is free, the linked list is exactly the sequence of sleeping processes, and an
      unlocked lock has an empty list.  A blocked process off the list has been, or is being, made ready. */
  lemma QueueIsTheSleepers(n: nat, sched: Schedule)
    requires !Run(n, sched).q.use
    ensures var m := Run(n, sched);
      var w := Walk(m.q.head, m.ps.qnext, n);
      && Distinct(w)
      && (!m.q.locked ==> w == [])
      && (forall p :: 0 <= p < n ==> (p in w <==> m.pcs[p] == In(LkBlock) && Unsignalled(m, p)))
  {
    hide Run;
    hide RunHist;
    RunKeepsMInv(n, sched);
    var m, a := Run(n, sched), RunHist(n, sched);
    var s := SysOf(m, a);
    DistinctFits(a.waiters, n);
    WalkSpells(m.q, m.ps.qnext, a.waiters, n);
    forall p | 0 <= p < n ensures p in a.waiters <==> m.pcs[p] == In(LkBlock) && Unsignalled(m, p) {
      assert ProcInv(s, p);
      if p in a.waiters {
        forall r | 0 <= r < n ensures Waking(On(m.pcs[r])) != Some(p) { assert ProcInv(s, r); }
      } else if m.pcs[p] == In(LkBlock) && !m.ps.sem[p] {
        assert ProcInv(s, a.waker.value);
        assert Waking(On(m.pcs[a.waker.value])) == Some(p);
      }
    }
  }

  // ----- what a call may do, and what it gets

  /** What process `p` called when it was last idle. */
  function LastCall(n: nat, sched: Schedule, p: nat): Option<Call>
    requires p < n
  {
    if sched == [] then None
    else
      var before, (q, call) := sched[..|sched| - 1], sched[|sched| - 1];
      if q == p && Run(n, before).pcs[p].Idle? then Some(call) else LastCall(n, before, p)
  }

  /** Process `p` has held the lock since it was last idle and moved. */
  predicate Served(n: nat, sched: Schedule, p: nat)
    requires p < n
  {
    sched != [] &&
      var before := sched[..|sched| - 1];
      Run(n, sched).pcs[p].Holding? || (Served(n, before, p) && !(sched[|sched| - 1].0 == p && Run(n, before).pcs[p].Idle?))
  }

  /** A process stands where its last call leads, and has been served if it is on the way out. */
  predicate OnItsWay(pc: CPc, call: Option<Call>, served: bool) {
    match pc
    case Idle => call in {None, Some(Canqlock)} || served
    case Holding => call.Some? && served
    case In(c) =>
      || (call == Some(Qlock) && IsLk(c))
      || (call == Some(Canqlock) && IsCan(c))
      || (call.Some? && served && IsUn(c))
  }

  lemma StepOnItsWay(m: Mem, p: nat, next: Call, call: Option<Call>, served: bool)
    requires MemFits(m) && p < |m.pcs| && OnItsWay(m.pcs[p], call, served)
    ensures var pc := MemStep(m, p, next).pcs[p];
      if m.pcs[p].Idle? then OnItsWay(pc, Some(next), false) else OnItsWay(pc, call, served || pc.Holding?)
  {
    hide Step;
    if m.pcs[p].In? && Running(m.pcs[p].c) {
      assert PcFits(On(m.pcs[p]), |m.pcs|);
      StepStaysCalled(m.q, m.ps, p, m.pcs[p].c);
    }
  }

  lemma OtherStays(m: Mem, q: nat, next: Call, p: nat)
    requires MemFits(m) && p < |m.pcs| && q < |m.pcs| && p != q
    ensures MemStep(m, q, next).pcs[p] == m.pcs[p]
  {
    hide Step;
  }

  lemma {:induction false} AlwaysOnItsWay(n: nat, sched: Schedule, p: nat)
    requires p < n
    ensures OnItsWay(Run(n, sched).pcs[p], LastCall(n, sched, p), Served(n, sched, p))
    decreases |sched|
  {
    hide MemStep;
    if sched != [] {
      var before := sched[..|sched| - 1];
      var (q, next) := sched[|sched| - 1];
      AlwaysOnItsWay(n, before, p);
      if q == p {
        StepOnItsWay(Run(n, before), p, next, LastCall(n, before, p), Served(n, before, p));
      } else if q < n {
        OtherStays(Run(n, before), q, next, p);
      }
    }
  }

  /** canqlock never queues its caller and never spins, in any run. */
  lemma CanqlockNeverBlocks(n: nat, sched: Schedule, p: nat)
    requires p < n && LastCall(n, sched, p) == Some(Canqlock)
    ensures Run(n, sched).pcs[p] != In(LkSpin) && Run(n, sched).pcs[p] != In(LkBlock)
  {
    hide Run;
    AlwaysOnItsWay(n, sched, p);
  }

  /** qlock does not return without the lock: a process that is idle again has held it, unless it called canqlock. */
  lemma QlockIsServed(n: nat, sched: Schedule, p: nat)
    requires p < n && Run(n, sched).pcs[p].Idle? && LastCall(n, sched, p) == Some(Qlock)
    ensures Served(n, sched, p)
  {
    hide Run;
    AlwaysOnItsWay(n, sched, p);
  }
}
