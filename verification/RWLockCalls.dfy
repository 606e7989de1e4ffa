/**
  What the callers of the reader/writer lock of lib9/lock.c get, read off whole runs: readers
  share, canrlock never blocks, and each call acquires what it is named after.
 */
module RWLockCalls {
  import opened QueueLock
  import opened Wrappers
  import opened RWLock

  /** What process `p` called when it was last idle. */
  function LastCall(n: nat, sched: Schedule, p: nat): Option<Call>
    requires p < n
  {
    if sched == [] then None
    else
      var before, (q, call) := sched[..|sched| - 1], sched[|sched| - 1];
      if q == p && Run(n, before).pcs[p].Idle? then Some(call) else LastCall(n, before, p)
  }

  predicate Inside(pc: RPc) {
    pc.Reading? || pc.Writing?
  }

  /** Process `p` has been reading or writing since it was last idle and moved. */
  predicate Served(n: nat, sched: Schedule, p: nat)
    requires p < n
  {
    sched != [] &&
      var before := sched[..|sched| - 1];
      Inside(Run(n, sched).pcs[p]) || (Served(n, before, p) && !(sched[|sched| - 1].0 == p && Run(n, before).pcs[p].Idle?))
  }

  predicate Reads(call: Option<Call>) {
    call.Some? && !call.value.Wlock?
  }

  /** A process stands where its last call leads, and has been served if it is on the way out. */
  predicate OnItsWay(pc: RPc, call: Option<Call>, served: bool) {
    match pc
    case Idle => call in {None, Some(Canrlock)} || served
    case RSpin | RInc | RUnl => Reads(call)
    case Reading | DSpin | DDec | DUnl => Reads(call) && served
    case Writing => call == Some(Wlock) && served
    case Op(role, c) =>
      match role
      case RlockX => call == Some(Rlock) && IsLk(c)
      case CanrlockX => call == Some(Canrlock) && IsCan(c)
      case RlockK => Reads(call) && IsCan(c)
      case RlockEnd => Reads(call) && IsUn(c)
      case RunlockK => Reads(call) && served && IsUn(c)
      case WlockX | WlockK => call == Some(Wlock) && IsLk(c)
      case WunlockK | WunlockX => call == Some(Wlock) && served && IsUn(c)
  }

  lemma LockStepOnItsWay(m: Mem, p: nat, next: Call, call: Option<Call>, served: bool)
    requires MemFits(m) && p < |m.pcs| && OnItsWay(m.pcs[p], call, served)
    requires m.pcs[p].Op? && Running(m.pcs[p].c)
    ensures OnItsWay(MemStep(m, p, next).pcs[p], call, served)
  {
    hide Step;
    hide IsLk;
    hide IsCan;
    hide IsUn;
    var w := LockOf(m.pcs[p].role);
    assert PcFits(On(w, m.pcs[p]), |m.pcs|);
    StepStaysCalled(if w.X? then m.x else m.k, m.ps, p, m.pcs[p].c);
  }

  lemma PlainStepOnItsWay(m: Mem, p: nat, next: Call, call: Option<Call>, served: bool)
    requires MemFits(m) && p < |m.pcs| && OnItsWay(m.pcs[p], call, served)
    requires !(m.pcs[p].Op? && Running(m.pcs[p].c))
    ensures var pc := MemStep(m, p, next).pcs[p];
      if m.pcs[p].Idle? then OnItsWay(pc, Some(next), false) else OnItsWay(pc, call, served || Inside(pc))
  {
    hide LockMemStep;
    hide MemFits;
  }

  lemma StepOnItsWay(m: Mem, p: nat, next: Call, call: Option<Call>, served: bool)
    requires MemFits(m) && p < |m.pcs| && OnItsWay(m.pcs[p], call, served)
    ensures var pc := MemStep(m, p, next).pcs[p];
      if m.pcs[p].Idle? then OnItsWay(pc, Some(next), false) else OnItsWay(pc, call, served || Inside(pc))
  {
    hide MemStep;
    hide MemFits;
    if m.pcs[p].Op? && Running(m.pcs[p].c) {
      hide OnItsWay;
      LockStepOnItsWay(m, p, next, call, served);
      StillInside(m, p, next);
    } else {
      hide OnItsWay;
      PlainStepOnItsWay(m, p, next, call, served);
    }
  }

  lemma StillInside(m: Mem, p: nat, next: Call)
    requires MemFits(m) && p < |m.pcs| && m.pcs[p].Op? && Running(m.pcs[p].c)
    ensures MemStep(m, p, next).pcs[p].Op?
  {
    hide Step;
  }

  lemma OtherStays(m: Mem, q: nat, next: Call, p: nat)
    requires MemFits(m) && p < |m.pcs| && q < |m.pcs| && p != q
    ensures MemStep(m, q, next).pcs[p] == m.pcs[p]
  {
    hide Step;
  }

  lemma {:induction false} AlwaysOnItsWay(n: nat, sched: Schedule, p: nat)
    requires p < n
    ensures OnItsWay(Run(n, sched).pcs[p], LastCall(n, sched, p), Served(n, sched, p))
    decreases |sched|
  {
    hide MemStep;
    if sched != [] {
      var before := sched[..|sched| - 1];
      var (q, next) := sched[|sched| - 1];
      AlwaysOnItsWay(n, before, p);
      if q == p {
        StepOnItsWay(Run(n, before), p, next, LastCall(n, before, p), Served(n, before, p));
      } else if q < n {
        OtherStays(Run(n, before), q, next, p);
      }
    }
  }

  /** In every run, who writes has called wlock, and who reads has called rlock or canrlock. */
  lemma CallAcquires(n: nat, sched: Schedule, p: nat)
    requires p < n
    ensures Run(n, sched).pcs[p].Writing? ==> LastCall(n, sched, p) == Some(Wlock)
    ensures Run(n, sched).pcs[p].Reading? ==> LastCall(n, sched, p) in {Some(Rlock), Some(Canrlock)}
  {
    hide Run;
    AlwaysOnItsWay(n, sched, p);
  }

  /** rlock and wlock do not return without the lock: a process that is idle again has been reading or writing,
      unless it called canrlock. */
  lemma CallIsServed(n: nat, sched: Schedule, p: nat)
    requires p < n && Run(n, sched).pcs[p].Idle? && LastCall(n, sched, p) in {Some(Rlock), Some(Wlock)}
    ensures Served(n, sched, p)
  {
    hide Run;
    AlwaysOnItsWay(n, sched, p);
  }

  /** canrlock never queues its caller, in any run. */
  lemma CanrlockNeverBlocks(n: nat, sched: Schedule, p: nat)
    requires p < n && LastCall(n, sched, p) == Some(Canrlock)
    ensures var pc := Run(n, sched).pcs[p]; pc.Op? ==> !pc.c.LkSpin? && !pc.c.LkBlock?
  {
    hide Run;
    AlwaysOnItsWay(n, sched, p);
  }

  // ----- readers share

  /** `p` moves `times` times, calling `call` when idle. */
  function Repeat(m: Mem, p: nat, call: Call, times: nat): (r: Mem)
    requires MemFits(m) && p < |m.pcs|
    ensures MemFits(r) && |r.pcs| == |m.pcs|
    decreases times
  {
    if times == 0 then m else Repeat(MemStep(m, p, call), p, call, times - 1)
  }

  lemma {:induction false} RepeatIsRun(n: nat, sched: Schedule, p: nat, call: Call, times: nat)
    requires p < n
    ensures Run(n, sched + seq(times, _ => (p, call))) == Repeat(Run(n, sched), p, call, times)
    decreases times
  {
    hide MemStep;
    var more := sched + seq(times, _ => (p, call));
    if times == 0 {
      assert more == sched;
    } else {
      var next := sched + [(p, call)];
      assert next[..|next| - 1] == sched;
      assert more == next + seq(times - 1, _ => (p, call));
      RepeatIsRun(n, next, p, call, times - 1);
    }
  }

  lemma RepeatNone(m: Mem, p: nat, call: Call)
    requires MemFits(m) && p < |m.pcs|
    ensures Repeat(m, p, call, 0) == m
  {
  }

  lemma {:induction false} RepeatAgain(m: Mem, p: nat, call: Call, first: nat, second: nat)
    requires MemFits(m) && p < |m.pcs|
    ensures Repeat(m, p, call, first + second) == Repeat(Repeat(m, p, call, first), p, call, second)
    decreases first
  {
    hide MemStep;
    if first > 0 {
      RepeatAgain(MemStep(m, p, call), p, call, first - 1, second);
    }
  }

  /** `m` with one of its queueing locks and the program counter of `p` replaced. */
  function Put(w: Which, m: Mem, p: nat, q: QLock, pc: RPc): Mem
    requires p < |m.pcs|
  {
    if w.X? then m.(x := q, pcs := m.pcs[p := pc]) else m.(k := q, pcs := m.pcs[p := pc])
  }

  function Lock(w: Which, m: Mem): QLock {
    if w.X? then m.x else m.k
  }

  lemma PutAgain(w: Which, m: Mem, p: nat, q: QLock, pc: RPc, q': QLock, pc': RPc)
    requires p < |m.pcs|
    ensures Put(w, Put(w, m, p, q, pc), p, q', pc') == Put(w, m, p, q', pc')
  {
    assert m.pcs[p := pc][p := pc'] == m.pcs[p := pc'];
  }

  /** A step that changes no word of any process. */
  lemma OpMoves(m: Mem, p: nat, call: Call, role: Role, c: Pc, q: QLock, next: Pc)
    requires MemFits(m) && p < |m.pcs| && m.pcs[p] == Op(role, c) && Running(c) && PcFits(c, |m.pcs|)
    requires Step(Lock(LockOf(role), m), m.ps, p, c) == (q, m.ps, next)
    ensures MemStep(m, p, call) == Put(LockOf(role), m, p, q, Op(role, next))
  {
    hide Step;
    hide Running;
  }

  /** A step of an operation on the lock `q` takes it to `q'` and changes no word of any process. */
  predicate Goes(ps: Procs, p: nat, q: QLock, c: Pc, q': QLock, c': Pc)
    requires p < |ps.qnext|
  {
    var n := |ps.qnext|;
    Running(c) && PcFits(c, n) && ProcsFit(ps, n) && LockFits(q, n) && Step(q, ps, p, c) == (q', ps, c')
  }

  /** One uncontended step of an operation, seen from the memory in which it began. */
  lemma Onward(m: Mem, p: nat, call: Call, role: Role, q: QLock, c: Pc, q': QLock, c': Pc, times: nat)
    requires MemFits(m) && p < |m.pcs| == |m.ps.qnext| && Goes(m.ps, p, q, c, q', c')
    requires Repeat(m, p, call, times) == Put(LockOf(role), m, p, q, Op(role, c))
    ensures Repeat(m, p, call, times + 1) == Put(LockOf(role), m, p, q', Op(role, c'))
  {
    hide MemFits;
    hide MemStep;
    hide Step;
    var m1 := Put(LockOf(role), m, p, q, Op(role, c));
    OpMoves(m1, p, call, role, c, q', c');
    PutAgain(LockOf(role), m, p, q, Op(role, c), q', Op(role, c'));
    RepeatAgain(m, p, call, times, 1);
  }

  lemma Begin(m: Mem, p: nat, call: Call, role: Role)
    requires MemFits(m) && p < |m.pcs| && m.pcs[p].Op? && m.pcs[p].role == role
    ensures Repeat(m, p, call, 0) == Put(LockOf(role), m, p, Lock(LockOf(role), m), m.pcs[p])
    ensures |m.ps.qnext| == |m.pcs| && ProcsFit(m.ps, |m.pcs|)
  {
    assert m.pcs[p := m.pcs[p]] == m.pcs;
  }

  const FREE := UNLOCKED
  const BUSY := UNLOCKED.(use := true)
  const TAKEN := UNLOCKED.(locked := true)
  const BOTH := UNLOCKED.(use := true, locked := true)

  lemma QlockSteps(ps: Procs, p: nat)
    requires p < |ps.qnext| && ProcsFit(ps, |ps.qnext|)
    ensures Goes(ps, p, FREE, LkSpin, BUSY, LkTest) && Goes(ps, p, BUSY, LkTest, BUSY, LkTake)
    ensures Goes(ps, p, BUSY, LkTake, BOTH, LkTakeRel) && Goes(ps, p, BOTH, LkTakeRel, TAKEN, Got)
  {
  }

  lemma CanqlockSteps(ps: Procs, p: nat)
    requires p < |ps.qnext| && ProcsFit(ps, |ps.qnext|)
    ensures Goes(ps, p, FREE, CanSpin, BUSY, CanTest) && Goes(ps, p, BUSY, CanTest, BUSY, CanTake)
    ensures Goes(ps, p, BUSY, CanTake, BOTH, CanTakeRel) && Goes(ps, p, BOTH, CanTakeRel, TAKEN, Got)
  {
  }

  lemma RefusedSteps(ps: Procs, p: nat)
    requires p < |ps.qnext| && ProcsFit(ps, |ps.qnext|)
    ensures Goes(ps, p, TAKEN, CanSpin, BOTH, CanTest) && Goes(ps, p, BOTH, CanTest, BOTH, CanFailRel)
    ensures Goes(ps, p, BOTH, CanFailRel, TAKEN, Missed)
  {
  }

  lemma QunlockSteps(ps: Procs, p: nat)
    requires p < |ps.qnext| && ProcsFit(ps, |ps.qnext|)
    ensures Goes(ps, p, TAKEN, UnSpin, BOTH, UnHead) && Goes(ps, p, BOTH, UnHead, BOTH, UnFree)
    ensures Goes(ps, p, BOTH, UnFree, BUSY, UnFreeRel) && Goes(ps, p, BUSY, UnFreeRel, FREE, Gone)
  {
  }

  /** With the lock free, four steps take it. */
  lemma Taken(m: Mem, p: nat, call: Call, role: Role)
    requires MemFits(m) && p < |m.pcs| && Lock(LockOf(role), m) == FREE
    requires m.pcs[p] == Op(role, LkSpin) || m.pcs[p] == Op(role, CanSpin)
    ensures Repeat(m, p, call, 4) == Put(LockOf(role), m, p, TAKEN, Op(role, Got))
  {
    hide *;
    if m.pcs[p] == Op(role, LkSpin) {
      QlockTakes(m, p, call, role);
    } else {
      CanqlockTakes(m, p, call, role);
    }
  }

  lemma QlockTakes(m: Mem, p: nat, call: Call, role: Role)
    requires MemFits(m) && p < |m.pcs| && Lock(LockOf(role), m) == FREE && m.pcs[p] == Op(role, LkSpin)
    ensures Repeat(m, p, call, 4) == Put(LockOf(role), m, p, TAKEN, Op(role, Got))
  {
    hide *;
    Begin(m, p, call, role);
    QlockSteps(m.ps, p);
    Onward(m, p, call, role, FREE, LkSpin, BUSY, LkTest, 0);
    Onward(m, p, call, role, BUSY, LkTest, BUSY, LkTake, 1);
    Onward(m, p, call, role, BUSY, LkTake, BOTH, LkTakeRel, 2);
    Onward(m, p, call, role, BOTH, LkTakeRel, TAKEN, Got, 3);
  }

  lemma CanqlockTakes(m: Mem, p: nat, call: Call, role: Role)
    requires MemFits(m) && p < |m.pcs| && Lock(LockOf(role), m) == FREE && m.pcs[p] == Op(role, CanSpin)
    ensures Repeat(m, p, call, 4) == Put(LockOf(role), m, p, TAKEN, Op(role, Got))
  {
    hide *;
    Begin(m, p, call, role);
    CanqlockSteps(m.ps, p);
    Onward(m, p, call, role, FREE, CanSpin, BUSY, CanTest, 0);
    Onward(m, p, call, role, BUSY, CanTest, BUSY, CanTake, 1);
    Onward(m, p, call, role, BUSY, CanTake, BOTH, CanTakeRel, 2);
    Onward(m, p, call, role, BOTH, CanTakeRel, TAKEN, Got, 3);
  }

  /** With the lock taken, three steps of canqlock find out. */
  lemma Refused(m: Mem, p: nat, call: Call, role: Role)
    requires MemFits(m) && p < |m.pcs| && Lock(LockOf(role), m) == TAKEN && m.pcs[p] == Op(role, CanSpin)
    ensures Repeat(m, p, call, 3) == Put(LockOf(role), m, p, TAKEN, Op(role, Missed))
  {
    hide *;
    Begin(m, p, call, role);
    RefusedSteps(m.ps, p);
    Onward(m, p, call, role, TAKEN, CanSpin, BOTH, CanTest, 0);
    Onward(m, p, call, role, BOTH, CanTest, BOTH, CanFailRel, 1);
    Onward(m, p, call, role, BOTH, CanFailRel, TAKEN, Missed, 2);
  }

  /** With nobody queued, four steps of qunlock free the lock. */
  lemma Released(m: Mem, p: nat, call: Call, role: Role)
    requires MemFits(m) && p < |m.pcs| && Lock(LockOf(role), m) == TAKEN && m.pcs[p] == Op(role, UnSpin)
    ensures Repeat(m, p, call, 4) == Put(LockOf(role), m, p, FREE, Op(role, Gone))
  {
    hide *;
    Begin(m, p, call, role);
    QunlockSteps(m.ps, p);
    Onward(m, p, call, role, TAKEN, UnSpin, BOTH, UnHead, 0);
    Onward(m, p, call, role, BOTH, UnHead, BOTH, UnFree, 1);
    Onward(m, p, call, role, BOTH, UnFree, BUSY, UnFreeRel, 2);
    Onward(m, p, call, role, BUSY, UnFreeRel, FREE, Gone, 3);
  }

  /** Nobody holds `x` or a spin word, nobody waits for `k`, and readers alone keep `k`. */
  predicate Open(m: Mem) {
    m.x == FREE && m.k == FREE.(locked := m.readers > 0) && !m.l && m.readers >= 0
  }

  /** Calls rlock or canrlock and takes `x`. */
  lemma EntersX(m: Mem, p: nat, call: Call)
    requires MemFits(m) && p < |m.pcs| && m.pcs[p].Idle? && !call.Wlock? && Open(m)
    ensures Repeat(m, p, call, 5) ==
            m.(x := TAKEN, pcs := m.pcs[p := Op(if call.Rlock? then RlockX else CanrlockX, Got)])
  {
    var role := if call.Rlock? then RlockX else CanrlockX;
    var m1 := MemStep(m, p, call);
    assert m1 == m.(pcs := m.pcs[p := Op(role, if call.Rlock? then LkSpin else CanSpin)]);
    hide MemFits;
    hide MemStep;
    hide Repeat;
    Taken(m1, p, call, role);
    assert m.pcs[p := m1.pcs[p]][p := Op(role, Got)] == m.pcs[p := Op(role, Got)];
    RepeatStep(m, p, call, 4);
  }

  lemma RepeatStep(m: Mem, p: nat, call: Call, times: nat)
    requires MemFits(m) && p < |m.pcs|
    ensures Repeat(m, p, call, times + 1) == Repeat(MemStep(m, p, call), p, call, times)
  {
  }

  /** Three plain steps: return from `x`, take `l`, count. */
  lemma EntersL(m: Mem, p: nat, call: Call)
    requires MemFits(m) && p < |m.pcs| && !m.l && (m.pcs[p] == Op(RlockX, Got) || m.pcs[p] == Op(CanrlockX, Got))
    ensures Repeat(m, p, call, 3) == m.(l := true, readers := m.readers + 1, pcs := m.pcs[p := Op(RlockK, CanSpin)])
  {
    hide LockMemStep;
    hide MemFits;
    var m1 := MemStep(m, p, call);
    assert m1 == m.(pcs := m.pcs[p := RSpin]);
    var m2 := MemStep(m1, p, call);
    assert m2.pcs == m.pcs[p := RInc];
    var m3 := MemStep(m2, p, call);
    assert m3.pcs == m.pcs[p := Op(RlockK, CanSpin)];
    hide MemStep;
    RepeatStep(m, p, call, 2);
    RepeatStep(m1, p, call, 1);
    RepeatStep(m2, p, call, 0);
  }

  /** Two plain steps: return from `k`, release `l`. */
  lemma LeavesL(m: Mem, p: nat, call: Call)
    requires MemFits(m) && p < |m.pcs| && (m.pcs[p] == Op(RlockK, Got) || m.pcs[p] == Op(RlockK, Missed))
    ensures Repeat(m, p, call, 2) == m.(l := false, pcs := m.pcs[p := Op(RlockEnd, UnSpin)])
  {
    hide LockMemStep;
    hide MemFits;
    var m1 := MemStep(m, p, call);
    assert m1 == m.(pcs := m.pcs[p := RUnl]);
    var m2 := MemStep(m1, p, call);
    assert m2.pcs == m.pcs[p := Op(RlockEnd, UnSpin)];
    hide MemStep;
    RepeatStep(m, p, call, 1);
    RepeatStep(m1, p, call, 0);
  }

  /** Release `x` and read. */
  lemma LeavesX(m: Mem, p: nat, call: Call)
    requires MemFits(m) && p < |m.pcs| && m.pcs[p] == Op(RlockEnd, UnSpin) && m.x == TAKEN
    ensures Repeat(m, p, call, 5) == m.(x := FREE, pcs := m.pcs[p := Reading])
  {
    Released(m, p, call, RlockEnd);
    hide LockMemStep;
    hide MemFits;
    var m1 := Repeat(m, p, call, 4);
    var m2 := MemStep(m1, p, call);
    assert m2.pcs == m.pcs[p := Reading];
    hide MemStep;
    RepeatAgain(m, p, call, 4, 1);
  }

  /** From `m`, `p` alone gets to `r`. */
  ghost predicate Leads(m: Mem, p: nat, call: Call, r: Mem)
    requires MemFits(m) && p < |m.pcs|
  {
    exists times: nat :: Repeat(m, p, call, times) == r
  }

  lemma LeadsOn(m: Mem, p: nat, call: Call, times: nat, more: nat, r: Mem)
    requires MemFits(m) && p < |m.pcs| && Repeat(Repeat(m, p, call, times), p, call, more) == r
    ensures Leads(m, p, call, r)
  {
    hide Repeat;
    RepeatAgain(m, p, call, times, more);
    assert Repeat(m, p, call, times + more) == r;
  }

  lemma LeadsFar(m: Mem, p: nat, call: Call, mid: Mem, more: nat, r: Mem)
    requires MemFits(m) && MemFits(mid) && p < |m.pcs| == |mid.pcs|
    requires Leads(m, p, call, mid) && Repeat(mid, p, call, more) == r
    ensures Leads(m, p, call, r)
  {
    hide Repeat;
    var times: nat :| Repeat(m, p, call, times) == mid;
    LeadsOn(m, p, call, times, more, r);
  }

  lemma LeadsToo(m: Mem, p: nat, call: Call, mid: Mem, r: Mem)
    requires MemFits(m) && MemFits(mid) && p < |m.pcs| == |mid.pcs|
    requires Leads(m, p, call, mid) && Leads(mid, p, call, r)
    ensures Leads(m, p, call, r)
  {
    hide Repeat;
    hide MemFits;
    var times: nat :| Repeat(mid, p, call, times) == r;
    LeadsFar(m, p, call, mid, times, r);
  }

  /** The first eight steps count the reader; `m` with `x` and `l` held. */
  lemma Counts(m: Mem, p: nat, call: Call)
    requires MemFits(m) && p < |m.pcs| && m.pcs[p].Idle? && !call.Wlock? && Open(m)
    ensures Leads(m, p, call, m.(x := TAKEN, l := true, readers := m.readers + 1,
                                 pcs := m.pcs[p := Op(RlockK, CanSpin)]))
  {
    EntersX(m, p, call);
    hide MemFits;
    hide MemStep;
    hide Repeat;
    var m1 := Repeat(m, p, call, 5);
    EntersL(m1, p, call);
    assert m1.pcs[p := Op(RlockK, CanSpin)] == m.pcs[p := Op(RlockK, CanSpin)];
    LeadsOn(m, p, call, 5, 3, Repeat(m1, p, call, 3));
  }

  /** `k` is taken by the first reader and left taken by the others. */
  lemma TriesK(m: Mem, p: nat, call: Call)
    requires MemFits(m) && p < |m.pcs| && m.pcs[p] == Op(RlockK, CanSpin) && m.k == FREE.(locked := m.readers > 1)
    ensures Repeat(m, p, call, if m.readers > 1 then 3 else 4) ==
            m.(k := TAKEN, pcs := m.pcs[p := Op(RlockK, if m.readers > 1 then Missed else Got)])
  {
    hide MemFits;
    hide MemStep;
    hide Repeat;
    if m.readers > 1 {
      Refused(m, p, call, RlockK);
    } else {
      Taken(m, p, call, RlockK);
    }
  }

  lemma KeepsK(m: Mem, p: nat, call: Call)
    requires MemFits(m) && p < |m.pcs| && m.pcs[p] == Op(RlockK, CanSpin) && m.k == FREE.(locked := m.readers > 1)
    ensures Leads(m, p, call, m.(k := TAKEN, l := false, pcs := m.pcs[p := Op(RlockEnd, UnSpin)]))
  {
    hide MemFits;
    hide MemStep;
    hide Repeat;
    var steps := if m.readers > 1 then 3 else 4;
    TriesK(m, p, call);
    var m1 := Repeat(m, p, call, steps);
    assert m1.pcs[p] == Op(RlockK, if m.readers > 1 then Missed else Got);
    LeavesL(m1, p, call);
    assert m1.pcs[p := Op(RlockEnd, UnSpin)] == m.pcs[p := Op(RlockEnd, UnSpin)];
    RepeatAgain(m, p, call, steps, 2);
  }

  /** While nobody writes, an idle process that calls rlock or canrlock gets to read, and others can follow. */
  lemma OneMoreReader(m: Mem, p: nat, call: Call)
    requires MemFits(m) && p < |m.pcs| && m.pcs[p].Idle? && !call.Wlock? && Open(m)
    ensures Leads(m, p, call, m.(readers := m.readers + 1, k := TAKEN, pcs := m.pcs[p := Reading]))
  {
    var m1 := m.(x := TAKEN, l := true, readers := m.readers + 1, pcs := m.pcs[p := Op(RlockK, CanSpin)]);
    assert MemFits(m1) by { Counts(m, p, call); LeadsFit(m, p, call, m1); }
    Counts(m, p, call);
    hide MemFits;
    hide Repeat;
    hide Leads;
    KeepsK(m1, p, call);
    var m2 := m1.(k := TAKEN, l := false, pcs := m1.pcs[p := Op(RlockEnd, UnSpin)]);
    LeadsToo(m, p, call, m1, m2);
    LeavesX(m2, p, call);
    LeadsFar(m, p, call, m2, 5, Repeat(m2, p, call, 5));
    assert m2.pcs[p := Reading] == m.pcs[p := Reading];
  }

  lemma LeadsFit(m: Mem, p: nat, call: Call, r: Mem)
    requires MemFits(m) && p < |m.pcs| && Leads(m, p, call, r)
    ensures MemFits(r) && |r.pcs| == |m.pcs|
  {
    hide MemFits;
    hide Repeat;
  }

  /** The last calls of the processes after one of them has moved alone. */
  lemma {:induction false} LastCallAfter(n: nat, sched: Schedule, p: nat, call: Call, times: nat, q: nat)
    requires p < n && q < n && times > 0 && Run(n, sched).pcs[p].Idle?
    ensures LastCall(n, sched + seq(times, _ => (p, call)), q) == if q == p then Some(call) else LastCall(n, sched, q)
    decreases times
  {
    hide Run;
    var all := sched + seq(times, _ => (p, call));
    assert all[|all| - 1] == (p, call);
    assert all[..|all| - 1] == sched + seq(times - 1, _ => (p, call));
    if times > 1 {
      LastCallAfter(n, sched, p, call, times - 1, q);
    } else {
      assert all[..|all| - 1] == sched;
    }
  }

  /** The first `k` processes are reading after the calls given, the others have not moved. */
  predicate FirstRead(n: nat, sched: Schedule, calls: seq<Call>, k: nat)
    requires |calls| == n && k <= n
  {
    && Open(Run(n, sched)) && Run(n, sched).readers == k
    && forall p :: 0 <= p < n ==>
         if p < k then Run(n, sched).pcs[p].Reading? && LastCall(n, sched, p) == Some(calls[p])
         else Run(n, sched).pcs[p].Idle?
  }

  lemma NextReads(n: nat, sched: Schedule, calls: seq<Call>, k: nat) returns (more: Schedule)
    requires |calls| == n && k < n && FirstRead(n, sched, calls, k) && !calls[k].Wlock?
    ensures FirstRead(n, more, calls, k + 1)
  {
    hide Run;
    hide MemFits;
    hide Repeat;
    hide LastCall;
    var m := Run(n, sched);
    OneMoreReader(m, k, calls[k]);
    var times: nat :| Repeat(m, k, calls[k], times) ==
      m.(readers := m.readers + 1, k := TAKEN, pcs := m.pcs[k := Reading]);
    assert times > 0 by { RepeatNone(m, k, calls[k]); assert m.pcs[k].Idle?; }
    more := sched + seq(times, _ => (k, calls[k]));
    RepeatIsRun(n, sched, k, calls[k], times);
    forall q | 0 <= q < n
      ensures LastCall(n, more, q) == if q == k then Some(calls[k]) else LastCall(n, sched, q)
    {
      LastCallAfter(n, sched, k, calls[k], times, q);
    }
  }

  lemma {:induction false} FirstCanRead(n: nat, calls: seq<Call>, k: nat) returns (sched: Schedule)
    requires |calls| == n && k <= n && forall p :: 0 <= p < n ==> !calls[p].Wlock?
    ensures FirstRead(n, sched, calls, k)
    decreases k
  {
    if k == 0 {
      sched := [];
    } else {
      hide FirstRead;
      sched := FirstCanRead(n, calls, k - 1);
      sched := NextReads(n, sched, calls, k - 1);
    }
  }

  /** Every process is reading, and has called what `calls` says. */
  predicate AllRead(n: nat, sched: Schedule, calls: seq<Call>)
    requires |calls| == n
  {
    forall p :: 0 <= p < n ==> Run(n, sched).pcs[p].Reading? && LastCall(n, sched, p) == Some(calls[p])
  }

  /** Readers share: whichever of rlock and canrlock each of any number of processes calls, there is a run after
      which all of them are reading together. */
  lemma ReadersShare(n: nat, calls: seq<Call>)
    requires |calls| == n && forall p :: 0 <= p < n ==> !calls[p].Wlock?
    ensures exists sched :: AllRead(n, sched, calls)
  {
    hide Run;
    hide LastCall;
    var sched := FirstCanRead(n, calls, n);
    assert AllRead(n, sched, calls);
  }
}
