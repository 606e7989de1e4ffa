/**
  The queueing lock of lib9/lock.c: a FIFO hand-off lock built from a test-and-set spin
  word and the block/ready primitive of the host.

  Every step is one statement of the C text: at most one write to shared memory, together
  with the reads that go into it (`q->head = p->qnext` is one step, as is `l->readers++` in
  module RWLock; both are done under a spin word).  Any number of processes take steps in
  any order, and a spinning process simply repeats its step.  `QLock` and `Procs` are what
  the C code keeps; `Aux` holds history variables which no step ever reads to decide what
  memory becomes.
 */
module QueueLock {
  import opened Wrappers

  /** Where a process stands inside an operation on one particular lock. */
  datatype Pc =
    | Out                                  // not executing an operation on this lock
    // qlock
    | LkSpin | LkTest | LkTake | LkTakeRel
    | LkTail | LkLink(last: Option<nat>) | LkSetTail | LkClear | LkRel | LkBlock
    // canqlock
    | CanSpin | CanTest | CanFailRel | CanTake | CanTakeRel
    // qunlock
    | UnSpin | UnHead | UnNext(first: nat) | UnTail(first: nat) | UnRel(first: nat) | UnReady(first: nat)
    | UnFree | UnFreeRel
    // about to return: with the lock, without it (canqlock == 0), after releasing it
    | Got | Missed | Gone

  /** The fields of a QLock. */
  datatype QLock = QLock(use: bool, locked: bool, head: Option<nat>, tail: Option<nat>)

  /** Per-process words: the queue link `qnext` and the binary semaphore behind osblock/osready. */
  datatype Procs = Procs(qnext: seq<Option<nat>>, sem: seq<bool>)

  /** Who is responsible for releasing the lock.  `Group` is a holder that is not one process. */
  datatype Owner = Nobody | Proc(p: nat) | Group

  /** History: spin word holder, waiting processes in order, logs, owner, process about to call osready. */
  datatype Aux = Aux(
    cs: Option<nat>, waiters: seq<nat>, arrivals: seq<nat>, handoffs: seq<nat>, returned: seq<nat>,
    owner: Owner, waker: Option<nat>)

  /** One lock together with every process's view of it. */
  datatype Sys = Sys(q: QLock, ps: Procs, pcs: seq<Pc>, a: Aux)

  predicate Running(pc: Pc) {
    !(pc.Out? || pc.Got? || pc.Missed? || pc.Gone?)
  }

  /** A process pointer is nil or names one of the `n` processes. */
  predicate Fits(o: Option<nat>, n: nat) {
    o.Some? ==> o.value < n
  }

  predicate ProcsFit(ps: Procs, n: nat) {
    |ps.qnext| == n && |ps.sem| == n && forall i :: 0 <= i < n ==> Fits(ps.qnext[i], n)
  }

  predicate LockFits(q: QLock, n: nat) {
    Fits(q.head, n) && Fits(q.tail, n)
  }

  /** Every process a program counter names exists. */
  predicate PcFits(pc: Pc, n: nat) {
    match pc
    case LkLink(last) => Fits(last, n)
    case UnNext(f) => f < n
    case UnTail(f) => f < n
    case UnRel(f) => f < n
    case UnReady(f) => f < n
    case _ => true
  }

  /** One atomic step of process `p` at `pc`: the new lock, process words and program counter. */
  function Step(q: QLock, ps: Procs, p: nat, pc: Pc): (r: (QLock, Procs, Pc))
    requires p < |ps.qnext| && ProcsFit(ps, |ps.qnext|) && LockFits(q, |ps.qnext|) && PcFits(pc, |ps.qnext|)
  {
    match pc
    case LkSpin => if q.use then (q, ps, LkSpin) else (q.(use := true), ps, LkTest)
    case LkTest => (q, ps, if q.locked then LkTail else LkTake)
    case LkTake => (q.(locked := true), ps, LkTakeRel)
    case LkTakeRel => (q.(use := false), ps, Got)
    case LkTail => (q, ps, LkLink(q.tail))
    case LkLink(last) =>
      if last.None? then (q.(head := Some(p)), ps, LkSetTail)
      else (q, ps.(qnext := ps.qnext[last.value := Some(p)]), LkSetTail)
    case LkSetTail => (q.(tail := Some(p)), ps, LkClear)
    case LkClear => (q, ps.(qnext := ps.qnext[p := None]), LkRel)
    case LkRel => (q.(use := false), ps, LkBlock)
    case LkBlock => if ps.sem[p] then (q, ps.(sem := ps.sem[p := false]), Got) else (q, ps, LkBlock)
    case CanSpin => if q.use then (q, ps, Missed) else (q.(use := true), ps, CanTest)
    case CanTest => (q, ps, if q.locked then CanFailRel else CanTake)
    case CanFailRel => (q.(use := false), ps, Missed)
    case CanTake => (q.(locked := true), ps, CanTakeRel)
    case CanTakeRel => (q.(use := false), ps, Got)
    case UnSpin => if q.use then (q, ps, UnSpin) else (q.(use := true), ps, UnHead)
    case UnHead => (q, ps, if q.head.Some? then UnNext(q.head.value) else UnFree)
    case UnNext(f) => (q.(head := ps.qnext[f]), ps, UnTail(f))
    case UnTail(f) => (if q.head.None? then q.(tail := None) else q, ps, UnRel(f))
    case UnRel(f) => (q.(use := false), ps, UnReady(f))
    case UnReady(f) => (q, ps.(sem := ps.sem[f := true]), Gone)
    case UnFree => (q.(locked := false), ps, UnFreeRel)
    case UnFreeRel => (q.(use := false), ps, Gone)
    case Out => (q, ps, pc)
    case Got => (q, ps, pc)
    case Missed => (q, ps, pc)
    case Gone => (q, ps, pc)
  }

  lemma StepFits(q: QLock, ps: Procs, p: nat, pc: Pc)
    requires p < |ps.qnext| && ProcsFit(ps, |ps.qnext|) && LockFits(q, |ps.qnext|) && PcFits(pc, |ps.qnext|)
    ensures var r := Step(q, ps, p, pc);
      ProcsFit(r.1, |ps.qnext|) && LockFits(r.0, |ps.qnext|) && PcFits(r.2, |ps.qnext|)
  {
  }

  /** The history update that accompanies a step. */
  function AuxStep(q: QLock, ps: Procs, a: Aux, p: nat, pc: Pc): Aux
    requires p < |ps.sem|
  {
    match pc
    case LkSpin => if q.use then a else a.(cs := Some(p))
    case CanSpin => if q.use then a else a.(cs := Some(p))
    case UnSpin => if q.use then a else a.(cs := Some(p))
    case LkTake => a.(owner := Proc(p))
    case CanTake => a.(owner := Proc(p))
    case LkTakeRel => a.(cs := None)
    case CanTakeRel => a.(cs := None)
    case CanFailRel => a.(cs := None)
    case LkClear => a.(waiters := a.waiters + [p], arrivals := a.arrivals + [p])
    case LkRel => a.(cs := None)
    case LkBlock => if ps.sem[p] then a.(returned := a.returned + [p]) else a
    case UnTail(f) =>
      a.(waiters := if a.waiters == [] then [] else a.waiters[1..], handoffs := a.handoffs + [f],
         owner := Proc(f), waker := Some(p))
    case UnRel(f) => a.(cs := None)
    case UnReady(f) => a.(waker := None)
    case UnFree => a.(owner := Nobody)
    case UnFreeRel => a.(cs := None)
    case _ => a
  }

  /** A zeroed lock, and its history. */
  const UNLOCKED := QLock(false, false, None, None)
  const NO_HISTORY := Aux(None, [], [], [], [], Nobody, None)

  // ----- which operation a program counter belongs to

  /** Inside qlock. */
  predicate IsLk(c: Pc) {
    match c
    case LkSpin | LkTest | LkTake | LkTakeRel | LkTail | LkLink(_) | LkSetTail | LkClear | LkRel | LkBlock | Got => true
    case _ => false
  }

  /** Inside canqlock. */
  predicate IsCan(c: Pc) {
    c.CanSpin? || c.CanTest? || c.CanFailRel? || c.CanTake? || c.CanTakeRel? || c.Got? || c.Missed?
  }

  /** Inside qunlock. */
  predicate IsUn(c: Pc) {
    InUnlock(c) || c.Gone?
  }

  lemma StepStaysCalled(q: QLock, ps: Procs, p: nat, pc: Pc)
    requires p < |ps.qnext| && ProcsFit(ps, |ps.qnext|) && LockFits(q, |ps.qnext|) && PcFits(pc, |ps.qnext|)
    requires Running(pc)
    ensures var c := Step(q, ps, p, pc).2;
      !c.Out? && (IsLk(pc) ==> IsLk(c)) && (IsCan(pc) ==> IsCan(c)) && (IsUn(pc) ==> IsUn(c))
  {
  }

  // ----- the invariant

  /** Program counters inside the region protected by the spin word `use`. */
  predicate InCs(pc: Pc) {
    match pc
    case LkTest | LkTake | LkTakeRel | LkTail | LkLink(_) | LkSetTail | LkClear | LkRel => true
    case CanTest | CanFailRel | CanTake | CanTakeRel => true
    case UnHead | UnNext(_) | UnTail(_) | UnRel(_) | UnFree | UnFreeRel => true
    case _ => false
  }

  /** Program counters at which the process owns the lock, whatever the queue looks like. */
  predicate Owning(pc: Pc) {
    match pc
    case LkTakeRel | CanTakeRel | Got => true
    case UnSpin | UnHead | UnNext(_) | UnTail(_) | UnFree => true
    case _ => false
  }

  /** The process that will be made ready by the process at this program counter. */
  function Waking(pc: Pc): Option<nat> {
    match pc
    case UnRel(f) => Some(f)
    case UnReady(f) => Some(f)
    case _ => None
  }

  /** A process that has queued itself and not yet returned from osblock. */
  predicate Parked(pc: Pc) {
    pc.LkRel? || pc.LkBlock?
  }

  predicate Distinct(w: seq<nat>) {
    forall i, j :: 0 <= i < j < |w| ==> w[i] != w[j]
  }

  predicate Chain(qnext: seq<Option<nat>>, w: seq<nat>) {
    forall i :: 0 <= i < |w| - 1 ==> w[i] < |qnext| && qnext[w[i]] == Some(w[i + 1])
  }

  function First(w: seq<nat>): Option<nat> {
    if w == [] then None else Some(w[0])
  }

  function Last(w: seq<nat>): Option<nat> {
    if w == [] then None else Some(w[|w| - 1])
  }

  /** `head`, `tail` and the `qnext` links spell exactly the sequence `w`. */
  predicate Spells(q: QLock, qnext: seq<Option<nat>>, w: seq<nat>) {
    && q.head == First(w)
    && q.tail == Last(w)
    && Chain(qnext, w)
    && (w != [] ==> w[|w| - 1] < |qnext| && qnext[w[|w| - 1]] == None)
  }

  /** The list, possibly caught in the middle of an insertion or removal by the holder of `use`. */
  predicate Shape(s: Sys) {
    var w := s.a.waiters;
    if s.a.cs.Some? && s.a.cs.value < |s.pcs| then
      var c := s.a.cs.value;
      match s.pcs[c]
      case LkLink(last) => last == s.q.tail && Spells(s.q, s.ps.qnext, w)
      case LkSetTail => s.q.head == First(w + [c]) && s.q.tail == Last(w) && Chain(s.ps.qnext, w + [c])
      case LkClear => s.q.head == First(w + [c]) && s.q.tail == Some(c) && Chain(s.ps.qnext, w + [c])
      case UnNext(f) => w != [] && f == w[0] && Spells(s.q, s.ps.qnext, w)
      case UnTail(f) =>
        w != [] && f == w[0] && s.q.head == First(w[1..]) && s.q.tail == Last(w) && Chain(s.ps.qnext, w)
        && w[|w| - 1] < |s.ps.qnext| && s.ps.qnext[w[|w| - 1]] == None
      case UnFree => w == [] && Spells(s.q, s.ps.qnext, w)
      case _ => Spells(s.q, s.ps.qnext, w)
    else
      Spells(s.q, s.ps.qnext, w)
  }

  /** What holds of process `p` alone. */
  predicate ProcInv(s: Sys, p: nat)
    requires p < |s.pcs| == |s.ps.sem|
  {
    var pc, a := s.pcs[p], s.a;
    && PcFits(pc, |s.pcs|)
    && (InCs(pc) <==> a.cs == Some(p))
    && (Owning(pc) ==> a.owner == Proc(p))
    && (!Owning(pc) && !pc.Out? && !pc.LkBlock? ==> a.owner != Proc(p))
    && (pc.LkRel? ==> p in a.waiters)
    && (pc.LkBlock? ==> (p in a.waiters <==> a.owner != Proc(p)))
    && (pc.LkBlock? && p !in a.waiters ==> (s.ps.sem[p] <==> a.waker == None))
    && (s.ps.sem[p] ==> pc.Out? || (pc.LkBlock? && p !in a.waiters))
    && (pc.LkTake? || pc.CanTake? ==> !s.q.locked)
    && (pc.LkTail? || pc.LkLink? || pc.LkSetTail? || pc.LkClear? ==> s.q.locked)
    && (Waking(pc).Some? <==> a.waker == Some(p))
    && (Waking(pc).Some? ==> var h := Waking(pc).value;
          h < |s.pcs| && a.owner == Proc(h) && s.pcs[h].LkBlock? && h !in a.waiters)
  }

  /** What holds of the lock and its history. */
  predicate Core(s: Sys) {
    var n, a := |s.pcs|, s.a;
    && ProcsFit(s.ps, n) && LockFits(s.q, n)
    && (s.q.use <==> a.cs.Some?)
    && (a.cs.Some? ==> a.cs.value < n)
    && (a.waker.Some? ==> a.waker.value < n)
    && (s.q.locked <==> a.owner != Nobody)
    && (a.owner.Proc? ==> a.owner.p < n)
    && (a.owner == Nobody ==> a.waiters == [])
    && a.arrivals == a.handoffs + a.waiters
  }

  /** The waiting sequence names distinct parked processes. */
  predicate WaitersParked(s: Sys) {
    && Distinct(s.a.waiters)
    && (forall i :: 0 <= i < |s.a.waiters| ==> s.a.waiters[i] < |s.pcs| && Parked(s.pcs[s.a.waiters[i]]))
  }

  predicate Inv(s: Sys) {
    && Core(s)
    && Pending(s)
    && WaitersParked(s)
    && Shape(s)
    && (forall p :: 0 <= p < |s.pcs| ==> ProcInv(s, p))
  }

  /** Processes return from osblock in hand-off order; at most the newest hand-off is still in flight. */
  predicate Pending(s: Sys) {
    var a := s.a;
    if a.owner.Proc? && a.owner.p < |s.pcs| && s.pcs[a.owner.p].LkBlock? then a.handoffs == a.returned + [a.owner.p]
    else a.handoffs == a.returned
  }

  /** The whole system after one step of `p`. */
  function Next(s: Sys, p: nat): Sys
    requires p < |s.pcs| && ProcsFit(s.ps, |s.pcs|) && LockFits(s.q, |s.pcs|) && PcFits(s.pcs[p], |s.pcs|)
  {
    var (q, ps, pc) := Step(s.q, s.ps, p, s.pcs[p]);
    Sys(q, ps, s.pcs[p := pc], AuxStep(s.q, s.ps, s.a, p, s.pcs[p]))
  }

  /** The head of the queue has finished queueing itself: it is blocked, asleep, and not the owner. */
  lemma FrontIsAsleep(s: Sys, p: nat)
    requires Inv(s) && p < |s.pcs| && s.pcs[p].UnTail?
    ensures ProcInv(s, p)
    ensures s.a.waiters != [] && s.a.waiters[0] == s.pcs[p].first != p
    ensures var f := s.a.waiters[0];
      f < |s.pcs| && s.pcs[f].LkBlock? && ProcInv(s, f) && !s.ps.sem[f] && f !in s.a.waiters[1..]
  {
    assert ProcInv(s, p);
    var f := s.a.waiters[0];
    assert ProcInv(s, f);
    assert f in s.a.waiters;
  }

  lemma StepKeepsCore(s: Sys, p: nat)
    requires Core(s) && Shape(s) && p < |s.pcs| && ProcInv(s, p)
    ensures Core(Next(s, p))
  {
    if s.pcs[p].UnTail? || s.pcs[p].LkClear? || s.pcs[p].UnFree? {
      QueueKeepsCore(s, p);
    } else {
      OthersKeepCore(s, p);
    }
  }

  lemma QueueKeepsCore(s: Sys, p: nat)
    requires Core(s) && Shape(s) && p < |s.pcs| && ProcInv(s, p)
    requires s.pcs[p].UnTail? || s.pcs[p].LkClear? || s.pcs[p].UnFree?
    ensures Core(Next(s, p))
  {
    if s.pcs[p].UnTail? {
      assert [s.pcs[p].first] + s.a.waiters[1..] == s.a.waiters;
    }
  }

  lemma OthersKeepCore(s: Sys, p: nat)
    requires Core(s) && p < |s.pcs| && ProcInv(s, p)
    requires !s.pcs[p].UnTail? && !s.pcs[p].LkClear? && !s.pcs[p].UnFree?
    ensures Core(Next(s, p))
  {
    var t := Next(s, p);
    StepFits(s.q, s.ps, p, s.pcs[p]);
    assert t.a.arrivals == s.a.arrivals && t.a.handoffs == s.a.handoffs && t.a.waiters == s.a.waiters;
  }

  lemma StepKeepsPending(s: Sys, p: nat)
    requires Inv(s) && p < |s.pcs| && ProcInv(s, p)
    ensures Pending(Next(s, p))
  {
    if s.pcs[p].UnTail? {
      FrontIsAsleep(s, p);
    } else if s.pcs[p].LkBlock? {
    } else {
      var t := Next(s, p);
      assert t.a.handoffs == s.a.handoffs && t.a.returned == s.a.returned;
    }
  }

  /** How a step changes the waiting sequence, and that it does not unpark a process in it. */
  lemma StepMovesWaiters(s: Sys, p: nat)
    requires Core(s) && p < |s.pcs| && ProcInv(s, p)
    ensures var t := Next(s, p);
      && t.pcs == s.pcs[p := t.pcs[p]]
      && (t.a.waiters == s.a.waiters || (s.pcs[p].UnTail? && t.a.waiters == if s.a.waiters == [] then [] else s.a.waiters[1..])
          || (s.pcs[p].LkClear? && t.a.waiters == s.a.waiters + [p] && Parked(t.pcs[p])))
      && (Parked(s.pcs[p]) && p in s.a.waiters ==> Parked(t.pcs[p]))
  {
  }

  lemma StepKeepsWaiters(s: Sys, p: nat)
    requires Core(s) && WaitersParked(s) && Shape(s) && p < |s.pcs| && ProcInv(s, p)
    ensures WaitersParked(Next(s, p))
  {
    hide Core;
    hide Shape;
    hide Next;
    StepMovesWaiters(s, p);
    assert s.pcs[p].LkClear? ==> p !in s.a.waiters;
    hide ProcInv;
  }

  predicate Appends(pc: Pc) {
    pc.LkTail? || pc.LkLink? || pc.LkSetTail? || pc.LkClear?
  }

  predicate Removes(pc: Pc) {
    pc.UnHead? || pc.UnNext? || pc.UnTail?
  }

  lemma AppendKeepsShape(s: Sys, p: nat)
    requires Core(s) && WaitersParked(s) && Shape(s) && p < |s.pcs| && ProcInv(s, p)
    requires Appends(s.pcs[p])
    ensures Shape(Next(s, p))
  {
    hide *;
    if s.pcs[p].LkLink? {
      LinkKeepsShape(s, p);
    } else {
      SetTailKeepsShape(s, p);
    }
  }

  lemma LinkKeepsShape(s: Sys, p: nat)
    requires Core(s) && WaitersParked(s) && Shape(s) && p < |s.pcs| && ProcInv(s, p) && s.pcs[p].LkLink?
    ensures Shape(Next(s, p))
  {
    var w, t := s.a.waiters, Next(s, p);
    assert p !in w;
    forall i | 0 <= i < |w| ensures w[i] < |t.ps.qnext| && t.ps.qnext[w[i]] == Some((w + [p])[i + 1]) {
      if i < |w| - 1 { assert w[i] != w[|w| - 1]; }
    }
  }

  lemma SetTailKeepsShape(s: Sys, p: nat)
    requires Core(s) && WaitersParked(s) && Shape(s) && p < |s.pcs| && ProcInv(s, p)
    requires Appends(s.pcs[p]) && !s.pcs[p].LkLink?
    ensures Shape(Next(s, p))
  {
    assert p !in s.a.waiters;
    if s.pcs[p].LkClear? {
      assert s.a.waiters + [p] == Next(s, p).a.waiters;
    }
  }

  lemma RemoveKeepsShape(s: Sys, p: nat)
    requires Core(s) && WaitersParked(s) && Shape(s) && p < |s.pcs| && ProcInv(s, p)
    requires Removes(s.pcs[p])
    ensures Shape(Next(s, p))
  {
    if s.pcs[p].UnTail? {
      var w := s.a.waiters;
      assert w == [w[0]] + w[1..];
      assert Last(w[1..]) == if |w| == 1 then None else Last(w);
    }
  }

  /** Any other step leaves the links alone, and stops inside the spin word only where the list is whole. */
  lemma PlainKeepsShape(s: Sys, p: nat)
    requires Core(s) && WaitersParked(s) && Shape(s) && p < |s.pcs| && ProcInv(s, p)
    requires !Appends(s.pcs[p]) && !Removes(s.pcs[p])
    ensures Shape(Next(s, p))
  {
    var t := Next(s, p);
    assert t.a.waiters == s.a.waiters && t.ps.qnext == s.ps.qnext;
    assert t.q.head == s.q.head && t.q.tail == s.q.tail;
    if InCs(s.pcs[p]) {
      assert Spells(s.q, s.ps.qnext, s.a.waiters);
    } else if s.a.cs.None? {
      assert Spells(s.q, s.ps.qnext, s.a.waiters);
    } else {
      assert s.a.cs.value != p && t.a.cs == s.a.cs && t.pcs[s.a.cs.value] == s.pcs[s.a.cs.value];
    }
  }

  predicate InUnlock(pc: Pc) {
    match pc
    case UnSpin | UnHead | UnNext(_) | UnTail(_) | UnRel(_) | UnReady(_) | UnFree | UnFreeRel => true
    case _ => false
  }

  lemma LockKeepsSelf(s: Sys, p: nat)
    requires Core(s) && WaitersParked(s) && p < |s.pcs| && ProcInv(s, p)
    requires !InUnlock(s.pcs[p])
    ensures ProcInv(Next(s, p), p)
  {
    var t := Next(s, p);
    if s.pcs[p].LkClear? {
      assert p !in s.a.waiters;
      assert t.a.waiters[|s.a.waiters|] == p;
    } else {
      assert t.a.waiters == s.a.waiters;
    }
  }

  lemma UnlockKeepsSelf(s: Sys, p: nat)
    requires Inv(s) && p < |s.pcs| && ProcInv(s, p) && InUnlock(s.pcs[p])
    ensures ProcInv(Next(s, p), p)
  {
    if s.pcs[p].UnTail? {
      HandOffKeepsSelf(s, p);
    } else {
      OthersKeepSelf(s, p);
    }
  }

  lemma HandOffKeepsSelf(s: Sys, p: nat)
    requires Inv(s) && p < |s.pcs| && ProcInv(s, p) && s.pcs[p].UnTail?
    ensures ProcInv(Next(s, p), p)
  {
    FrontIsAsleep(s, p);
  }

  lemma OthersKeepSelf(s: Sys, p: nat)
    requires Inv(s) && p < |s.pcs| && ProcInv(s, p) && InUnlock(s.pcs[p]) && !s.pcs[p].UnTail?
    ensures ProcInv(Next(s, p), p)
  {
    assert Next(s, p).a.waiters == s.a.waiters;
  }

  lemma StepKeepsOther(s: Sys, p: nat, r: nat)
    requires Core(s) && WaitersParked(s) && Shape(s) && p < |s.pcs| && ProcInv(s, p)
    requires r < |s.pcs| && p != r && ProcInv(s, r)
    ensures ProcInv(Next(s, p), r)
  {
  }

  lemma StepKeepsInv(s: Sys, p: nat)
    requires Inv(s) && p < |s.pcs|
    ensures ProcInv(s, p) && Inv(Next(s, p))
  {
    assert ProcInv(s, p);
    var t := Next(s, p);
    StepKeepsCore(s, p);
    StepKeepsPending(s, p);
    StepKeepsWaiters(s, p);
    if Appends(s.pcs[p]) {
      AppendKeepsShape(s, p);
    } else if Removes(s.pcs[p]) {
      RemoveKeepsShape(s, p);
    } else {
      PlainKeepsShape(s, p);
    }
    forall r | 0 <= r < |t.pcs| ensures ProcInv(t, r) {
      if r != p {
        assert ProcInv(s, r);
        StepKeepsOther(s, p, r);
      } else if InUnlock(s.pcs[p]) {
        UnlockKeepsSelf(s, p);
      } else {
        LockKeepsSelf(s, p);
      }
    }
  }

  /** A step changes words of processes inside operations only, and never the ownership of an outsider. */
  lemma StepTouches(s: Sys, p: nat)
    requires Inv(s) && p < |s.pcs| && !s.pcs[p].Out? && ProcInv(s, p)
    ensures var t := Next(s, p);
      && (t.a.owner == Group <==> s.a.owner == Group)
      && forall r :: 0 <= r < |s.pcs| && s.pcs[r].Out? ==>
           && t.ps.qnext[r] == s.ps.qnext[r] && t.ps.sem[r] == s.ps.sem[r]
           && (t.a.owner == Proc(r) <==> s.a.owner == Proc(r))
  {
    if s.pcs[p].UnTail? {
      FrontIsAsleep(s, p);
    } else if s.pcs[p].LkLink? && s.a.waiters != [] {
      assert Parked(s.pcs[s.a.waiters[|s.a.waiters| - 1]]);
    }
  }

  // ----- calls and returns

  predicate SameForInsiders(ps: Procs, ps': Procs, pcs: seq<Pc>)
    requires ProcsFit(ps, |pcs|) && ProcsFit(ps', |pcs|)
  {
    forall r :: 0 <= r < |pcs| && !pcs[r].Out? ==> ps.qnext[r] == ps'.qnext[r] && ps.sem[r] == ps'.sem[r]
  }

  lemma FrameShape(s: Sys, ps': Procs)
    requires Core(s) && WaitersParked(s) && Shape(s)
    requires s.a.cs.Some? ==> !s.pcs[s.a.cs.value].Out?
    requires ProcsFit(ps', |s.pcs|) && SameForInsiders(s.ps, ps', s.pcs)
    ensures Shape(s.(ps := ps'))
  {
    var w := s.a.waiters;
    WordsFrame(s, ps');
    hide SameForInsiders;
    hide WaitersParked;
    hide Core;
    hide Chain;
    hide Spells;
    ChainFrame(s.ps.qnext, ps'.qnext, w);
    SpellsFrame(s.q, s.ps.qnext, ps'.qnext, w);
    if s.a.cs.Some? {
      ChainFrame(s.ps.qnext, ps'.qnext, w + [s.a.cs.value]);
    }
  }

  /** The words of waiting processes, and of the one in the protected region, are the same. */
  lemma WordsFrame(s: Sys, ps': Procs)
    requires Core(s) && WaitersParked(s)
    requires s.a.cs.Some? ==> !s.pcs[s.a.cs.value].Out?
    requires ProcsFit(ps', |s.pcs|) && SameForInsiders(s.ps, ps', s.pcs)
    ensures |s.ps.qnext| == |ps'.qnext| == |s.pcs|
    ensures forall i :: 0 <= i < |s.a.waiters| ==> s.a.waiters[i] < |s.pcs| && s.ps.qnext[s.a.waiters[i]] == ps'.qnext[s.a.waiters[i]]
    ensures s.a.cs.Some? ==> s.a.cs.value < |s.pcs| && s.ps.qnext[s.a.cs.value] == ps'.qnext[s.a.cs.value]
  {
  }

  lemma SpellsFrame(q: QLock, qnext: seq<Option<nat>>, qnext': seq<Option<nat>>, w: seq<nat>)
    requires |qnext| == |qnext'| && forall i :: 0 <= i < |w| ==> w[i] < |qnext| && qnext[w[i]] == qnext'[w[i]]
    ensures Spells(q, qnext, w) <==> Spells(q, qnext', w)
  {
    hide Chain;
    ChainFrame(qnext, qnext', w);
  }

  lemma ChainFrame(qnext: seq<Option<nat>>, qnext': seq<Option<nat>>, w: seq<nat>)
    requires |qnext| == |qnext'|
    requires forall i :: 0 <= i < |w| ==> w[i] < |qnext| && qnext[w[i]] == qnext'[w[i]]
    ensures Chain(qnext, w) <==> Chain(qnext', w)
  {
    forall i | 0 <= i < |w| - 1 ensures qnext[w[i]] == qnext'[w[i]] {}
  }

  /** Words of processes that are not inside an operation on this lock may change freely. */
  lemma Frame(s: Sys, ps': Procs)
    requires Inv(s) && ProcsFit(ps', |s.pcs|) && SameForInsiders(s.ps, ps', s.pcs)
    ensures Inv(s.(ps := ps'))
  {
    hide Step;
    if s.a.cs.Some? { assert ProcInv(s, s.a.cs.value); }
    FrameShape(s, ps');
    forall r | 0 <= r < |s.pcs| ensures ProcInv(s.(ps := ps'), r) { assert ProcInv(s, r); }
  }

  /** Calling qlock or canqlock. */
  lemma EnterKeepsInv(s: Sys, p: nat, pc: Pc)
    requires Inv(s) && p < |s.pcs| && s.pcs[p].Out? && !s.ps.sem[p]
    requires (pc.LkSpin? || pc.CanSpin?) && s.a.owner != Proc(p)
    ensures Inv(s.(pcs := s.pcs[p := pc]))
  {
    var t := s.(pcs := s.pcs[p := pc]);
    assert ProcInv(s, p);
    forall r | 0 <= r < |s.pcs| ensures ProcInv(t, r) { assert ProcInv(s, r); }
  }

  /** Calling qunlock, by the owner or by a process acting for the group that holds the lock. */
  lemma EnterUnlockKeepsInv(s: Sys, p: nat)
    requires Inv(s) && p < |s.pcs| && s.pcs[p].Out? && !s.ps.sem[p]
    requires s.a.owner == Proc(p) || s.a.owner == Group
    ensures Inv(s.(pcs := s.pcs[p := UnSpin], a := s.a.(owner := Proc(p))))
  {
    var t := s.(pcs := s.pcs[p := UnSpin], a := s.a.(owner := Proc(p)));
    assert ProcInv(s, p);
    forall r | 0 <= r < |s.pcs| ensures ProcInv(t, r) { assert ProcInv(s, r); }
  }

  /** Returning from an operation; a new owner may hand the lock to the group it belongs to. */
  lemma LeaveKeepsInv(s: Sys, p: nat, owner: Owner)
    requires Inv(s) && p < |s.pcs| && (s.pcs[p].Got? || s.pcs[p].Missed? || s.pcs[p].Gone?)
    requires owner == s.a.owner || (s.pcs[p].Got? && owner == Group)
    ensures Inv(s.(pcs := s.pcs[p := Out], a := s.a.(owner := owner)))
    ensures !s.ps.sem[p] && (s.pcs[p].Got? <==> s.a.owner == Proc(p))
  {
    var t := s.(pcs := s.pcs[p := Out], a := s.a.(owner := owner));
    assert ProcInv(s, p);
    forall r | 0 <= r < |s.pcs| ensures ProcInv(t, r) { assert ProcInv(s, r); }
  }
}
