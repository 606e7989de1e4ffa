/**
  The reader/writer lock of lib9/lock.c: two queueing locks `x` and `k`, a spin word `l`
  and a reader count.  Any number of processes call rlock/canrlock/runlock and
  wlock/wunlock, each pairing its own calls, and their steps interleave freely.
 */
module RWLock {
  import opened QueueLock
  import opened Wrappers

  /** Which of the two queueing locks an operation works on. */
  datatype Which = X | K

  /** The call to a queueing-lock operation that a process is executing. */
  datatype Role =
    | RlockX      // rlock: qlock(&l->x)
    | CanrlockX   // canrlock: canqlock(&l->x)
    | RlockK      // rlock, canrlock: canqlock(&l->k), result ignored
    | RlockEnd    // rlock, canrlock: qunlock(&l->x)
    | RunlockK    // runlock: qunlock(&l->k)
    | WlockX      // wlock: qlock(&l->x)
    | WlockK      // wlock: qlock(&l->k)
    | WunlockK    // wunlock: qunlock(&l->k)
    | WunlockX    // wunlock: qunlock(&l->x)

  datatype RPc =
    | Idle
    | Op(role: Role, c: Pc)
    | RSpin          // rlock: lock(&l->l)
    | RInc           // l->readers++
    | RUnl           // unlock(&l->l)
    | Reading
    | DSpin          // runlock: lock(&l->l)
    | DDec           // --l->readers == 0
    | DUnl           // unlock(&l->l)
    | Writing

  /** What an idle process calls when it is next scheduled. */
  datatype Call = Rlock | Canrlock | Wlock

  datatype Mem = Mem(x: QLock, k: QLock, l: bool, readers: int, ps: Procs, pcs: seq<RPc>)

  /** History for the two queueing locks and the holder of the spin word `l`. */
  datatype Hist = Hist(x: Aux, k: Aux, l: Option<nat>)

  function LockOf(role: Role): Which {
    match role
    case RlockX | CanrlockX | RlockEnd | WlockX | WunlockX => X
    case RlockK | RunlockK | WlockK | WunlockK => K
  }

  function On(w: Which, pc: RPc): Pc {
    if pc.Op? && LockOf(pc.role) == w then pc.c else Out
  }

  function View(w: Which, pcs: seq<RPc>): (v: seq<Pc>)
    ensures |v| == |pcs| && forall i :: 0 <= i < |v| ==> v[i] == On(w, pcs[i])
  {
    seq(|pcs|, i requires 0 <= i < |pcs| => On(w, pcs[i]))
  }

  function SysOf(w: Which, m: Mem, h: Hist): Sys {
    Sys(if w.X? then m.x else m.k, m.ps, View(w, m.pcs), if w.X? then h.x else h.k)
  }

  /** Pointers in memory name processes. */
  predicate MemFits(m: Mem) {
    var n := |m.pcs|;
    && ProcsFit(m.ps, n) && LockFits(m.x, n) && LockFits(m.k, n)
    && (forall i :: 0 <= i < n ==> PcFits(On(X, m.pcs[i]), n) && PcFits(On(K, m.pcs[i]), n))
  }

  /** Where control goes when the operation for `role` returns at `c`. */
  function Return(role: Role, c: Pc): RPc {
    match role
    case RlockX => RSpin
    case CanrlockX => if c.Got? then RSpin else Idle
    case RlockK => RUnl
    case RlockEnd => Reading
    case RunlockK => DUnl
    case WlockX => Op(WlockK, LkSpin)
    case WlockK => Writing
    case WunlockK => Op(WunlockX, UnSpin)
    case WunlockX => Idle
  }

  /** One step of process `p` in memory. */
  function MemStep(m: Mem, p: nat, call: Call): (r: Mem)
    requires MemFits(m) && p < |m.pcs|
    ensures MemFits(r) && |r.pcs| == |m.pcs|
  {
    match m.pcs[p]
    case Op(role, c) =>
      if Running(c) then LockMemStep(m, p, role, c)
      else m.(pcs := m.pcs[p := Return(role, c)])
    case Idle =>
      m.(pcs := m.pcs[p := match call
                           case Rlock => Op(RlockX, LkSpin)
                           case Canrlock => Op(CanrlockX, CanSpin)
                           case Wlock => Op(WlockX, LkSpin)])
    case RSpin => if m.l then m else m.(l := true, pcs := m.pcs[p := RInc])
    case RInc => m.(readers := m.readers + 1, pcs := m.pcs[p := Op(RlockK, CanSpin)])
    case RUnl => m.(l := false, pcs := m.pcs[p := Op(RlockEnd, UnSpin)])
    case Reading => m.(pcs := m.pcs[p := DSpin])
    case DSpin => if m.l then m else m.(l := true, pcs := m.pcs[p := DDec])
    case DDec => m.(readers := m.readers - 1, pcs := m.pcs[p := if m.readers == 1 then Op(RunlockK, UnSpin) else DUnl])
    case DUnl => m.(l := false, pcs := m.pcs[p := Idle])
    case Writing => m.(pcs := m.pcs[p := Op(WunlockK, UnSpin)])
  }

  function LockMemStep(m: Mem, p: nat, role: Role, c: Pc): (r: Mem)
    requires MemFits(m) && p < |m.pcs| && m.pcs[p] == Op(role, c)
    ensures MemFits(r) && |r.pcs| == |m.pcs|
  {
    var q := if LockOf(role).X? then m.x else m.k;
    assert PcFits(On(LockOf(role), m.pcs[p]), |m.pcs|);
    StepFits(q, m.ps, p, c);
    var (q', ps, c') := Step(q, m.ps, p, c);
    if LockOf(role).X? then m.(x := q', ps := ps, pcs := m.pcs[p := Op(role, c')])
    else m.(k := q', ps := ps, pcs := m.pcs[p := Op(role, c')])
  }

  /** The history update of the same step. */
  function HistStep(m: Mem, h: Hist, p: nat): Hist
    requires p < |m.pcs| && |m.ps.sem| == |m.pcs|
  {
    match m.pcs[p]
    case Op(role, c) =>
      if Running(c) then
        if LockOf(role).X? then h.(x := AuxStep(m.x, m.ps, h.x, p, c)) else h.(k := AuxStep(m.k, m.ps, h.k, p, c))
      else if role.RlockK? && c.Got? then h.(k := h.k.(owner := Group))   // the first reader takes k for all readers
      else h
    case RSpin => if m.l then h else h.(l := Some(p))
    case DSpin => if m.l then h else h.(l := Some(p))
    case RUnl => h.(l := None)
    case DUnl => h.(l := None)
    case DDec => if m.readers == 1 then h.(k := h.k.(owner := Proc(p))) else h
    case _ => h
  }

  // ----- the invariant

  /** The operation in progress is the one its caller started. */
  predicate WellCalled(pc: RPc) {
    pc.Op? ==>
      match pc.role
      case RlockX | WlockX | WlockK => IsLk(pc.c)
      case CanrlockX | RlockK => IsCan(pc.c)
      case RlockEnd | RunlockK | WunlockK | WunlockX => IsUn(pc.c)
  }

  predicate At(pc: RPc, role: Role) {
    pc.Op? && pc.role == role
  }

  /** Program counters protected by the spin word `l`. */
  predicate InL(pc: RPc) {
    pc.RInc? || At(pc, RlockK) || pc.RUnl? || pc.DDec? || At(pc, RunlockK) || pc.DUnl?
  }

  /** Holds `x` while not executing an operation on it. */
  predicate HoldsX(pc: RPc) {
    pc.RSpin? || pc.RInc? || At(pc, RlockK) || pc.RUnl? || At(pc, WlockK) || pc.Writing? || At(pc, WunlockK)
  }

  /** Counted in `readers`. */
  predicate Counted(pc: RPc) {
    At(pc, RlockK) || pc.RUnl? || At(pc, RlockEnd) || pc.Reading? || pc.DSpin? || pc.DDec?
  }

  function Count(pcs: seq<RPc>): nat {
    if pcs == [] then 0 else Count(pcs[..|pcs| - 1]) + if Counted(pcs[|pcs| - 1]) then 1 else 0
  }

  predicate PInv(m: Mem, h: Hist, p: nat)
    requires p < |m.pcs| == |m.ps.sem|
  {
    var pc := m.pcs[p];
    && WellCalled(pc)
    && (InL(pc) <==> h.l == Some(p))
    && (On(X, pc).Out? ==> (HoldsX(pc) <==> h.x.owner == Proc(p)))
    && (On(K, pc).Out? ==> (pc.Writing? <==> h.k.owner == Proc(p)))
    && (m.ps.sem[p] ==> On(X, pc).LkBlock? || On(K, pc).LkBlock?)
  }

  /** `k` and the reader count while reader `p` executes the ignored canqlock. */
  predicate ReaderAtK(p: nat, c: Pc, owner: Owner, readers: int) {
    && readers >= 1
    && owner == (if Owning(c) then Proc(p) else if readers == 1 then Nobody else Group)
    && (Owning(c) ==> readers == 1)
    && (c.CanFailRel? || c.Missed? ==> readers >= 2)
  }

  /** How `k` and the reader count go together, also in the middle of rlock and runlock. */
  predicate KState(m: Mem, h: Hist) {
    if h.l.Some? && h.l.value < |m.pcs| && At(m.pcs[h.l.value], RlockK) then
      ReaderAtK(h.l.value, m.pcs[h.l.value].c, h.k.owner, m.readers)
    else if h.l.Some? && h.l.value < |m.pcs| && At(m.pcs[h.l.value], RunlockK) then
      m.readers == 0 && h.k.owner != Group
    else
      m.readers > 0 <==> h.k.owner == Group
  }

  predicate RInv(m: Mem, h: Hist) {
    && MemFits(m)
    && Inv(SysOf(X, m, h)) && Inv(SysOf(K, m, h))
    && (m.l <==> h.l.Some?) && Fits(h.l, |m.pcs|)
    && h.x.owner != Group
    && m.readers == Count(m.pcs)
    && KState(m, h)
    && (forall p :: 0 <= p < |m.pcs| ==> PInv(m, h, p))
  }

  lemma {:induction false} CountUpdate(pcs: seq<RPc>, p: nat, pc: RPc)
    requires p < |pcs|
    ensures Count(pcs[p := pc]) + (if Counted(pcs[p]) then 1 else 0) == Count(pcs) + if Counted(pc) then 1 else 0
  {
    var k := |pcs| - 1;
    if p == k {
      assert pcs[p := pc][..k] == pcs[..k];
    } else {
      assert pcs[p := pc][..k] == pcs[..k][p := pc];
      CountUpdate(pcs[..k], p, pc);
    }
  }

  lemma {:induction false} CountPositive(pcs: seq<RPc>, p: nat)
    requires p < |pcs| && Counted(pcs[p])
    ensures Count(pcs) > 0
  {
    if p < |pcs| - 1 {
      CountPositive(pcs[..|pcs| - 1], p);
    }
  }

  /** A reader that holds `x` and `l` finds nobody else inside an operation on `k`. */
  lemma KIsQuiet(m: Mem, h: Hist, p: nat)
    requires RInv(m, h) && p < |m.pcs| && (At(m.pcs[p], RlockK) || m.pcs[p].RInc?)
    ensures forall q :: 0 <= q < |m.pcs| && q != p ==> On(K, m.pcs[q]).Out? && !m.pcs[q].Writing?
    ensures m.pcs[p].RInc? || m.pcs[p].c.CanSpin? ==> !m.k.use
    ensures h.k.owner.Proc? ==> h.k.owner.p == p && !m.pcs[p].RInc?
  {
    assert PInv(m, h, p);
    forall q | 0 <= q < |m.pcs| && q != p ensures On(K, m.pcs[q]).Out? && !m.pcs[q].Writing? {
      assert PInv(m, h, q);
    }
    var s := SysOf(K, m, h);
    if s.a.cs.Some? {
      assert ProcInv(s, s.a.cs.value);
    }
    if s.a.owner.Proc? {
      assert PInv(m, h, s.a.owner.p);
    }
  }

  // ----- every step keeps the invariant

  function Other(w: Which): Which {
    if w.X? then K else X
  }

  /** A step on one queueing lock is a step of that lock's own system; the other lock only sees process words change. */
  lemma LockStepViews(w: Which, m: Mem, h: Hist, p: nat, call: Call)
    requires MemFits(m) && p < |m.pcs| && Running(On(w, m.pcs[p]))
    ensures var m', h' := MemStep(m, p, call), HistStep(m, h, p);
      && SysOf(w, m', h') == Next(SysOf(w, m, h), p)
      && SysOf(Other(w), m', h') == SysOf(Other(w), m, h).(ps := m'.ps)
      && m'.pcs == m.pcs[p := Op(m.pcs[p].role, On(w, m'.pcs[p]))]
      && m'.readers == m.readers && m'.l == m.l && h'.l == h.l
  {
    hide Step;
    hide AuxStep;
    var m' := MemStep(m, p, call);
    assert View(w, m'.pcs) == View(w, m.pcs)[p := On(w, m'.pcs[p])];
    assert View(Other(w), m'.pcs) == View(Other(w), m.pcs);
  }

  lemma LockStepInv(w: Which, m: Mem, h: Hist, p: nat, call: Call)
    requires MemFits(m) && Inv(SysOf(w, m, h)) && Inv(SysOf(Other(w), m, h))
    requires p < |m.pcs| && Running(On(w, m.pcs[p]))
    ensures var m', h' := MemStep(m, p, call), HistStep(m, h, p);
      && ProcInv(SysOf(w, m, h), p)
      && Inv(SysOf(w, m', h')) && Inv(SysOf(Other(w), m', h'))
  {
    var s, o := SysOf(w, m, h), SysOf(Other(w), m, h);
    LockStepViews(w, m, h, p, call);
    StepKeepsInv(s, p);
    OtherViewKept(w, m, s, o, p);
  }

  lemma OtherViewKept(w: Which, m: Mem, s: Sys, o: Sys, p: nat)
    requires Inv(s) && Inv(o) && p < |m.pcs| && s.pcs == View(w, m.pcs) && o.pcs == View(Other(w), m.pcs)
    requires s.ps == o.ps && !s.pcs[p].Out? && ProcInv(s, p)
    ensures Inv(o.(ps := Next(s, p).ps))
  {
    hide Step;
    StepTouches(s, p);
    StepFits(s.q, s.ps, p, s.pcs[p]);
    Frame(o, Next(s, p).ps);
  }

  function OwnerOf(w: Which, h: Hist): Owner {
    if w.X? then h.x.owner else h.k.owner
  }

  /** What a step of `p` on lock `w` means for process `r`. */
  predicate SeenBy(w: Which, m: Mem, h: Hist, m': Mem, h': Hist, p: nat, r: nat)
    requires p < |m.pcs| == |m'.pcs| == |m.ps.sem| == |m'.ps.sem| && r < |m.pcs|
  {
    && h'.l == h.l && OwnerOf(Other(w), h') == OwnerOf(Other(w), h)
    && m.pcs[p].Op? && m'.pcs[p].Op? && m'.pcs[p].role == m.pcs[p].role && LockOf(m.pcs[p].role) == w
    && WellCalled(m'.pcs[p]) && !m.pcs[p].c.Out? && !m'.pcs[p].c.Out?
    && (r != p ==> m'.pcs[r] == m.pcs[r])
    && (if On(w, m.pcs[r]).Out?
        then (OwnerOf(w, h') == Proc(r) <==> OwnerOf(w, h) == Proc(r)) && m'.ps.sem[r] == m.ps.sem[r]
        else m'.ps.sem[r] ==> On(w, m'.pcs[r]).LkBlock?)
  }

  lemma SeenByKeepsPInv(w: Which, m: Mem, h: Hist, m': Mem, h': Hist, p: nat, r: nat)
    requires p < |m.pcs| == |m'.pcs| == |m.ps.sem| == |m'.ps.sem| && r < |m.pcs|
    requires SeenBy(w, m, h, m', h', p, r) && PInv(m, h, p) && PInv(m, h, r)
    ensures PInv(m', h', r)
  {
  }

  lemma SemMeansBlocked(s: Sys, r: nat)
    requires Inv(s) && r < |s.pcs|
    ensures |s.ps.sem| == |s.pcs| && (s.ps.sem[r] ==> s.pcs[r].Out? || s.pcs[r].LkBlock?)
  {
    assert ProcInv(s, r);
  }

  lemma LockStepSeenBy(w: Which, m: Mem, h: Hist, p: nat, call: Call, r: nat)
    requires MemFits(m) && Inv(SysOf(w, m, h)) && Inv(SysOf(Other(w), m, h))
    requires p < |m.pcs| && r < |m.pcs| && Running(On(w, m.pcs[p])) && WellCalled(m.pcs[p])
    ensures |MemStep(m, p, call).ps.sem| == |m.pcs| && SeenBy(w, m, h, MemStep(m, p, call), HistStep(m, h, p), p, r)
  {
    hide Step;
    hide AuxStep;
    hide MemStep;
    hide HistStep;
    hide Inv;
    hide ProcInv;
    var m', h' := MemStep(m, p, call), HistStep(m, h, p);
    var s := SysOf(w, m, h);
    LockStepInv(w, m, h, p, call);
    LockStepViews(w, m, h, p, call);
    StepTouches(s, p);
    StepStaysCalled(s.q, s.ps, p, s.pcs[p]);
    SemMeansBlocked(SysOf(w, m', h'), r);
  }

  /** The ignored canqlock: with one reader counted it finds `k` free and takes it, with more it finds `k` held. */
  lemma CanStepKeepsReaderAtK(q: QLock, ps: Procs, a: Aux, p: nat, c: Pc, readers: int)
    requires p < |ps.qnext| && ProcsFit(ps, |ps.qnext|) && LockFits(q, |ps.qnext|) && PcFits(c, |ps.qnext|)
    requires IsCan(c) && Running(c) && (c.CanSpin? ==> !q.use) && (q.locked <==> a.owner != Nobody)
    requires (c.CanTake? ==> !q.locked) && ReaderAtK(p, c, a.owner, readers)
    ensures ReaderAtK(p, Step(q, ps, p, c).2, AuxStep(q, ps, a, p, c).owner, readers)
  {
  }

  lemma FirstReaderKeepsKState(m: Mem, h: Hist, p: nat, call: Call)
    requires RInv(m, h) && p < |m.pcs| && At(m.pcs[p], RlockK) && Running(m.pcs[p].c)
    ensures KState(MemStep(m, p, call), HistStep(m, h, p))
  {
    hide Step;
    hide AuxStep;
    assert PInv(m, h, p) && ProcInv(SysOf(K, m, h), p);
    KIsQuiet(m, h, p);
    LockStepViews(K, m, h, p, call);
    CanStepKeepsReaderAtK(m.k, m.ps, h.k, p, m.pcs[p].c, m.readers);
  }

  lemma LockStepKeepsKState(m: Mem, h: Hist, p: nat, call: Call)
    requires RInv(m, h) && p < |m.pcs| && m.pcs[p].Op? && Running(m.pcs[p].c) && !At(m.pcs[p], RlockK)
    ensures KState(MemStep(m, p, call), HistStep(m, h, p))
  {
    hide Step;
    hide AuxStep;
    hide Inv;
    hide ProcInv;
    hide MemStep;
    hide HistStep;
    var w, s := LockOf(m.pcs[p].role), SysOf(LockOf(m.pcs[p].role), m, h);
    assert PInv(m, h, p);
    if h.l.Some? { assert PInv(m, h, h.l.value); }
    LockStepInv(w, m, h, p, call);
    LockStepViews(w, m, h, p, call);
    StepTouches(s, p);
    if w.K? && h.l.Some? && At(m.pcs[h.l.value], RlockK) {
      KIsQuiet(m, h, h.l.value);
    }
    hide PInv;
    KStateKept(m, h, MemStep(m, p, call), HistStep(m, h, p), p, On(w, MemStep(m, p, call).pcs[p]));
    hide KState;
  }

  lemma KStateKept(m: Mem, h: Hist, m': Mem, h': Hist, p: nat, c: Pc)
    requires p < |m.pcs| && m.pcs[p].Op? && m'.pcs == m.pcs[p := Op(m.pcs[p].role, c)] && !At(m.pcs[p], RlockK)
    requires KState(m, h) && m'.readers == m.readers && h'.l == h.l && (h'.k.owner == Group <==> h.k.owner == Group)
    requires h.l.Some? && h.l.value < |m.pcs| && At(m.pcs[h.l.value], RlockK) ==> h'.k.owner == h.k.owner
    ensures KState(m', h')
  {
  }

  lemma LockStepKeepsRInv(m: Mem, h: Hist, p: nat, call: Call)
    requires RInv(m, h) && p < |m.pcs| && m.pcs[p].Op? && Running(m.pcs[p].c)
    ensures RInv(MemStep(m, p, call), HistStep(m, h, p))
  {
    hide Step;
    hide AuxStep;
    hide Inv;
    hide ProcInv;
    hide MemStep;
    hide HistStep;
    hide KState;
    var m', h', w := MemStep(m, p, call), HistStep(m, h, p), LockOf(m.pcs[p].role);
    assert WellCalled(m.pcs[p]) by { assert PInv(m, h, p); }
    LockStepInv(w, m, h, p, call);
    LockStepViews(w, m, h, p, call);
    if At(m.pcs[p], RlockK) {
      FirstReaderKeepsKState(m, h, p, call);
    } else {
      LockStepKeepsKState(m, h, p, call);
    }
    CountUpdate(m.pcs, p, m'.pcs[p]);
    StepTouches(SysOf(w, m, h), p);
    LockStepKeepsPInv(w, m, h, p, call);
    hide PInv;
  }

  lemma LockStepKeepsPInv(w: Which, m: Mem, h: Hist, p: nat, call: Call)
    requires RInv(m, h) && p < |m.pcs| && m.pcs[p].Op? && Running(m.pcs[p].c) && w == LockOf(m.pcs[p].role)
    ensures var m', h' := MemStep(m, p, call), HistStep(m, h, p);
      |m'.ps.sem| == |m'.pcs| && forall r :: 0 <= r < |m'.pcs| ==> PInv(m', h', r)
  {
    hide Step;
    hide AuxStep;
    hide Inv;
    hide ProcInv;
    hide MemStep;
    hide HistStep;
    hide KState;
    hide SeenBy;
    var m', h' := MemStep(m, p, call), HistStep(m, h, p);
    assert WellCalled(m.pcs[p]) by { assert PInv(m, h, p); }
    hide WellCalled;
    hide PInv;
    forall r | 0 <= r < |m'.pcs| ensures PInv(m', h', r) {
      assert PInv(m, h, r);
      LockStepSeenBy(w, m, h, p, call, r);
      SeenByKeepsPInv(w, m, h, m', h', p, r);
    }
  }

  /** How the system of lock `w` changes when `p` moves to `pc` and the owner is renamed. */
  lemma MoveView(w: Which, m: Mem, h: Hist, m': Mem, h': Hist, p: nat, pc: RPc)
    requires p < |m.pcs| && m'.pcs == m.pcs[p := pc] && m'.ps == m.ps && m'.x == m.x && m'.k == m.k
    requires h'.x == h.x.(owner := h'.x.owner) && h'.k == h.k.(owner := h'.k.owner)
    ensures SysOf(w, m', h') ==
      SysOf(w, m, h).(pcs := View(w, m.pcs)[p := On(w, pc)],
                      a := (if w.X? then h.x else h.k).(owner := OwnerOf(w, h')))
    ensures On(w, pc) == On(w, m.pcs[p]) && OwnerOf(w, h') == OwnerOf(w, h) ==> SysOf(w, m', h') == SysOf(w, m, h)
  {
    assert View(w, m'.pcs) == View(w, m.pcs)[p := On(w, pc)];
    if On(w, pc) == On(w, m.pcs[p]) {
      assert View(w, m'.pcs) == View(w, m.pcs);
    }
  }

  /** Everything in the invariant except the two locks' own systems. */
  predicate Outer(m: Mem, h: Hist) {
    && MemFits(m)
    && (m.l <==> h.l.Some?) && Fits(h.l, |m.pcs|)
    && h.x.owner != Group
    && m.readers == Count(m.pcs)
    && KState(m, h)
    && (forall p :: 0 <= p < |m.pcs| ==> PInv(m, h, p))
  }

  /** The lock whose operation returns: its owner, if the caller is the first reader, becomes the group. */
  lemma ReturnKeepsOwnLock(m: Mem, h: Hist, p: nat, call: Call)
    requires MemFits(m) && p < |m.pcs| && m.pcs[p].Op? && !Running(m.pcs[p].c) && !m.pcs[p].c.Out?
    requires Inv(SysOf(LockOf(m.pcs[p].role), m, h))
    ensures Inv(SysOf(LockOf(m.pcs[p].role), MemStep(m, p, call), HistStep(m, h, p)))
    ensures !m.ps.sem[p] && (m.pcs[p].c.Got? <==> OwnerOf(LockOf(m.pcs[p].role), h) == Proc(p))
  {
    hide Inv;
    hide LockMemStep;
    hide AuxStep;
    var role, m', h' := m.pcs[p].role, MemStep(m, p, call), HistStep(m, h, p);
    var w := LockOf(role);
    LeaveKeepsInv(SysOf(w, m, h), p, OwnerOf(w, h'));
    MoveView(w, m, h, m', h', p, Return(role, m.pcs[p].c));
  }

  lemma ReturnKeepsOtherLock(m: Mem, h: Hist, p: nat, call: Call)
    requires MemFits(m) && p < |m.pcs| && m.pcs[p].Op? && !Running(m.pcs[p].c)
    requires Inv(SysOf(Other(LockOf(m.pcs[p].role)), m, h)) && PInv(m, h, p) && !m.ps.sem[p]
    ensures Inv(SysOf(Other(LockOf(m.pcs[p].role)), MemStep(m, p, call), HistStep(m, h, p)))
  {
    hide Inv;
    hide LockMemStep;
    hide AuxStep;
    var role, m', h' := m.pcs[p].role, MemStep(m, p, call), HistStep(m, h, p);
    var o := Other(LockOf(role));
    MoveView(o, m, h, m', h', p, Return(role, m.pcs[p].c));
    if role.WlockX? {
      EnterKeepsInv(SysOf(K, m, h), p, LkSpin);
    } else if role.WunlockK? {
      EnterUnlockKeepsInv(SysOf(X, m, h), p);
    }
  }

  /** What a step outside the queueing locks does, and how it enters one of them. */
  lemma CallEnters(w: Which, m: Mem, h: Hist, p: nat, call: Call)
    requires MemFits(m) && p < |m.pcs| && !m.pcs[p].Op? && PInv(m, h, p)
    requires m.pcs[p].DDec? && m.readers == 1 ==> h.k.owner == Group
    ensures var m', h' := MemStep(m, p, call), HistStep(m, h, p);
      var c := On(w, m'.pcs[p]);
      && m'.pcs == m.pcs[p := m'.pcs[p]] && m'.ps == m.ps && m'.x == m.x && m'.k == m.k
      && h'.x == h.x && h'.k == h.k.(owner := h'.k.owner)
      && On(w, m.pcs[p]).Out? && !m.ps.sem[p]
      && (c.Out? || c.UnSpin? || c.LkSpin? || c.CanSpin?)
      && (c.UnSpin? ==> OwnerOf(w, h') == Proc(p) && OwnerOf(w, h) != Nobody && (OwnerOf(w, h) == Proc(p) || OwnerOf(w, h) == Group))
      && (!c.UnSpin? ==> OwnerOf(w, h') == OwnerOf(w, h))
      && (c.LkSpin? || c.CanSpin? ==> OwnerOf(w, h) != Proc(p))
  {
    hide LockMemStep;
    hide AuxStep;
    hide Running;
  }

  lemma CallKeepsLock(w: Which, m: Mem, h: Hist, p: nat, call: Call)
    requires MemFits(m) && Inv(SysOf(w, m, h)) && p < |m.pcs| && !m.pcs[p].Op? && PInv(m, h, p)
    requires m.pcs[p].DDec? && m.readers == 1 ==> h.k.owner == Group
    ensures Inv(SysOf(w, MemStep(m, p, call), HistStep(m, h, p)))
  {
    hide Inv;
    hide LockMemStep;
    hide AuxStep;
    hide Running;
    var m', h' := MemStep(m, p, call), HistStep(m, h, p);
    var c := On(w, m'.pcs[p]);
    CallEnters(w, m, h, p, call);
    hide MemFits;
    hide MemStep;
    hide HistStep;
    hide PInv;
    MoveView(w, m, h, m', h', p, m'.pcs[p]);
    if c.UnSpin? {
      EnterUnlockKeepsInv(SysOf(w, m, h), p);
    } else if !c.Out? {
      EnterKeepsInv(SysOf(w, m, h), p, c);
    }
  }

  /** Ownership as seen by everybody but `p` is the same. */
  predicate OnlyFor(p: nat, o: Owner, o': Owner) {
    o == o' || (!(o.Proc? && o.p != p) && !(o'.Proc? && o'.p != p))
  }

  lemma OthersKeepPInv(m: Mem, h: Hist, m': Mem, h': Hist, p: nat)
    requires p < |m.pcs| == |m.ps.sem| && m'.ps == m.ps && |m'.pcs| == |m.pcs| && m'.pcs == m.pcs[p := m'.pcs[p]]
    requires OnlyFor(p, h.x.owner, h'.x.owner) && OnlyFor(p, h.k.owner, h'.k.owner)
    requires h.l == h'.l || (h.l in {None, Some(p)} && h'.l in {None, Some(p)})
    requires forall r :: 0 <= r < |m.pcs| ==> PInv(m, h, r)
    ensures forall r :: 0 <= r < |m.pcs| && r != p ==> PInv(m', h', r)
  {
    forall r | 0 <= r < |m.pcs| && r != p ensures PInv(m', h', r) {
      assert PInv(m, h, r);
    }
  }

  /** The holder of `l`, if any, satisfies its own invariant. */
  predicate HolderInv(m: Mem, h: Hist) {
    |m.ps.sem| == |m.pcs| && (h.l.Some? ==> h.l.value < |m.pcs| && PInv(m, h, h.l.value))
  }

  lemma ReturnKeepsSelf(m: Mem, h: Hist, p: nat, call: Call)
    requires MemFits(m) && p < |m.pcs| && m.pcs[p].Op? && !Running(m.pcs[p].c) && PInv(m, h, p) && h.x.owner != Group
    requires !m.ps.sem[p] && (m.pcs[p].c.Got? <==> OwnerOf(LockOf(m.pcs[p].role), h) == Proc(p))
    ensures var m', h' := MemStep(m, p, call), HistStep(m, h, p);
      && PInv(m', h', p) && OnlyFor(p, h.k.owner, h'.k.owner)
      && m'.ps == m.ps && m'.pcs == m.pcs[p := m'.pcs[p]] && h'.l == h.l && m'.l == m.l && h'.x == h.x
  {
    hide LockMemStep;
    hide AuxStep;
  }

  lemma ReturnKeepsKState(m: Mem, h: Hist, p: nat, call: Call)
    requires MemFits(m) && p < |m.pcs| && m.pcs[p].Op? && !Running(m.pcs[p].c) && PInv(m, h, p)
    requires HolderInv(m, h) && KState(m, h) && m.readers == Count(m.pcs)
    requires m.pcs[p].c.Got? <==> OwnerOf(LockOf(m.pcs[p].role), h) == Proc(p)
    ensures var m' := MemStep(m, p, call); KState(m', HistStep(m, h, p)) && m'.readers == Count(m'.pcs)
  {
    hide LockMemStep;
    hide AuxStep;
    hide MemFits;
    CountUpdate(m.pcs, p, Return(m.pcs[p].role, m.pcs[p].c));
  }

  lemma CallKeepsOwnPInv(m: Mem, h: Hist, p: nat, call: Call)
    requires MemFits(m) && p < |m.pcs| && !m.pcs[p].Op? && PInv(m, h, p) && h.x.owner != Group
    requires m.pcs[p].DDec? && m.readers == 1 ==> h.k.owner == Group
    requires m.l <==> h.l.Some?
    ensures |MemStep(m, p, call).ps.sem| == |m.pcs| && PInv(MemStep(m, p, call), HistStep(m, h, p), p)
  {
    hide *;
    if m.pcs[p].Idle? || m.pcs[p].Reading? || m.pcs[p].Writing? {
      EntryKeepsOwnPInv(m, h, p, call);
    } else {
      SpinKeepsOwnPInv(m, h, p, call);
    }
  }

  lemma EntryKeepsOwnPInv(m: Mem, h: Hist, p: nat, call: Call)
    requires MemFits(m) && p < |m.pcs| && (m.pcs[p].Idle? || m.pcs[p].Reading? || m.pcs[p].Writing?)
    requires PInv(m, h, p) && h.x.owner != Group
    ensures |MemStep(m, p, call).ps.sem| == |m.pcs| && PInv(MemStep(m, p, call), HistStep(m, h, p), p)
  {
    hide LockMemStep;
    hide AuxStep;
    hide Running;
    assert |m.ps.sem| == |m.pcs|;
    hide MemFits;
  }

  lemma SpinKeepsOwnPInv(m: Mem, h: Hist, p: nat, call: Call)
    requires MemFits(m) && p < |m.pcs| && !m.pcs[p].Op? && !m.pcs[p].Idle? && !m.pcs[p].Reading? && !m.pcs[p].Writing?
    requires PInv(m, h, p) && h.x.owner != Group
    requires m.pcs[p].DDec? && m.readers == 1 ==> h.k.owner == Group
    requires m.l <==> h.l.Some?
    ensures |MemStep(m, p, call).ps.sem| == |m.pcs| && PInv(MemStep(m, p, call), HistStep(m, h, p), p)
  {
    hide LockMemStep;
    hide AuxStep;
    hide Running;
    assert |m.ps.sem| == |m.pcs|;
    hide MemFits;
  }

  lemma CallKeepsL(m: Mem, h: Hist, p: nat, call: Call)
    requires MemFits(m) && p < |m.pcs| && !m.pcs[p].Op? && PInv(m, h, p)
    requires m.pcs[p].DDec? && m.readers == 1 ==> h.k.owner == Group
    requires m.l <==> h.l.Some?
    ensures var m', h' := MemStep(m, p, call), HistStep(m, h, p);
      && OnlyFor(p, h.k.owner, h'.k.owner) && (m'.l <==> h'.l.Some?)
      && (h.l == h'.l || (h.l in {None, Some(p)} && h'.l in {None, Some(p)}))
  {
    hide LockMemStep;
    hide AuxStep;
    hide Running;
    assert |m.ps.sem| == |m.pcs|;
    hide MemFits;
  }

  lemma CallKeepsSelf(m: Mem, h: Hist, p: nat, call: Call)
    requires MemFits(m) && p < |m.pcs| && !m.pcs[p].Op? && PInv(m, h, p) && h.x.owner != Group
    requires m.pcs[p].DDec? && m.readers == 1 ==> h.k.owner == Group
    requires m.l <==> h.l.Some?
    ensures var m', h' := MemStep(m, p, call), HistStep(m, h, p);
      && PInv(m', h', p) && OnlyFor(p, h.k.owner, h'.k.owner)
      && m'.ps == m.ps && m'.pcs == m.pcs[p := m'.pcs[p]] && h'.x == h.x && (m'.l <==> h'.l.Some?)
      && (h.l == h'.l || (h.l in {None, Some(p)} && h'.l in {None, Some(p)}))
  {
    hide MemStep;
    hide HistStep;
    hide PInv;
    hide OnlyFor;
    CallKeepsOwnPInv(m, h, p, call);
    CallKeepsL(m, h, p, call);
    CallEnters(X, m, h, p, call);
  }

  lemma CallKeepsKState(m: Mem, h: Hist, p: nat, call: Call)
    requires MemFits(m) && p < |m.pcs| && !m.pcs[p].Op? && PInv(m, h, p)
    requires HolderInv(m, h) && KState(m, h) && m.readers == Count(m.pcs) && (m.l <==> h.l.Some?)
    requires m.pcs[p].RInc? ==> !h.k.owner.Proc?
    ensures m.pcs[p].DDec? && m.readers == 1 ==> h.k.owner == Group
    ensures var m' := MemStep(m, p, call); KState(m', HistStep(m, h, p)) && m'.readers == Count(m'.pcs)
  {
    hide LockMemStep;
    hide AuxStep;
    hide MemFits;
    var m' := MemStep(m, p, call);
    assert m'.pcs == m.pcs[p := m'.pcs[p]];
    CountUpdate(m.pcs, p, m'.pcs[p]);
    if m.pcs[p].DDec? { CountPositive(m.pcs, p); }
  }

  lemma ReturnKeepsOuter(m: Mem, h: Hist, p: nat, call: Call)
    requires Outer(m, h) && p < |m.pcs| && m.pcs[p].Op? && !Running(m.pcs[p].c)
    requires !m.ps.sem[p] && (m.pcs[p].c.Got? <==> OwnerOf(LockOf(m.pcs[p].role), h) == Proc(p))
    ensures Outer(MemStep(m, p, call), HistStep(m, h, p))
  {
    hide MemStep;
    hide HistStep;
    hide KState;
    hide PInv;
    var m', h' := MemStep(m, p, call), HistStep(m, h, p);
    ReturnKeepsSelf(m, h, p, call);
    ReturnKeepsKState(m, h, p, call);
    OthersKeepPInv(m, h, m', h', p);
  }

  lemma CallKeepsOuter(m: Mem, h: Hist, p: nat, call: Call)
    requires Outer(m, h) && p < |m.pcs| && !m.pcs[p].Op? && (m.pcs[p].RInc? ==> !h.k.owner.Proc?)
    ensures PInv(m, h, p) && (m.pcs[p].DDec? && m.readers == 1 ==> h.k.owner == Group)
    ensures Outer(MemStep(m, p, call), HistStep(m, h, p))
  {
    hide MemStep;
    hide HistStep;
    hide KState;
    hide PInv;
    var m', h' := MemStep(m, p, call), HistStep(m, h, p);
    CallKeepsKState(m, h, p, call);
    CallKeepsSelf(m, h, p, call);
    OthersKeepPInv(m, h, m', h', p);
  }

  /** Every step of every process keeps the invariant. */
  lemma StepKeepsRInv(m: Mem, h: Hist, p: nat, call: Call)
    requires RInv(m, h) && p < |m.pcs|
    ensures RInv(MemStep(m, p, call), HistStep(m, h, p))
  {
    hide Inv;
    hide MemStep;
    hide HistStep;
    if !m.pcs[p].Op? {
      if m.pcs[p].RInc? {
        KIsQuiet(m, h, p);
      }
      CallKeepsOuter(m, h, p, call);
      CallKeepsLock(X, m, h, p, call);
      CallKeepsLock(K, m, h, p, call);
    } else if Running(m.pcs[p].c) {
      LockStepKeepsRInv(m, h, p, call);
    } else {
      assert PInv(m, h, p);
      ReturnKeepsOwnLock(m, h, p, call);
      ReturnKeepsOtherLock(m, h, p, call);
      ReturnKeepsOuter(m, h, p, call);
    }
  }

  // ----- whole runs

  /** `n` idle processes and a zeroed RWlock. */
  function Start(n: nat): (m: Mem)
    ensures MemFits(m) && |m.pcs| == n
  {
    Mem(UNLOCKED, UNLOCKED, false, 0, Procs(seq(n, _ => None), seq(n, _ => false)), seq(n, _ => Idle))
  }

  /** A schedule: which process moves next, and what it calls if it is idle. */
  type Schedule = seq<(nat, Call)>

  /** The memory after a schedule; this is the C program's own behaviour and mentions no history. */
  function Run(n: nat, sched: Schedule): (m: Mem)
    ensures MemFits(m) && |m.pcs| == n
  {
    if sched == [] then Start(n)
    else
      var m, (p, call) := Run(n, sched[..|sched| - 1]), sched[|sched| - 1];
      if p < n then MemStep(m, p, call) else m
  }

  function RunHist(n: nat, sched: Schedule): Hist {
    if sched == [] then Hist(NO_HISTORY, NO_HISTORY, None)
    else
      var m, h, p := Run(n, sched[..|sched| - 1]), RunHist(n, sched[..|sched| - 1]), sched[|sched| - 1].0;
      if p < n then HistStep(m, h, p) else h
  }

  lemma {:induction false} CountIdle(pcs: seq<RPc>)
    requires forall i :: 0 <= i < |pcs| ==> pcs[i].Idle?
    ensures Count(pcs) == 0
  {
    if pcs != [] { CountIdle(pcs[..|pcs| - 1]); }
  }

  lemma {:induction false} RunKeepsRInv(n: nat, sched: Schedule)
    ensures RInv(Run(n, sched), RunHist(n, sched))
    decreases |sched|
  {
    if sched == [] {
      CountIdle(Start(n).pcs);
    } else {
      hide RInv;
      hide MemStep;
      hide HistStep;
      RunKeepsRInv(n, sched[..|sched| - 1]);
      if sched[|sched| - 1].0 < n {
        StepKeepsRInv(Run(n, sched[..|sched| - 1]), RunHist(n, sched[..|sched| - 1]), sched[|sched| - 1].0, sched[|sched| - 1].1);
      }
    }
  }

  /** A writer between wlock and wunlock excludes every reader and every other writer, in every run. */
  lemma WriterExcludesAll(n: nat, sched: Schedule, p: nat, q: nat)
    requires p < n && q < n && p != q && Run(n, sched).pcs[p].Writing?
    ensures !Run(n, sched).pcs[q].Writing? && !Run(n, sched).pcs[q].Reading?
  {
    hide Run;
    hide RunHist;
    hide Inv;
    RunKeepsRInv(n, sched);
    var m, h := Run(n, sched), RunHist(n, sched);
    assert PInv(m, h, p) && PInv(m, h, q);
    if h.l.Some? { assert PInv(m, h, h.l.value); }
    if m.pcs[q].Reading? { CountPositive(m.pcs, q); }
  }

  /** The ignored canqlock never fails for the wrong reason: it takes `k` exactly when the first reader arrives,
      and `k` is locked whenever it has returned. */
  lemma IgnoredCanqlockIsSound(n: nat, sched: Schedule, p: nat)
    requires p < n && At(Run(n, sched).pcs[p], RlockK)
    ensures var m := Run(n, sched);
      && (m.pcs[p].c.CanSpin? ==> !m.k.use && (m.k.locked <==> m.readers > 1))
      && (m.pcs[p].c.Got? ==> m.k.locked && m.readers == 1)
      && (m.pcs[p].c.Missed? ==> m.k.locked && m.readers > 1)
  {
    hide Run;
    hide RunHist;
    RunKeepsRInv(n, sched);
    var m, h := Run(n, sched), RunHist(n, sched);
    assert PInv(m, h, p);
    KIsQuiet(m, h, p);
  }

  // ----- no deadlock

  /** The process can only repeat its step: it spins on a taken word, or sleeps without a wakeup. */
  predicate Waits(m: Mem, p: nat)
    requires p < |m.pcs| == |m.ps.sem|
  {
    match m.pcs[p]
    case Op(role, c) =>
      var q := if LockOf(role).X? then m.x else m.k;
      ((c.LkSpin? || c.UnSpin?) && q.use) || (c.LkBlock? && !m.ps.sem[p])
    case RSpin => m.l
    case DSpin => m.l
    case _ => false
  }

  lemma LockNotWaitingMoves(q: QLock, ps: Procs, p: nat, c: Pc)
    requires p < |ps.qnext| && ProcsFit(ps, |ps.qnext|) && LockFits(q, |ps.qnext|) && PcFits(c, |ps.qnext|) && Running(c)
    requires !((c.LkSpin? || c.UnSpin?) && q.use) && !(c.LkBlock? && !ps.sem[p])
    ensures Step(q, ps, p, c).2 != c
  {
  }

  lemma NotWaitingMoves(m: Mem, p: nat, call: Call)
    requires MemFits(m) && p < |m.pcs| && WellCalled(m.pcs[p]) && !Waits(m, p)
    ensures MemStep(m, p, call).pcs[p] != m.pcs[p]
  {
    hide Step;
    if m.pcs[p].Op? && Running(m.pcs[p].c) {
      var w := LockOf(m.pcs[p].role);
      assert PcFits(On(w, m.pcs[p]), |m.pcs|);
      LockNotWaitingMoves(if w.X? then m.x else m.k, m.ps, p, m.pcs[p].c);
    }
  }

  predicate CanMove(m: Mem, p: nat)
    requires |m.pcs| == |m.ps.sem|
  {
    p < |m.pcs| && !m.pcs[p].Idle? && !Waits(m, p)
  }

  /** If somebody holds one of the spin words, that process can move. */
  lemma SpinHolderMoves(m: Mem, h: Hist) returns (q: nat)
    requires RInv(m, h) && (m.x.use || m.k.use || m.l)
    ensures CanMove(m, q)
  {
    hide *;
    if m.x.use {
      q := XHolderMoves(m, h);
    } else if m.k.use {
      q := KHolderMoves(m, h);
    } else {
      q := LHolderMoves(m, h);
    }
  }

  lemma XHolderMoves(m: Mem, h: Hist) returns (q: nat)
    requires RInv(m, h) && m.x.use
    ensures CanMove(m, q)
  {
    hide PInv;
    q := h.x.cs.value;
    assert ProcInv(SysOf(X, m, h), q);
  }

  lemma KHolderMoves(m: Mem, h: Hist) returns (q: nat)
    requires RInv(m, h) && m.k.use
    ensures CanMove(m, q)
  {
    hide PInv;
    q := h.k.cs.value;
    assert ProcInv(SysOf(K, m, h), q);
  }

  lemma LHolderMoves(m: Mem, h: Hist) returns (q: nat)
    requires RInv(m, h) && !m.x.use && !m.k.use && m.l
    ensures CanMove(m, q)
  {
    hide Inv;
    q := h.l.value;
    assert PInv(m, h, q);
  }

  /** With all spin words free, a blocked process that has been handed the lock is being woken. */
  lemma GrantedMoves(w: Which, m: Mem, h: Hist, p: nat) returns (q: nat)
    requires RInv(m, h) && !m.x.use && !m.k.use && !m.l && p < |m.pcs|
    requires On(w, m.pcs[p]).LkBlock? && p !in SysOf(w, m, h).a.waiters
    ensures CanMove(m, q)
  {
    var s := SysOf(w, m, h);
    assert ProcInv(s, p);
    if m.ps.sem[p] {
      q := p;
    } else {
      q := s.a.waker.value;
      assert ProcInv(s, q);
    }
  }

  lemma {:induction false} CountWitness(pcs: seq<RPc>) returns (q: nat)
    requires Count(pcs) > 0
    ensures q < |pcs| && Counted(pcs[q])
  {
    q := |pcs| - 1;
    if !Counted(pcs[q]) {
      q := CountWitness(pcs[..|pcs| - 1]);
    }
  }

  /** Somebody owns `k`; that process, or a reader it stands for, can move. */
  lemma KOwnerMoves(m: Mem, h: Hist) returns (q: nat)
    requires RInv(m, h) && !m.x.use && !m.k.use && !m.l && h.k.owner != Nobody
    ensures CanMove(m, q)
  {
    hide Shape;
    hide Pending;
    hide MemFits;
    if h.k.owner == Group {
      q := CountWitness(m.pcs);
      assert PInv(m, h, q);
    } else {
      q := h.k.owner.p;
      assert PInv(m, h, q) && ProcInv(SysOf(K, m, h), q);
      if On(K, m.pcs[q]).LkBlock? {
        q := GrantedMoves(K, m, h, q);
      }
    }
  }

  lemma XOwnerMoves(m: Mem, h: Hist) returns (q: nat)
    requires RInv(m, h) && !m.x.use && !m.k.use && !m.l && h.x.owner != Nobody
    ensures CanMove(m, q)
  {
    hide Shape;
    hide Pending;
    hide MemFits;
    q := h.x.owner.p;
    assert PInv(m, h, q) && ProcInv(SysOf(X, m, h), q) && ProcInv(SysOf(K, m, h), q);
    if On(X, m.pcs[q]).LkBlock? {
      q := GrantedMoves(X, m, h, q);
    } else if On(K, m.pcs[q]).LkBlock? {
      q := KOwnerMoves(m, h);
    }
  }

  lemma SomebodyMoves(m: Mem, h: Hist, p: nat) returns (q: nat)
    requires RInv(m, h) && p < |m.pcs| && !m.pcs[p].Idle?
    ensures CanMove(m, q)
  {
    hide Shape;
    hide Pending;
    hide MemFits;
    if m.x.use || m.k.use || m.l {
      q := SpinHolderMoves(m, h);
    } else if !Waits(m, p) {
      q := p;
    } else {
      var w := LockOf(m.pcs[p].role);
      assert ProcInv(SysOf(w, m, h), p);
      if p !in SysOf(w, m, h).a.waiters {
        q := GrantedMoves(w, m, h, p);
      } else if w.X? {
        q := XOwnerMoves(m, h);
      } else {
        q := KOwnerMoves(m, h);
      }
    }
  }

  /** The process is inside the lock or one of its functions, and its next step changes its state. */
  ghost predicate Advances(m: Mem, q: nat)
    requires MemFits(m) && q < |m.pcs|
  {
    !m.pcs[q].Idle? && forall call :: MemStep(m, q, call).pcs[q] != m.pcs[q]
  }

  /** No run reaches a deadlock: while any process is inside the lock or its functions, some such process
      advances. */
  lemma NoDeadlock(n: nat, sched: Schedule, p: nat)
    requires p < n && !Run(n, sched).pcs[p].Idle?
    ensures exists q :: 0 <= q < n && Advances(Run(n, sched), q)
  {
    hide Run;
    hide RunHist;
    hide MemStep;
    hide Inv;
    RunKeepsRInv(n, sched);
    var m := Run(n, sched);
    var q := SomebodyMoves(m, RunHist(n, sched), p);
    assert PInv(m, RunHist(n, sched), q);
    forall call ensures MemStep(m, q, call).pcs[q] != m.pcs[q] {
      NotWaitingMoves(m, q, call);
    }
    assert Advances(m, q);
  }
}
