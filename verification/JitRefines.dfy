/**
  Compiled code against the interpreter, over whole runs: the integer part of Dis as a machine of its own, and the code that
  compile writes for a program, which follows it instruction by instruction.
 */
module JitRefines {
  import opened Wrappers
  import opened Words
  import opened Jit
  import opened JitLayout
  import opened JitCompile
  import opened JitTargets
  import opened JitRun
  import opened JitMeaning
  import opened JitLongs
  import JitCases
  import CaseTable
  import CaseSearch
  import Processor

  /** A program with its configuration, its module data before and after the two passes, and where its case tables are. */
  datatype Program = Program(g: Config, code: seq<Inst>, mp: seq<int>, was: seq<int>, cases: seq<nat>)

  /** The interpreter: the number of the next instruction, frame pointer, module pointer, and memory. */
  datatype Dis = Dis(pc: nat, fp: Word, mp: Word, data: map<Word, Word>)

  /** Operands are evaluated with the two pointers and the memory. */
  function View(d: Dis): Cpu {
    Processor.Cpu(0, Processor.Registers(0, 0, 0, 0, 0, d.fp, d.mp), Processor.Unknown, [], d.data)
  }

  function Continue(d: Dis, data: map<Word, Word>): Dis { d.(pc := d.pc + 1, data := data) }

  // ----- the instructions, as libinterp/xec.c has them

  function Split(z: int): (Word, Word)
    requires 0 <= z < M64
  {
    (z % M32, z / M32)
  }

  /** The two words of a result. */
  function LongValue(op: Op, xl: Word, xh: Word, yl: Word, yh: Word): (Word, Word) {
    match op
    case IADDL => Split((Unsigned(xl, xh) + Unsigned(yl, yh)) % M64)
    case ISUBL => Split((Unsigned(xl, xh) - Unsigned(yl, yh)) % M64)
    case IORL => (Or(xl, yl), Or(xh, yh))
    case IANDL => (And(xl, yl), And(xh, yh))
    case IXORL => (Xor(xl, yl), Xor(xh, yh))
    case _ => (0, 0)
  }

  function WordStep(i: Inst, d: Dis): Option<Dis> {
    var s := View(d);
    if ValueOf(MidOf(i), s).Some? && ValueOf(i.src, s).Some? && Assignable(i.dst, s) then Some(Continue(d, Assigned(i, s))) else None
  }

  function MoveStep(i: Inst, d: Dis): Option<Dis> {
    var s := View(d);
    if ValueOf(i.src, s).Some? && Assignable(i.dst, s)
    then Some(Continue(d, d.data[Where(i.dst, s).value := ValueOf(i.src, s).value])) else None
  }

  function LeaStep(i: Inst, d: Dis): Option<Dis> {
    var s := View(d);
    if Where(i.src, s).Some? && Assignable(i.dst, s)
    then Some(Continue(d, d.data[Where(i.dst, s).value := Where(i.src, s).value])) else None
  }

  function LongStep(i: Inst, d: Dis): Option<Dis> {
    var s := View(d);
    if LongAt(MidOf(i), s) && LongAt(i.src, s) && LongAt(i.dst, s) then
      var r := LongValue(i.op, Low(MidOf(i), s), High(MidOf(i), s), Low(i.src, s), High(i.src, s));
      Some(Continue(d, PutLong(i.dst, s, r.0, r.1)))
    else None
  }

  /** Two-word operands do not overlap by one word: they are aligned. */
  function LongMoveStep(i: Inst, d: Dis): Option<Dis> {
    var s := View(d);
    if LongAt(i.src, s) && LongAt(i.dst, s) && Where(i.dst, s).value != Up(Where(i.src, s).value)
    then Some(Continue(d, PutLong(i.dst, s, Low(i.src, s), High(i.src, s)))) else None
  }

  /** A jump back decreases the count of the scheduler, and stops here when that has run out. */
  function JumpStep(p: Program, i: Inst, d: Dis): Option<Dis> {
    if i.target < |p.code| && MayGo(p.g, i, d.pc, View(d))
    then Some(d.(pc := i.target, data := Counted(p.g, i, d.pc, View(d)))) else None
  }

  function BranchStep(p: Program, i: Inst, d: Dis, r: Relation): Option<Dis> {
    if i.target < |p.code| && MayGo(p.g, i, d.pc, View(d)) then
      var e := d.(data := Counted(p.g, i, d.pc, View(d)));
      var s := View(e);
      if ValueOf(i.src, s).Some? && ValueOf(MidOf(i), s).Some? then
        Some(e.(pc := if Related(r, Wrap32(ValueOf(i.src, s).value), Wrap32(ValueOf(MidOf(i), s).value)) then i.target else d.pc + 1))
      else None
    else None
  }

  function LongBranchStep(p: Program, i: Inst, d: Dis, r: Relation): Option<Dis> {
    if i.target < |p.code| && MayGo(p.g, i, d.pc, View(d)) then
      var e := d.(data := Counted(p.g, i, d.pc, View(d)));
      var s := View(e);
      if LongAt(i.src, s) && LongAt(MidOf(i), s) then
        var go := Related(r, Signed(Low(i.src, s), High(i.src, s)), Signed(Low(MidOf(i), s), High(MidOf(i), s)));
        Some(e.(pc := if go then i.target else d.pc + 1))
      else None
    else None
  }

  /** The arm is the one the table of the Dis program gives; the table in memory must be intact. */
  function CaseStep(p: Program, i: Inst, d: Dis): Option<Dis> {
    var s := View(d);
    if i.dst.InMP? && i.dst.ind % 4 == 0 && i.dst.ind / 4 in p.cases && ValueOf(i.src, s).Some? then
      var t := i.dst.ind / 4;
      if CaseTable.HasTable(p.was, t) && CaseTable.Sorted(p.was, t) && CaseSearch.TableIn(d.data, d.mp, p.mp, t) then
        var arm := CaseTable.Scan(p.was, t, 0, Wrap32(ValueOf(i.src, s).value));
        if arm >= 0 then Some(d.(pc := arm)) else None
      else None
    else None
  }

  /** One step; None for other instructions, and for operands that are no memory. */
  function DisStep(p: Program, d: Dis): Option<Dis> {
    if d.pc >= |p.code| then None
    else
      var i := p.code[d.pc];
      if WordOp(i.op).Some? then WordStep(i, d)
      else if LongOp(i.op).Some? then LongStep(i, d)
      else if Test(i.op).Some? && Test(i.op).value.1.WordsOf? then BranchStep(p, i, d, Test(i.op).value.0)
      else if Test(i.op).Some? && Test(i.op).value.1.Longs? then LongBranchStep(p, i, d, Test(i.op).value.0)
      else
        match i.op
        case IMOVW | ICVTLW => MoveStep(i, d)
        case IMOVL => LongMoveStep(i, d)
        case ILEA => LeaStep(i, d)
        case IJMP => JumpStep(p, i, d)
        case ICASE => CaseStep(p, i, d)
        case _ => None
  }

  function DisRun(p: Program, d: Dis, n: nat): Option<Dis>
    decreases n
  {
    if n == 0 then Some(d)
    else
      var e := DisStep(p, d);
      if e.None? then None else DisRun(p, e.value, n - 1)
  }

  // ----- the code

  /** The compiled program is in memory, and its tables are relocated. */
  ghost predicate Built(b: Build, m: Memory, p: Program) {
    && InMemory(b, m) && JitCases.HasMacro(b) && b.size == |p.code|
    && (forall i :: 0 <= i < |p.code| ==> CodeOf(b, p.g, p.code[i], i))
    && CaseTable.Tables(p.was, p.cases, b.size)
    && CaseTable.State(p.mp, p.was, {}, CaseTable.TableSet(p.cases), b.base, b.env.patch)
  }

  /** The processor is at the code of the interpreter's next instruction, with the same pointers and memory. */
  predicate Matches(b: Build, d: Dis, s: Cpu) {
    && d.pc <= b.size && b.size <= |b.chunks| && s.pc == Begin(b, d.pc)
    && s.r.si == d.fp && s.r.di == d.mp && s.data == d.data
  }

  lemma BeginSmall(b: Build, m: Memory, i: nat)
    requires InMemory(b, m) && JitCases.HasMacro(b) && i <= b.size
    ensures Begin(b, i) < M32
  {
    hide Off;
    hide MacCase;
    JitCases.MacroInPlace(b, m);
    JitCases.InPlaceSmall(m, b.base + Off(b.chunks, b.size + MacCASE.m));
    OffMonotone(b.chunks, i, b.size + MacCASE.m);
  }

  lemma Built1(b: Build, m: Memory, p: Program, i: nat)
    requires Built(b, m, p) && i < |p.code|
    ensures InMemory(b, m) && JitCases.HasMacro(b) && b.size == |p.code| && CodeOf(b, p.g, p.code[i], i) && |b.chunks| == b.size + NMACRO
  {
    hide InMemory;
    hide JitCases.HasMacro;
    hide Comp;
  }

  /** Arithmetic and moves. */
  lemma WordRefined(b: Build, m: Memory, p: Program, d: Dis, s0: Cpu) returns (s: Cpu)
    requires Built(b, m, p) && Matches(b, d, s0) && d.pc < |p.code| && WordOp(p.code[d.pc].op).Some? && WordStep(p.code[d.pc], d).Some?
    ensures Processor.Runs(m, s0, s) && Matches(b, WordStep(p.code[d.pc], d).value, s) && s.stack == s0.stack
  {
    hide Built;
    hide InMemory;
    hide JitCases.HasMacro;
    hide CodeOf;
    hide Begin;
    hide Where;
    hide ValueOf;
    hide WordResult;
    hide Processor.Runs;
    var i := p.code[d.pc];
    Built1(b, m, p, d.pc);
    BeginSmall(b, m, d.pc + 1);
    SameValue(MidOf(i), View(d), s0);
    SameValue(i.src, View(d), s0);
    SameValue(i.dst, View(d), s0);
    s := WordArithmetic(b, m, p.g, i, d.pc, s0);
  }

  lemma MoveRefined(b: Build, m: Memory, p: Program, d: Dis, s0: Cpu) returns (s: Cpu)
    requires Built(b, m, p) && Matches(b, d, s0) && d.pc < |p.code|
    requires (p.code[d.pc].op.IMOVW? || p.code[d.pc].op.ICVTLW?) && MoveStep(p.code[d.pc], d).Some?
    ensures Processor.Runs(m, s0, s) && Matches(b, MoveStep(p.code[d.pc], d).value, s) && s.stack == s0.stack
  {
    hide Built;
    hide InMemory;
    hide JitCases.HasMacro;
    hide CodeOf;
    hide Begin;
    hide Where;
    hide Processor.Runs;
    hide ValueOf;
    var i := p.code[d.pc];
    Built1(b, m, p, d.pc);
    BeginSmall(b, m, d.pc + 1);
    SameValue(i.src, View(d), s0);
    SameValue(i.dst, View(d), s0);
    s := WordMove(b, m, p.g, i, d.pc, s0);
  }

  lemma LeaRefined(b: Build, m: Memory, p: Program, d: Dis, s0: Cpu) returns (s: Cpu)
    requires Built(b, m, p) && Matches(b, d, s0) && d.pc < |p.code|
    requires p.code[d.pc].op.ILEA? && LeaStep(p.code[d.pc], d).Some?
    ensures Processor.Runs(m, s0, s) && Matches(b, LeaStep(p.code[d.pc], d).value, s) && s.stack == s0.stack
  {
    hide Built;
    hide InMemory;
    hide JitCases.HasMacro;
    hide CodeOf;
    hide Begin;
    hide Where;
    hide Processor.Runs;
    hide ValueOf;
    var i := p.code[d.pc];
    Built1(b, m, p, d.pc);
    BeginSmall(b, m, d.pc + 1);
    SameValue(i.src, View(d), s0);
    SameValue(i.dst, View(d), s0);
    s := AddressOf(b, m, p.g, i, d.pc, s0);
  }

  lemma SplitBack(lo: Word, hi: Word)
    ensures 0 <= Unsigned(lo, hi) < M64 && Split(Unsigned(lo, hi)) == (lo, hi)
  {
  }

  lemma ResultIsValue(op: Op, xl: Word, xh: Word, yl: Word, yh: Word, lo: Word, hi: Word)
    requires LongResult(op, xl, xh, yl, yh, lo, hi)
    ensures LongValue(op, xl, xh, yl, yh) == (lo, hi)
  {
    hide Split;
    hide And;
    hide Or;
    hide Xor;
    SplitBack(lo, hi);
  }

  lemma LongRefined(b: Build, m: Memory, p: Program, d: Dis, s0: Cpu) returns (s: Cpu)
    requires Built(b, m, p) && Matches(b, d, s0) && d.pc < |p.code|
    requires LongOp(p.code[d.pc].op).Some? && LongStep(p.code[d.pc], d).Some?
    ensures Processor.Runs(m, s0, s) && Matches(b, LongStep(p.code[d.pc], d).value, s) && s.stack == s0.stack
  {
    hide Built;
    hide InMemory;
    hide JitCases.HasMacro;
    hide CodeOf;
    hide Begin;
    hide Where;
    hide Processor.Runs;
    hide LongResult;
    hide LongValue;
    hide LongOp;
    var i := p.code[d.pc];
    Built1(b, m, p, d.pc);
    BeginSmall(b, m, d.pc + 1);
    SameValue(MidOf(i), View(d), s0);
    SameValue(i.src, View(d), s0);
    SameValue(i.dst, View(d), s0);
    var lo, hi;
    s, lo, hi := LongArithmetic(b, m, p.g, i, d.pc, s0);
    ResultIsValue(i.op, Low(MidOf(i), s0), High(MidOf(i), s0), Low(i.src, s0), High(i.src, s0), lo, hi);
  }

  lemma LongMoveRefined(b: Build, m: Memory, p: Program, d: Dis, s0: Cpu) returns (s: Cpu)
    requires Built(b, m, p) && Matches(b, d, s0) && d.pc < |p.code|
    requires p.code[d.pc].op.IMOVL? && LongMoveStep(p.code[d.pc], d).Some?
    ensures Processor.Runs(m, s0, s) && Matches(b, LongMoveStep(p.code[d.pc], d).value, s) && s.stack == s0.stack
  {
    hide Built;
    hide InMemory;
    hide JitCases.HasMacro;
    hide CodeOf;
    hide Begin;
    hide Where;
    hide Processor.Runs;
    var i := p.code[d.pc];
    Built1(b, m, p, d.pc);
    BeginSmall(b, m, d.pc + 1);
    SameValue(i.src, View(d), s0);
    SameValue(i.dst, View(d), s0);
    s := LongMove(b, m, p.g, i, d.pc, s0);
  }

  lemma JumpRefined(b: Build, m: Memory, p: Program, d: Dis, s0: Cpu) returns (s: Cpu)
    requires Built(b, m, p) && Matches(b, d, s0) && d.pc < |p.code|
    requires p.code[d.pc].op.IJMP? && JumpStep(p, p.code[d.pc], d).Some?
    ensures Processor.Runs(m, s0, s) && Matches(b, JumpStep(p, p.code[d.pc], d).value, s) && s.stack == s0.stack
  {
    hide Built;
    hide InMemory;
    hide JitCases.HasMacro;
    hide CodeOf;
    hide Begin;
    hide Where;
    hide Processor.Runs;
    var i := p.code[d.pc];
    Built1(b, m, p, d.pc);
    BeginSmall(b, m, d.pc + 1);
    BeginSmall(b, m, i.target);
    s := Jumps(b, m, p.g, i, d.pc, s0);
  }

  lemma BranchRefined(b: Build, m: Memory, p: Program, d: Dis, s0: Cpu) returns (s: Cpu)
    requires Built(b, m, p) && Matches(b, d, s0) && d.pc < |p.code|
    requires Test(p.code[d.pc].op).Some? && Test(p.code[d.pc].op).value.1.WordsOf? && BranchStep(p, p.code[d.pc], d, Test(p.code[d.pc].op).value.0).Some?
    ensures Processor.Runs(m, s0, s) && Matches(b, BranchStep(p, p.code[d.pc], d, Test(p.code[d.pc].op).value.0).value, s) && s.stack == s0.stack
  {
    hide Built;
    hide InMemory;
    hide JitCases.HasMacro;
    hide CodeOf;
    hide Begin;
    hide Where;
    hide Processor.Runs;
    hide ValueOf;
    hide Related;
    hide Test;
    var i := p.code[d.pc];
    Built1(b, m, p, d.pc);
    BeginSmall(b, m, d.pc + 1);
    BeginSmall(b, m, i.target);
    var e := d.(data := Counted(p.g, i, d.pc, View(d)));
    var s1 := s0.(data := Counted(p.g, i, d.pc, s0));
    SameValue(i.src, View(e), s1);
    SameValue(MidOf(i), View(e), s1);
    s := WordBranches(b, m, p.g, i, d.pc, Test(i.op).value.0, s0);
  }

  lemma LongBranchRefined(b: Build, m: Memory, p: Program, d: Dis, s0: Cpu) returns (s: Cpu)
    requires Built(b, m, p) && Matches(b, d, s0) && d.pc < |p.code|
    requires Test(p.code[d.pc].op).Some? && Test(p.code[d.pc].op).value.1.Longs? && LongBranchStep(p, p.code[d.pc], d, Test(p.code[d.pc].op).value.0).Some?
    ensures Processor.Runs(m, s0, s) && Matches(b, LongBranchStep(p, p.code[d.pc], d, Test(p.code[d.pc].op).value.0).value, s) && s.stack == s0.stack
  {
    hide Built;
    hide InMemory;
    hide JitCases.HasMacro;
    hide CodeOf;
    hide Begin;
    hide Where;
    hide Processor.Runs;
    hide Signed;
    hide Related;
    hide Test;
    var i := p.code[d.pc];
    Built1(b, m, p, d.pc);
    BeginSmall(b, m, d.pc + 1);
    BeginSmall(b, m, i.target);
    var e := d.(data := Counted(p.g, i, d.pc, View(d)));
    var s1 := s0.(data := Counted(p.g, i, d.pc, s0));
    SameValue(i.src, View(e), s1);
    SameValue(MidOf(i), View(e), s1);
    s := LongBranches(b, m, p.g, i, d.pc, Test(i.op).value.0, s0);
  }

  lemma WrapBack(w: Word)
    ensures CaseSearch.Int32(Wrap32(w)) && Wrap32(w) % M32 == w
  {
  }

  lemma BuiltTables(b: Build, m: Memory, p: Program)
    requires Built(b, m, p)
    ensures b.size == |p.code| && CaseTable.Tables(p.was, p.cases, b.size)
    ensures CaseTable.State(p.mp, p.was, {}, CaseTable.TableSet(p.cases), b.base, b.env.patch)
  {
    hide InMemory;
    hide JitCases.HasMacro;
    hide CodeOf;
    hide CaseTable.Tables;
    hide CaseTable.State;
  }

  lemma CaseRefined(b: Build, m: Memory, p: Program, d: Dis, s0: Cpu) returns (s: Cpu)
    requires Built(b, m, p) && Matches(b, d, s0) && d.pc < |p.code|
    requires p.code[d.pc].op.ICASE? && CaseStep(p, p.code[d.pc], d).Some?
    ensures Processor.Runs(m, s0, s) && Matches(b, CaseStep(p, p.code[d.pc], d).value, s) && s.stack == s0.stack
  {
    hide Built;
    hide InMemory;
    hide JitCases.HasMacro;
    hide CodeOf;
    hide Where;
    hide Processor.Runs;
    hide ValueOf;
    hide CaseTable.Scan;
    hide CaseTable.State;
    hide CaseTable.Tables;
    hide CaseTable.Sorted;
    hide CaseSearch.TableIn;
    var i := p.code[d.pc];
    Built1(b, m, p, d.pc);
    BeginSmall(b, m, d.pc + 1);
    BuiltTables(b, m, p);
    SameValue(i.src, View(d), s0);
    var t := i.dst.ind / 4;
    var v := Wrap32(ValueOf(i.src, View(d)).value);
    WrapBack(ValueOf(i.src, View(d)).value);
    s := JitCases.DispatchLands(b, m, p.g, i, d.pc, s0, v, p.mp, p.was, p.cases, t);
  }

  // ----- whole runs

  /** Whatever the interpreter does in one step, the compiled code does. */
  lemma StepRefined(b: Build, m: Memory, p: Program, d: Dis, s0: Cpu) returns (s: Cpu)
    requires Built(b, m, p) && Matches(b, d, s0) && DisStep(p, d).Some?
    ensures Processor.Runs(m, s0, s) && Matches(b, DisStep(p, d).value, s) && s.stack == s0.stack
  {
    hide *;
    assert d.pc < |p.code| by { StepDefined(p, d); }
    StepIs(p, d);
    var i := p.code[d.pc];
    if WordOp(i.op).Some? {
      s := WordRefined(b, m, p, d, s0);
    } else if LongOp(i.op).Some? {
      s := LongRefined(b, m, p, d, s0);
    } else if Test(i.op).Some? && Test(i.op).value.1.WordsOf? {
      s := BranchRefined(b, m, p, d, s0);
    } else if Test(i.op).Some? && Test(i.op).value.1.Longs? {
      s := LongBranchRefined(b, m, p, d, s0);
    } else {
      match i.op {
        case IMOVW | ICVTLW => s := MoveRefined(b, m, p, d, s0);
        case IMOVL => s := LongMoveRefined(b, m, p, d, s0);
        case ILEA => s := LeaRefined(b, m, p, d, s0);
        case IJMP => s := JumpRefined(b, m, p, d, s0);
        case ICASE => s := CaseRefined(b, m, p, d, s0);
        case _ =>
      }
    }
  }

  lemma StepDefined(p: Program, d: Dis)
    requires DisStep(p, d).Some?
    ensures d.pc < |p.code|
  {
  }

  lemma StepIs(p: Program, d: Dis)
    requires d.pc < |p.code|
    ensures DisStep(p, d) ==
      var i := p.code[d.pc];
      if WordOp(i.op).Some? then WordStep(i, d)
      else if LongOp(i.op).Some? then LongStep(i, d)
      else if Test(i.op).Some? && Test(i.op).value.1.WordsOf? then BranchStep(p, i, d, Test(i.op).value.0)
      else if Test(i.op).Some? && Test(i.op).value.1.Longs? then LongBranchStep(p, i, d, Test(i.op).value.0)
      else
        match i.op
        case IMOVW | ICVTLW => MoveStep(i, d)
        case IMOVL => LongMoveStep(i, d)
        case ILEA => LeaStep(i, d)
        case IJMP => JumpStep(p, i, d)
        case ICASE => CaseStep(p, i, d)
        case _ => None
  {
  }

  /** The compiled code of a program follows the interpreter through any number of steps: it arrives at the code of the same
      instruction, with the same memory, and with stack, frame pointer and module pointer as they were. */
  lemma {:induction false} RunRefined(b: Build, m: Memory, p: Program, d: Dis, s0: Cpu, n: nat) returns (s: Cpu)
    requires Built(b, m, p) && Matches(b, d, s0) && DisRun(p, d, n).Some?
    ensures Processor.Runs(m, s0, s) && Matches(b, DisRun(p, d, n).value, s) && s.stack == s0.stack
    decreases n
  {
    hide Built;
    hide Matches;
    hide DisStep;
    hide Processor.Runs;
    Processor.RunsNone(m, s0);
    s := s0;
    if n > 0 {
      var t := StepRefined(b, m, p, d, s0);
      s := RunRefined(b, m, p, DisStep(p, d).value, t, n - 1);
      Processor.RunsOn(m, s0, t, s);
    }
  }
}
