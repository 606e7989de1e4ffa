/**
  What the code of the integer instructions does, run on the processor, is what libinterp/xec.c says the instruction does:
  moves, addresses, arithmetic, jumps and conditional branches, on words and on two-word integers, for every addressing
  mode of every operand.
 */
module JitMeaning {
  import opened Wrappers
  import opened Words
  import opened Jit
  import opened JitLayout
  import opened JitCompile
  import opened JitRun
  import opened JitTargets
  import Processor

  /** The middle operand, which is the destination if it is missing. */
  function MidOf(i: Inst): Operand {
    match i.mid
    case NoMiddle => i.dst
    case MidImm(n) => Imm(n)
    case MidFP(n) => InFP(n)
    case MidMP(n) => InMP(n)
  }

  lemma MidIs(i: Inst, mi: Byte, r: Jit.Reg)
    requires mi == Olea ==> r != 4 && r != 5
    ensures Mid(i, mi, r) == Access(MidOf(i), mi, r)
  {
  }

  /** An operand that can be assigned to. */
  predicate Assignable(o: Operand, s: Cpu) {
    Where(o, s).Some? && Where(o, s).value in s.data
  }

  /** From `s0` to `s`, the data have become `data`, and stack, frame pointer and module pointer are as they were. */
  predicate Became(s0: Cpu, s: Cpu, data: map<Word, Word>) {
    s.data == data && s.stack == s0.stack && s.r.si == s0.r.si && s.r.di == s0.r.di && s.r.bp == s0.r.bp
  }

  /** The instruction is done, and the next one is next. */
  predicate Done(b: Build, i: nat, s0: Cpu, s: Cpu, data: map<Word, Word>) {
    i + 1 <= |b.chunks| && s.pc == Begin(b, i + 1) % M32 && Became(s0, s, data)
  }

  // ----- arithmetic on words

  function WordOp(op: Op): Option<Jit.Reg> {
    match op
    case IADDW => Some(Processor.ADD)
    case ISUBW => Some(Processor.SUB)
    case IANDW => Some(Processor.AND)
    case IORW => Some(Processor.OR)
    case IXORW => Some(Processor.XOR)
    case _ => None
  }

  /** The meaning of these instructions in the interpreter. */
  function WordResult(op: Op, x: Word, y: Word): Word {
    match op
    case IADDW => (x + y) % M32
    case ISUBW => (x - y) % M32
    case IANDW => And(x, y)
    case IORW => Or(x, y)
    case IXORW => Xor(x, y)
    case _ => 0
  }

  lemma ResultIs(op: Op, x: Word, y: Word, f: Processor.Flags)
    requires WordOp(op).Some?
    ensures Processor.Calculated(WordOp(op).value, x, y, f).Some?
    ensures Processor.Calculated(WordOp(op).value, x, y, f).value.0 == WordResult(op, x, y)
  {
  }

  lemma WordParts(g: Config, i: Inst, pc: nat, op: Jit.Reg)
    requires WordOp(i.op) == Some(op)
    ensures CompParts(g, i, pc) == Arith(i, 8 * op + 1, op) && Or2(8 * op + 1) == 8 * op + 3
  {
    hide CompParts;
    hide CompMove;
    hide CompHead;
    hide CompIndex;
    hide Arith;
    PartsRest(g, i, pc);
    MoveRest(g, i, pc);
    HeadRest(g, i, pc);
  }

  lemma SameValue(o: Operand, s: Cpu, t: Cpu)
    requires t.data == s.data && t.r.si == s.r.si && t.r.di == s.r.di
    ensures Where(o, t) == Where(o, s) && ValueOf(o, t) == ValueOf(o, s)
    ensures Where(o, s).Some? ==> !o.Imm?
  {
  }

  lemma AccessSize(o: Operand, mi: Byte, r: Jit.Reg)
    requires (mi == Olea ==> r != 4 && r != 5) && Access(o, mi, r).Some?
    ensures 1 <= |Access(o, mi, r).value| <= 2
  {
  }

  lemma WhereIs(o: Operand, s: Cpu)
    requires ValueOf(o, s).Some? && !o.Imm?
    ensures Where(o, s).Some? && Where(o, s).value in s.data && ValueOf(o, s).value == s.data[Where(o, s).value]
  {
  }

  /** `mid op src` with a source in memory and a middle operand. */
  lemma ArithThree(b: Build, m: Memory, i: nat, inst: Inst, op: Jit.Reg, s0: Cpu) returns (s: Cpu)
    requires InMemory(b, m) && i < |b.chunks| && s0.pc == Here(b, i, 0) && WordOp(inst.op) == Some(op)
    requires !inst.src.Imm? && All([Access(MidOf(inst), Oldw, RAX), Access(inst.src, 8 * op + 3, 0), Access(inst.dst, Ostw, 0)]) == Some(b.chunks[i])
    requires ValueOf(MidOf(inst), s0).Some? && ValueOf(inst.src, s0).Some? && Assignable(inst.dst, s0)
    ensures Processor.Runs(m, s0, s) && Done(b, i, s0, s, Assigned(inst, s0))
  {
    hide InMemory;
    hide Here;
    hide Access;
    hide From;
    hide WordResult;
    hide Processor.Runs;
    hide Processor.Calculated;
    hide Where;
    hide ValueOf;
    var items := b.chunks[i];
    var x, y := ValueOf(MidOf(inst), s0).value, ValueOf(inst.src, s0).value;
    ThreeParts(items, Access(MidOf(inst), Oldw, RAX), Access(inst.src, 8 * op + 3, 0), Access(inst.dst, Ostw, 0));
    hide All;
    Processor.RunsNone(m, s0);
    s := RunLoad(b, m, i, 0, MidOf(inst), RAX, s0, s0);
    SameValue(inst.src, s0, s);
    ResultIs(inst.op, x, y, s.flags);
    AccessSize(inst.src, 8 * op + 3, 0);
    AccessSize(inst.dst, Ostw, 0);
    var k := |Access(MidOf(inst), Oldw, RAX).value|;
    HereSmall(b, m, i, k);
    WhereIs(inst.src, s0);
    s := RunBinary(b, m, i, k, inst.src, 8 * op + 3, s0, s);
    SameValue(inst.dst, s0, s);
    HereSmall(b, m, i, k + |Access(inst.src, 8 * op + 3, 0).value|);
    s := RunStore(b, m, i, k + |Access(inst.src, 8 * op + 3, 0).value|, inst.dst, s0, s);
    EndOf(b, i);
  }

  /** The data after an arithmetic instruction. */
  function Assigned(i: Inst, s: Cpu): map<Word, Word>
    requires ValueOf(MidOf(i), s).Some? && ValueOf(i.src, s).Some? && Assignable(i.dst, s)
  {
    s.data[Where(i.dst, s).value := WordResult(i.op, ValueOf(MidOf(i), s).value, ValueOf(i.src, s).value)]
  }

  /** Without a middle operand the operation is done in memory. */
  lemma ArithTwo(b: Build, m: Memory, i: nat, inst: Inst, op: Jit.Reg, s0: Cpu) returns (s: Cpu)
    requires InMemory(b, m) && i < |b.chunks| && s0.pc == Here(b, i, 0) && WordOp(inst.op) == Some(op) && inst.mid.NoMiddle?
    requires !inst.src.Imm? && All([Access(inst.src, Oldw, RAX), Access(inst.dst, 8 * op + 1, 0)]) == Some(b.chunks[i])
    requires ValueOf(MidOf(inst), s0).Some? && ValueOf(inst.src, s0).Some? && Assignable(inst.dst, s0)
    ensures Processor.Runs(m, s0, s) && Done(b, i, s0, s, Assigned(inst, s0))
  {
    hide InMemory;
    hide Here;
    hide Access;
    hide From;
    hide WordResult;
    hide Processor.Runs;
    hide Processor.Calculated;
    hide Where;
    hide ValueOf;
    var items := b.chunks[i];
    var x, y := ValueOf(MidOf(inst), s0).value, ValueOf(inst.src, s0).value;
    TwoParts(items, Access(inst.src, Oldw, RAX), Access(inst.dst, 8 * op + 1, 0));
    hide All;
    Processor.RunsNone(m, s0);
    s := RunLoad(b, m, i, 0, inst.src, RAX, s0, s0);
    SameValue(inst.dst, s0, s);
    WhereIs(inst.dst, s0);
    ResultIs(inst.op, x, y, s.flags);
    AccessSize(inst.dst, 8 * op + 1, 0);
    var k := |Access(inst.src, Oldw, RAX).value|;
    HereSmall(b, m, i, k);
    s := RunBinary(b, m, i, k, inst.dst, 8 * op + 1, s0, s);
    EndOf(b, i);
  }

  /** AX and a constant. */
  lemma RunOnAx(b: Build, m: Memory, i: nat, k: nat, op: Jit.Reg, w: Word, s0: Cpu, s1: Cpu) returns (s: Cpu)
    requires InMemory(b, m) && i < |b.chunks| && k + 2 < |b.chunks[i]| && op != Processor.CMP
    requires b.chunks[i][k] == Raw2(ImmOp(w), RR(op, RAX)) && b.chunks[i][k + 1] == ImmItem(w)
    requires Processor.Runs(m, s0, s1) && s1.pc == Here(b, i, k) && Processor.Calculated(op, s1.r.ax, w, s1.flags).Some?
    ensures Processor.Runs(m, s0, s) && s.pc == Here(b, i, k + 2)
    ensures s == s1.(pc := s.pc, flags := s.flags, r := s1.r.(ax := Processor.Calculated(op, s1.r.ax, w, s1.flags).value.0))
  {
    hide InMemory;
    hide Here;
    hide RR;
    hide ImmItem;
    hide IsConstant;
    hide Processor.Runs;
    hide Processor.Calculated;
    ImmIsConstant(w);
    RegConstantIsAt(b, m, i, k, ImmOp(w), op, RAX, w);
    HereSmall(b, m, i, k + 2);
    s := Run(b, m, i, k, 2, Processor.Calculate(op, Processor.Register(RAX), Processor.Immediate(w)), s0, s1);
  }

  /** `mid op constant`. */
  lemma ArithThreeConstant(b: Build, m: Memory, i: nat, inst: Inst, op: Jit.Reg, w: Word, s0: Cpu) returns (s: Cpu)
    requires InMemory(b, m) && i < |b.chunks| && s0.pc == Here(b, i, 0) && WordOp(inst.op) == Some(op) && inst.src == Imm(w)
    requires All([Access(MidOf(inst), Oldw, RAX), Some([Raw2(ImmOp(w), RR(op, RAX)), ImmItem(w)]), Access(inst.dst, Ostw, RAX)]) == Some(b.chunks[i])
    requires ValueOf(MidOf(inst), s0).Some? && ValueOf(inst.src, s0).Some? && Assignable(inst.dst, s0)
    ensures Processor.Runs(m, s0, s) && Done(b, i, s0, s, Assigned(inst, s0))
  {
    hide InMemory;
    hide Here;
    hide Access;
    hide RR;
    hide ImmItem;
    hide IsConstant;
    hide WordResult;
    hide Processor.Runs;
    hide Processor.Calculated;
    hide Where;
    hide ValueOf;
    var items, calls := b.chunks[i], [Raw2(ImmOp(w), RR(op, RAX)), ImmItem(w)];
    var x := ValueOf(MidOf(inst), s0).value;
    ThreeParts(items, Access(MidOf(inst), Oldw, RAX), Some(calls), Access(inst.dst, Ostw, RAX));
    hide All;
    var k := |Access(MidOf(inst), Oldw, RAX).value|;
    FromAt(items, k, calls, 0);
    FromAt(items, k, calls, 1);
    hide From;
    Processor.RunsNone(m, s0);
    s := RunLoad(b, m, i, 0, MidOf(inst), RAX, s0, s0);
    HereSmall(b, m, i, k);
    ValueImm(w, s0);
    ResultIs(inst.op, x, w, s.flags);
    AccessSize(inst.dst, Ostw, RAX);
    s := RunOnAx(b, m, i, k, op, w, s0, s);
    SameValue(inst.dst, s0, s);
    s := RunStore(b, m, i, k + 2, inst.dst, s0, s);
    EndOf(b, i);
  }

  lemma ValueImm(w: Word, s: Cpu)
    ensures ValueOf(Imm(w), s) == Some(w)
  {
  }

  /** A constant added to the destination. */
  lemma ArithTwoConstant(b: Build, m: Memory, i: nat, inst: Inst, op: Jit.Reg, w: Word, s0: Cpu) returns (s: Cpu)
    requires InMemory(b, m) && i < |b.chunks| && s0.pc == Here(b, i, 0) && WordOp(inst.op) == Some(op) && inst.src == Imm(w)
    requires inst.mid.NoMiddle? && All([Access(inst.dst, ImmOp(w), op), Some([ImmItem(w)])]) == Some(b.chunks[i])
    requires ValueOf(MidOf(inst), s0).Some? && ValueOf(inst.src, s0).Some? && Assignable(inst.dst, s0)
    ensures Processor.Runs(m, s0, s) && Done(b, i, s0, s, Assigned(inst, s0))
  {
    hide InMemory;
    hide Here;
    hide Access;
    hide ImmItem;
    hide IsConstant;
    hide WordResult;
    hide Processor.Runs;
    hide Processor.Calculated;
    hide Where;
    hide ValueOf;
    var items, calls := b.chunks[i], [ImmItem(w)];
    TwoParts(items, Access(inst.dst, ImmOp(w), op), Some(calls));
    hide All;
    var k := |Access(inst.dst, ImmOp(w), op).value|;
    FromAt(items, k, calls, 0);
    hide From;
    Processor.RunsNone(m, s0);
    ImmIsConstant(w);
    SameValue(inst.dst, s0, s0);
    WhereIs(inst.dst, s0);
    ValueImm(w, s0);
    ResultIs(inst.op, ValueOf(MidOf(inst), s0).value, w, s0.flags);
    s := RunConstant(b, m, i, 0, inst.dst, ImmOp(w), op, w, s0, s0);
    EndOf(b, i);
  }

  lemma ArithIs(i: Inst, op: Jit.Reg)
    requires Or2(8 * op + 1) == 8 * (op as int) + 3
    ensures Arith(i, 8 * op + 1, op) ==
      if !i.src.Imm? then
        if !i.mid.NoMiddle? then [Access(MidOf(i), Oldw, RAX), Access(i.src, 8 * op + 3, 0), Access(i.dst, Ostw, 0)]
        else [Access(i.src, Oldw, RAX), Access(i.dst, 8 * op + 1, 0)]
      else
        var w := i.src.imm;
        if !i.mid.NoMiddle? then [Access(MidOf(i), Oldw, RAX), Some([Raw2(ImmOp(w), RR(op, RAX)), ImmItem(w)]), Access(i.dst, Ostw, RAX)]
        else [Access(i.dst, ImmOp(w), op), Some([ImmItem(w)])]
  {
    hide Access;
    hide RR;
    hide ImmItem;
    MidIs(i, Oldw, RAX);
  }

  /** add, sub, and, or, xor: the destination becomes `mid op src`, the middle operand being the destination if it is missing;
      operands in memory, behind pointers, or constant. */
  lemma WordArithmetic(b: Build, m: Memory, g: Config, inst: Inst, i: nat, s0: Cpu) returns (s: Cpu)
    requires InMemory(b, m) && CodeOf(b, g, inst, i) && WordOp(inst.op).Some? && s0.pc == Begin(b, i)
    requires ValueOf(MidOf(inst), s0).Some? && ValueOf(inst.src, s0).Some? && Assignable(inst.dst, s0)
    ensures Processor.Runs(m, s0, s) && Done(b, i, s0, s, Assigned(inst, s0))
  {
    hide InMemory;
    hide Here;
    hide Begin;
    hide CompParts;
    hide Comp;
    hide All;
    hide Arith;
    hide Access;
    hide Done;
    hide ValueOf;
    hide Where;
    hide Processor.Runs;
    hide WordResult;
    var op := WordOp(inst.op).value;
    WordParts(g, inst, i, op);
    ArithIs(inst, op);
    CodeIs(b, g, inst, i, CompParts(g, inst, i));
    EndOf(b, i);
    if !inst.src.Imm? {
      if !inst.mid.NoMiddle? {
        s := ArithThree(b, m, i, inst, op, s0);
      } else {
        s := ArithTwo(b, m, i, inst, op, s0);
      }
    } else {
      if !inst.mid.NoMiddle? {
        s := ArithThreeConstant(b, m, i, inst, op, inst.src.imm, s0);
      } else {
        s := ArithTwoConstant(b, m, i, inst, op, inst.src.imm, s0);
      }
    }
  }

  // ----- moves and addresses

  lemma MoveParts(g: Config, i: Inst, pc: nat)
    requires i.op.IMOVW? || i.op.ICVTLW?
    ensures CompParts(g, i, pc) ==
      if i.src.Imm? then [Access(i.dst, Omov, RAX), Some([GenW(i.src.imm)])] else [Access(i.src, Oldw, RAX), Access(i.dst, Ostw, RAX)]
  {
    hide CompParts;
    hide CompMove;
    hide CompHead;
    hide CompArith;
    hide CompDivide;
    hide Access;
    PartsRest(g, i, pc);
    MoveRest(g, i, pc);
    HeadRest(g, i, pc);
    ArithRest(g, i, pc);
  }

  lemma LeaParts(g: Config, i: Inst, pc: nat)
    requires i.op.ILEA? && !i.src.Imm?
    ensures CompParts(g, i, pc) == [Access(i.src, Olea, RAX), Access(i.dst, Ostw, RAX)]
  {
    hide Access;
  }

  /** movw (and cvtlw, which takes the low word): the destination becomes the source. */
  lemma WordMove(b: Build, m: Memory, g: Config, inst: Inst, i: nat, s0: Cpu) returns (s: Cpu)
    requires InMemory(b, m) && CodeOf(b, g, inst, i) && (inst.op.IMOVW? || inst.op.ICVTLW?) && s0.pc == Begin(b, i)
    requires ValueOf(inst.src, s0).Some? && Assignable(inst.dst, s0)
    ensures Processor.Runs(m, s0, s) && Done(b, i, s0, s, s0.data[Where(inst.dst, s0).value := ValueOf(inst.src, s0).value])
  {
    hide InMemory;
    hide Here;
    hide Begin;
    hide CompParts;
    hide Comp;
    hide Access;
    hide ValueOf;
    hide Where;
    hide IsConstant;
    hide Processor.Runs;
    MoveParts(g, inst, i);
    CodeIs(b, g, inst, i, CompParts(g, inst, i));
    hide CodeOf;
    EndOf(b, i);
    SameValue(inst.dst, s0, s0);
    Processor.RunsNone(m, s0);
    if inst.src.Imm? {
      var w := inst.src.imm;
      TwoParts(b.chunks[i], Access(inst.dst, Omov, RAX), Some([GenW(w)]));
      hide All;
      FromAt(b.chunks[i], |Access(inst.dst, Omov, RAX).value|, [GenW(w)], 0);
      hide From;
      GenIsConstant(w);
      ValueImm(w, s0);
      s := RunConstant(b, m, i, 0, inst.dst, Omov, 0, w, s0, s0);
    } else {
      TwoParts(b.chunks[i], Access(inst.src, Oldw, RAX), Access(inst.dst, Ostw, RAX));
      hide All;
      hide From;
      s := RunLoad(b, m, i, 0, inst.src, RAX, s0, s0);
      SameValue(inst.dst, s0, s);
      AccessSize(inst.dst, Ostw, RAX);
      HereSmall(b, m, i, |Access(inst.src, Oldw, RAX).value|);
      s := RunStore(b, m, i, |Access(inst.src, Oldw, RAX).value|, inst.dst, s0, s);
    }
  }

  lemma GenIsConstant(w: Word)
    ensures IsConstant(GenW(w), Omov, w)
  {
  }

  /** lea: the destination becomes the address of the source. */
  lemma AddressOf(b: Build, m: Memory, g: Config, inst: Inst, i: nat, s0: Cpu) returns (s: Cpu)
    requires InMemory(b, m) && CodeOf(b, g, inst, i) && inst.op.ILEA? && s0.pc == Begin(b, i)
    requires Where(inst.src, s0).Some? && Assignable(inst.dst, s0)
    ensures Processor.Runs(m, s0, s) && Done(b, i, s0, s, s0.data[Where(inst.dst, s0).value := Where(inst.src, s0).value])
  {
    hide InMemory;
    hide Here;
    hide Begin;
    hide CompParts;
    hide Comp;
    hide Access;
    hide ValueOf;
    hide Where;
    hide Processor.Runs;
    SameValue(inst.src, s0, s0);
    SameValue(inst.dst, s0, s0);
    LeaParts(g, inst, i);
    CodeIs(b, g, inst, i, CompParts(g, inst, i));
    hide CodeOf;
    EndOf(b, i);
    Processor.RunsNone(m, s0);
    TwoParts(b.chunks[i], Access(inst.src, Olea, RAX), Access(inst.dst, Ostw, RAX));
    hide All;
    hide From;
    s := RunLea(b, m, i, 0, inst.src, RAX, s0, s0);
    SameValue(inst.dst, s0, s);
    AccessSize(inst.dst, Ostw, RAX);
    HereSmall(b, m, i, |Access(inst.src, Olea, RAX).value|);
    s := RunStore(b, m, i, |Access(inst.src, Olea, RAX).value|, inst.dst, s0, s);
  }

  // ----- jumps and conditional branches

  /** The address of the count that backward branches decrease. */
  function CountAt(g: Config): Word { (g.r + g.off(RegIC)) % M32 }

  /** A backward branch may be followed at once: the count has not run out. */
  predicate MayGo(g: Config, i: Inst, pc: nat, s: Cpu) {
    i.target <= pc ==> CountAt(g) in s.data && Wrap32(s.data[CountAt(g)]) > 1
  }

  /** The data after the count has been decreased. */
  function Counted(g: Config, i: Inst, pc: nat, s: Cpu): map<Word, Word>
    requires MayGo(g, i, pc, s)
  {
    if i.target <= pc then s.data[CountAt(g) := (s.data[CountAt(g)] - 1) % M32] else s.data
  }

  /** The first part of schedcheck: the count is decreased. */
  lemma RunCount(b: Build, m: Memory, g: Config, inst: Inst, i: nat, s0: Cpu) returns (s: Cpu)
    requires InMemory(b, m) && i < |b.chunks| && From(b.chunks[i], 0, SchedCheck(g, inst, i)) && s0.pc == Here(b, i, 0)
    requires inst.target <= i && |SchedCheck(g, inst, i)| < |b.chunks[i]| && CountAt(g) in s0.data
    ensures Processor.Runs(m, s0, s) && s.pc == Here(b, i, 3)
    ensures s == s0.(pc := s.pc, flags := Processor.Compared(s0.data[CountAt(g)], 1), r := s0.r.(bx := g.r),
                     data := s0.data[CountAt(g) := (s0.data[CountAt(g)] - 1) % M32])
  {
    hide InMemory;
    hide IsAt;
    hide Here;
    hide Processor.Runs;
    hide Xor;
    var calls := SchedCheck(g, inst, i);
    FromAt(b.chunks[i], 0, calls, 0);
    FromAt(b.chunks[i], 0, calls, 1);
    FromAt(b.chunks[i], 0, calls, 2);
    hide SchedCheck;
    hide From;
    ConIsAt(b, m, i, 0, g.r, RTMP);
    Processor.XorSelf(s0.r.bx);
    HereSmall(b, m, i, 1);
    Processor.RunsNone(m, s0);
    s := Run(b, m, i, 0, 1, ConIs(g.r, RTMP), s0, s0);
    assert s.r == s0.r.(bx := g.r);
    ModConstantIsAt(b, m, i, 1, 0x83, g.off(RegIC), RTMP, 5, 1);
    HereSmall(b, m, i, 3);
    s := Run(b, m, i, 1, 2, Processor.Calculate(5, Processor.Operand.At(RTMP, None, g.off(RegIC)), Processor.Immediate(1)), s0, s);
  }

  /** schedcheck. */
  lemma RunCheck(b: Build, m: Memory, g: Config, inst: Inst, i: nat, s0: Cpu) returns (s: Cpu)
    requires InMemory(b, m) && i < |b.chunks| && From(b.chunks[i], 0, SchedCheck(g, inst, i)) && s0.pc == Here(b, i, 0)
    requires |SchedCheck(g, inst, i)| < |b.chunks[i]| && MayGo(g, inst, i, s0)
    ensures Processor.Runs(m, s0, s) && s.pc == Here(b, i, |SchedCheck(g, inst, i)|)
    ensures s == s0.(pc := s.pc, flags := s.flags, r := s0.r.(bx := s.r.bx), data := Counted(g, inst, i, s0))
  {
    hide InMemory;
    hide IsAt;
    hide Processor.Runs;
    Processor.RunsNone(m, s0);
    s := s0;
    if inst.target <= i {
      FromAt(b.chunks[i], 0, SchedCheck(g, inst, i), 3);
      FromAt(b.chunks[i], 0, SchedCheck(g, inst, i), 4);
      s := RunCount(b, m, g, inst, i, s0);
      hide From;
      HereNext(b, i, 4);
      HereSmall(b, m, i, 5);
      hide Here;
      var disp := ShortIsAt(b, m, i, 3);
      s := Run(b, m, i, 3, 1, Processor.BranchIf(Processor.IF_G, disp), s0, s);
    }
  }

  /** The short jump of schedcheck. */
  lemma ShortIsAt(b: Build, m: Memory, i: nat, k: nat) returns (disp: int)
    requires InMemory(b, m) && i < |b.chunks| && k < |b.chunks[i]| && b.chunks[i][k] == Raw2(Ojgtb, 5)
    ensures IsAt(b, m, i, k, 1, Processor.BranchIf(Processor.IF_G, disp)) && disp == 5
  {
    hide InMemory;
    hide Here;
    hide Processor.Written;
    hide Processor.Fetch;
    disp := 5;
    var f := Processor.Fetch(m, Here(b, i, k));
    PlainWritten(b, m, i, k, [Ojgtb, 5]);
    HereNext(b, i, k);
    if f[..2] == [Ojgtb, 5] {
      assert f[0] == f[..2][0] && f[1] == f[..2][1];
    }
    StandsFor(m, Here(b, i, k), [Ojgtb, 5], Processor.BranchIf(Processor.IF_G, 5));
  }

  /** At the code of the target. */
  predicate Went(b: Build, t: nat, s0: Cpu, s: Cpu, data: map<Word, Word>) {
    t <= |b.chunks| && s.pc == Begin(b, t) % M32 && Became(s0, s, data)
  }

  /** jmp. */
  lemma Jumps(b: Build, m: Memory, g: Config, inst: Inst, i: nat, s0: Cpu) returns (s: Cpu)
    requires InMemory(b, m) && CodeOf(b, g, inst, i) && inst.op.IJMP? && inst.target < b.size && s0.pc == Begin(b, i)
    requires MayGo(g, inst, i, s0)
    ensures Processor.Runs(m, s0, s) && Went(b, inst.target, s0, s, Counted(g, inst, i, s0))
  {
    hide InMemory;
    hide Here;
    hide IsAt;
    hide CompParts;
    hide Comp;
    hide SchedCheck;
    hide Processor.Runs;
    JumpParts(g, inst, i);
    CodeIs(b, g, inst, i, CompParts(g, inst, i));
    EndOf(b, i);
    hide CodeOf;
    var check := SchedCheck(g, inst, i);
    AllOne(check + [Branch(Dis(inst.target), Ojmp)]);
    hide All;
    assert From(b.chunks[i], 0, check);
    s := RunCheck(b, m, g, inst, i, s0);
    var disp := JumpIsAt(b, m, i, |check|, Dis(inst.target));
    s := Run(b, m, i, |check|, 1, Processor.Branch(disp), s0, s);
  }

  lemma JumpParts(g: Config, i: Inst, pc: nat)
    requires i.op.IJMP?
    ensures CompParts(g, i, pc) == [Some(SchedCheck(g, i, pc) + [Branch(Dis(i.target), Ojmp)])]
  {
    hide CompParts;
    hide CompMove;
    hide CompHead;
    hide CompArith;
    hide CompDivide;
    hide SchedCheck;
    PartsRest(g, i, pc);
    MoveRest(g, i, pc);
    HeadRest(g, i, pc);
    ArithRest(g, i, pc);
  }

  // Conditional branches on words.

  predicate Related(r: Relation, x: int, y: int) {
    match r
    case EQ => x == y
    case NE => x != y
    case LT => x < y
    case LE => x <= y
    case GT => x > y
    case GE => x >= y
  }

  lemma SignedJump(r: Relation, x: Word, y: Word)
    ensures Processor.Holds(JumpSigned(r) - 0x80, Processor.Compared(x, y)) == Some(Related(r, Wrap32(x), Wrap32(y)))
  {
  }

  lemma UnsignedJump(r: Relation, x: Word, y: Word)
    ensures Processor.Holds(JumpUnsigned(r) - 0x80, Processor.Compared(x, y)) == Some(Related(r, x, y))
  {
  }

  lemma ExchangedRelated(r: Relation, x: int, y: int)
    ensures Related(Exchanged(r), x, y) == Related(r, y, x)
  {
  }

  lemma BranchParts(g: Config, i: Inst, pc: nat, r: Relation)
    requires Test(i.op) == Some((r, WordsOf))
    ensures var jmp := JumpSigned(if i.src.Imm? then Exchanged(r) else r);
      CompParts(g, i, pc) ==
      [Some(SchedCheck(g, i, pc)), Access(MidOf(i), Oldw, RAX), if i.src.Imm? then Some(CmpL(RAX, i.src.imm)) else Access(i.src, Ocmpw, RAX),
       Some([Raw1(0x0f), Branch(Dis(i.target), jmp)])]
  {
    hide CompParts;
    hide CompMove;
    hide CompHead;
    hide CompArith;
    hide SchedCheck;
    hide Access;
    hide CmpL;
    PartsRest(g, i, pc);
    MoveRest(g, i, pc);
    HeadRest(g, i, pc);
    WordCode(g, i, pc, r);
    MidIs(i, Oldw, RAX);
  }

  /** The comparison of the middle operand, in AX, with the source. */
  lemma RunCompare(b: Build, m: Memory, i: nat, k: nat, o: Operand, s0: Cpu, s1: Cpu) returns (s: Cpu)
    requires InMemory(b, m) && i < |b.chunks|
    requires var calls := CompareCalls(o); calls.Some? && From(b.chunks[i], k, calls.value) && k + |calls.value| < |b.chunks[i]|
    requires Processor.Runs(m, s0, s1) && s1.pc == Here(b, i, k) && ValueOf(o, s1).Some?
    ensures Processor.Runs(m, s0, s)
    ensures s.pc == Here(b, i, k + |CompareCalls(o).value|)
    ensures s == s1.(pc := s.pc, r := s1.r.(dx := s.r.dx),
                     flags := if o.Imm? then Processor.Compared(s1.r.ax, ValueOf(o, s1).value) else Processor.Compared(ValueOf(o, s1).value, s1.r.ax))
  {
    hide InMemory;
    hide Here;
    hide IsAt;
    hide RR;
    hide ImmItem;
    hide IsConstant;
    hide Processor.Runs;
    if o.Imm? {
      var w := o.imm;
      FromAt(b.chunks[i], k, CmpL(RAX, w), 0);
      FromAt(b.chunks[i], k, CmpL(RAX, w), 1);
      ImmIsConstant(w);
      RegConstantIsAt(b, m, i, k, ImmOp(w), 7, RAX, w);
      HereSmall(b, m, i, k + 2);
      s := Run(b, m, i, k, 2, Processor.Calculate(7, Processor.Register(RAX), Processor.Immediate(w)), s0, s1);
    } else {
      HereSmall(b, m, i, k + |Access(o, Ocmpw, RAX).value|);
      WhereIs(o, s1);
      hide Access;
      hide ValueOf;
      hide Where;
      s := RunBinary(b, m, i, k, o, Ocmpw, s0, s1);
    }
  }

  /** The calls that compare, for either kind of source. */
  function CompareCalls(o: Operand): Items {
    if o.Imm? then Some(CmpL(RAX, o.imm)) else Access(o, Ocmpw, RAX)
  }

  function TestRelation(i: Inst, r: Relation): Relation { if i.src.Imm? then Exchanged(r) else r }

  /** A conditional jump to an instruction, whatever the condition. */
  lemma RunJump(b: Build, m: Memory, i: nat, k: nat, t: nat, c: nat, s0: Cpu, s1: Cpu) returns (s: Cpu)
    requires InMemory(b, m) && |b.chunks| == b.size + NMACRO && i < b.size && t < b.size && k + 2 <= |b.chunks[i]| && c < 16
    requires b.chunks[i][k] == Raw1(0x0f) && b.chunks[i][k + 1] == Branch(Dis(t), 0x80 + c)
    requires Processor.Runs(m, s0, s1) && s1.pc == Here(b, i, k) && Processor.Holds(c, s1.flags).Some?
    ensures Processor.Runs(m, s0, s)
    ensures s == s1.(pc := if Processor.Holds(c, s1.flags).value then Begin(b, t) % M32 else Here(b, i, k + 2) % M32)
  {
    hide InMemory;
    hide Here;
    hide IsAt;
    hide Processor.Holds;
    hide Processor.Runs;
    var disp := ConditionIsAt(b, m, i, k, Dis(t), c);
    s := Run(b, m, i, k, 2, Processor.BranchIf(c, disp), s0, s1);
  }

  /** The jump after a comparison. */
  lemma RunCondition(b: Build, m: Memory, i: nat, k: nat, t: nat, r: Relation, s0: Cpu, s1: Cpu) returns (s: Cpu)
    requires InMemory(b, m) && |b.chunks| == b.size + NMACRO && i < b.size && t < b.size && k + 2 == |b.chunks[i]|
    requires From(b.chunks[i], k, [Raw1(0x0f), Branch(Dis(t), JumpSigned(r))])
    requires Processor.Runs(m, s0, s1) && s1.pc == Here(b, i, k) && s1.flags.Compared?
    ensures Processor.Runs(m, s0, s)
    ensures s == s1.(pc := Begin(b, if Related(r, Wrap32(s1.flags.a), Wrap32(s1.flags.b)) then t else i + 1) % M32)
  {
    hide InMemory;
    hide Here;
    hide Begin;
    hide Related;
    hide JumpSigned;
    hide Processor.Holds;
    hide Processor.Runs;
    FromAt(b.chunks[i], k, [Raw1(0x0f), Branch(Dis(t), JumpSigned(r))], 0);
    FromAt(b.chunks[i], k, [Raw1(0x0f), Branch(Dis(t), JumpSigned(r))], 1);
    hide From;
    CodeByte(r);
    SignedJump(r, s1.flags.a, s1.flags.b);
    EndOf(b, i);
    s := RunJump(b, m, i, k, t, JumpSigned(r) - 0x80, s0, s1);
  }

  /** The test itself, after the scheduling check. */
  lemma RunTest(b: Build, m: Memory, inst: Inst, i: nat, k: nat, r: Relation, s0: Cpu, s1: Cpu) returns (s: Cpu)
    requires InMemory(b, m) && |b.chunks| == b.size + NMACRO && i < b.size && inst.target < b.size
    requires Access(MidOf(inst), Oldw, RAX).Some? && CompareCalls(inst.src).Some?
    requires var load, cmp := Access(MidOf(inst), Oldw, RAX).value, CompareCalls(inst.src).value;
      && From(b.chunks[i], k, load) && From(b.chunks[i], k + |load|, cmp)
      && From(b.chunks[i], k + |load| + |cmp|, [Raw1(0x0f), Branch(Dis(inst.target), JumpSigned(TestRelation(inst, r)))])
      && |b.chunks[i]| == k + |load| + |cmp| + 2
    requires Processor.Runs(m, s0, s1) && s1.pc == Here(b, i, k) && ValueOf(inst.src, s1).Some? && ValueOf(MidOf(inst), s1).Some?
    ensures Processor.Runs(m, s0, s)
    ensures var go := Related(r, Wrap32(ValueOf(inst.src, s1).value), Wrap32(ValueOf(MidOf(inst), s1).value));
      s.pc == Begin(b, if go then inst.target else i + 1) % M32 && Became(s1, s, s1.data)
  {
    hide InMemory;
    hide Here;
    hide Access;
    hide CmpL;
    hide ValueOf;
    hide Related;
    hide Exchanged;
    hide JumpSigned;
    hide From;
    hide Begin;
    hide Processor.Runs;
    var j := k + |Access(MidOf(inst), Oldw, RAX).value|;
    var x, y := ValueOf(inst.src, s1).value, ValueOf(MidOf(inst), s1).value;
    s := RunLoad(b, m, i, k, MidOf(inst), RAX, s0, s1);
    HereSmall(b, m, i, j);
    SameValue(inst.src, s1, s);
    s := RunCompare(b, m, i, j, inst.src, s0, s);
    ExchangedRelated(r, Wrap32(y), Wrap32(x));
    s := RunCondition(b, m, i, j + |CompareCalls(inst.src).value|, inst.target, TestRelation(inst, r), s0, s);
  }

  /** beqw, bnew, bltw, blew, bgtw, bgew: the code goes to the target exactly if the source stands in that relation to the
      middle operand, as signed numbers, and to the next instruction otherwise. */
  lemma WordBranches(b: Build, m: Memory, g: Config, inst: Inst, i: nat, r: Relation, s0: Cpu) returns (s: Cpu)
    requires InMemory(b, m) && CodeOf(b, g, inst, i) && Test(inst.op) == Some((r, WordsOf)) && inst.target < b.size && s0.pc == Begin(b, i)
    requires MayGo(g, inst, i, s0)
    requires var s1 := s0.(data := Counted(g, inst, i, s0)); ValueOf(inst.src, s1).Some? && ValueOf(MidOf(inst), s1).Some?
    ensures Processor.Runs(m, s0, s)
    ensures var s1 := s0.(data := Counted(g, inst, i, s0));
      var go := Related(r, Wrap32(ValueOf(inst.src, s1).value), Wrap32(ValueOf(MidOf(inst), s1).value));
      Went(b, if go then inst.target else i + 1, s0, s, s1.data)
  {
    hide InMemory;
    hide Here;
    hide Begin;
    hide CompParts;
    hide Comp;
    hide SchedCheck;
    hide Access;
    hide CmpL;
    hide ValueOf;
    hide Related;
    hide JumpSigned;
    hide Processor.Runs;
    hide MayGo;
    hide Counted;
    BranchParts(g, inst, i, r);
    CodeIs(b, g, inst, i, CompParts(g, inst, i));
    EndOf(b, i);
    hide CodeOf;
    var check, s1 := SchedCheck(g, inst, i), s0.(data := Counted(g, inst, i, s0));
    FourParts(b.chunks[i], Some(check), Access(MidOf(inst), Oldw, RAX), CompareCalls(inst.src),
              Some([Raw1(0x0f), Branch(Dis(inst.target), JumpSigned(TestRelation(inst, r)))]));
    hide All;
    hide From;
    s := RunCheck(b, m, g, inst, i, s0);
    SameValue(MidOf(inst), s1, s);
    SameValue(inst.src, s1, s);
    s := RunTest(b, m, inst, i, |check|, r, s0, s);
  }

  lemma CodeByte(r: Relation)
    ensures 0x80 <= JumpSigned(r) < 0x90 && 0x80 <= JumpUnsigned(r) < 0x90
  {
  }
}
