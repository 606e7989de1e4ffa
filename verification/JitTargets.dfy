/**
  Which instructions and macros the code of each instruction refers to: the targets of its branches and calls, and the
  program counters it stores (libinterp/comp-386.c, comp and what it calls).
 */
module JitTargets {
  import opened Wrappers
  import opened Words
  import opened Jit
  import opened JitCompile

  // ----- what each instruction should refer to

  datatype Relation = EQ | NE | LT | LE | GT | GE

  datatype Kind = Bytes | WordsOf | Longs | Floats

  /** The conditional branches: they are taken if the source stands in a relation to the middle operand. */
  function Test(op: Op): Option<(Relation, Kind)> {
    match op
    case IBEQB => Some((EQ, Bytes)) case IBNEB => Some((NE, Bytes)) case IBLTB => Some((LT, Bytes))
    case IBLEB => Some((LE, Bytes)) case IBGTB => Some((GT, Bytes)) case IBGEB => Some((GE, Bytes))
    case IBEQW => Some((EQ, WordsOf)) case IBNEW => Some((NE, WordsOf)) case IBLTW => Some((LT, WordsOf))
    case IBLEW => Some((LE, WordsOf)) case IBGTW => Some((GT, WordsOf)) case IBGEW => Some((GE, WordsOf))
    case IBEQL => Some((EQ, Longs)) case IBNEL => Some((NE, Longs)) case IBLTL => Some((LT, Longs))
    case IBLEL => Some((LE, Longs)) case IBGTL => Some((GT, Longs)) case IBGEL => Some((GE, Longs))
    case IBEQF => Some((EQ, Floats)) case IBNEF => Some((NE, Floats)) case IBLTF => Some((LT, Floats))
    case IBLEF => Some((LE, Floats)) case IBGTF => Some((GT, Floats)) case IBGEF => Some((GE, Floats))
    case _ => None
  }

  /** The same test with its operands exchanged, and the strict test that decides before equal. */
  function Exchanged(r: Relation): Relation {
    match r
    case LT => GT
    case LE => GE
    case GT => LT
    case GE => LE
    case _ => r
  }

  function Strict(r: Relation): Relation {
    match r
    case LE => LT
    case GE => GT
    case _ => r
  }

  /** The second byte of the jump after a comparison of signed, and of unsigned numbers. */
  function JumpSigned(r: Relation): Byte {
    match r
    case EQ => 0x84
    case NE => 0x85
    case LT => 0x8c
    case LE => 0x8e
    case GT => 0x8f
    case GE => 0x8d
  }

  function JumpUnsigned(r: Relation): Byte {
    match r
    case EQ => 0x84
    case NE => 0x85
    case LT => 0x82
    case LE => 0x86
    case GT => 0x87
    case GE => 0x83
  }

  /** The jumps of a conditional branch to its target. */
  function TestJumps(i: Inst, r: Relation, k: Kind): set<Item> {
    var t := Dis(i.target);
    match k
    case WordsOf => {Branch(t, JumpSigned(if i.src.Imm? then Exchanged(r) else r))}
    case Longs => (if r.EQ? then {} else {Branch(t, JumpSigned(Strict(r)))}) + {Branch(t, JumpUnsigned(r))}
    case _ => {Branch(t, JumpUnsigned(r))}
  }

  /** Backward branches may call the scheduler. */
  function Backward(i: Inst, pc: nat): set<Item> {
    if i.target <= pc then {Branch(MacRELQ, Ocall)} else {}
  }

  /** Instructions left to the interpreter that branch: they store the address of the target in R.d. */
  predicate PuntBranch(op: Op) {
    match op
    case ISPAWN | IBEQC | IBNEC | IBLTC | IBLEC | IBGTC | IBGEC => true
    case _ => false
  }

  /** Instructions left to the interpreter that store the address of the next one in R.PC. */
  predicate PuntNext(i: Inst) {
    StoresNext(i.op) || (i.op.IMCALL? && !i.mid.MidImm?)
  }

  /** Instructions that move a pointer: the new value is coloured, the old one freed. */
  predicate MovesPointer(op: Op) {
    op.IMOVP? || op.IHEADP? || op.ITAIL?
  }

  /** Everything in the code of an instruction that refers to the code of instructions and macros. */
  function Links(g: Config, i: Inst, pc: nat): set<Item> {
    if Test(i.op).Some? then TestJumps(i, Test(i.op).value.0, Test(i.op).value.1) + Backward(i, pc)
    else if i.op.IJMP? then {Branch(Dis(i.target), Ojmp)} + Backward(i, pc)
    else if i.op.ICALL? then
      {PcWord(pc + 1)} + if i.dst.Imm? then {Branch(Dis(i.target), Ojmp)} + Backward(i, pc) else {}
    else if i.op.IMCALL? && i.mid.MidImm? then {PcWord(pc + 1), Branch(MacMCAL, Ocall)}
    else if i.op.IMFRAME? && i.mid.MidImm? then {Branch(MacMFRA, Ocall), Branch(Dis(pc + 1), Ojmp), Branch(MacFRAM, Ocall)}
    else if i.op.IFRAME? && i.src.Imm? then {Branch(MacFRAM, Ocall)}
    else if i.op.IRET? then {Branch(MacRET, Ojmp)}
    else if i.op.ICASE? then {Branch(MacCASE, Ojmp)}
    else if i.op.IMOVPC? then {PcWord(RawImm(i.src))}
    else if MovesPointer(i.op) then {Branch(MacCOLR, Ocall), Branch(MacFRP, Ocall)}
    else (if PuntBranch(i.op) then {LiteralPc(i.target, g.off(RegD))} else {}) + if PuntNext(i) then {PcWord(pc + 1)} else {}
  }

  predicate Refers(x: Item) { x.Branch? || x.PcWord? || x.LiteralPc? }

  // ----- and what it does refer to

  predicate Only(items: Items, refs: set<Item>) {
    items.Some? ==> forall k :: 0 <= k < |items.value| && Refers(items.value[k]) ==> items.value[k] in refs
  }

  predicate OnlyAll(parts: seq<Items>, refs: set<Item>) {
    forall j :: 0 <= j < |parts| ==> Only(parts[j], refs)
  }

  ghost predicate In(parts: seq<Items>, x: Item) {
    exists j :: 0 <= j < |parts| && parts[j].Some? && x in parts[j].value
  }

  predicate NoneMissing(parts: seq<Items>) {
    forall j :: 0 <= j < |parts| ==> parts[j].Some?
  }

  /** The parts refer to exactly these. */
  ghost predicate Linked(parts: seq<Items>, refs: set<Item>) {
    OnlyAll(parts, refs) && (NoneMissing(parts) ==> forall x :: x in refs ==> In(parts, x))
  }

  lemma {:induction false} AllLinked(parts: seq<Items>, refs: set<Item>)
    requires OnlyAll(parts, refs) && All(parts).Some?
    ensures Only(All(parts), refs) && NoneMissing(parts)
  {
    if parts != [] {
      forall j | 0 <= j < |parts[1..]| ensures Only(parts[1..][j], refs) { assert parts[1..][j] == parts[j + 1]; }
      AllLinked(parts[1..], refs);
    }
  }

  lemma AccessFree()
    ensures forall o: Operand, mi: Byte, r: Jit.Reg | mi == Olea ==> r != 4 && r != 5 :: Only(Access(o, mi, r), {})
  {
  }

  lemma MidFree()
    ensures forall i: Inst, mi: Byte, r: Jit.Reg | mi == Olea ==> r != 4 && r != 5 :: Only(Mid(i, mi, r), {})
  {
    AccessFree();
    hide Access;
  }

  function PuntLinks(g: Config, i: Inst, pc: nat, fl: set<Flag>): set<Item> {
    (if WRTPC in fl then {PcWord(pc + 1)} else {}) + if DBRAN in fl then {LiteralPc(i.target, g.off(RegD))} else {}
  }

  lemma PuntOperandsOnly(g: Config, i: Inst, pc: nat, fl: set<Flag>)
    ensures OnlyAll(PuntOperands(g, i, pc, fl), PuntLinks(g, i, pc, fl))
  {
    hide Access;
    AccessFree();
  }

  lemma PuntCallOnly(g: Config, i: Inst, fl: set<Flag>, refs: set<Item>)
    ensures OnlyAll(PuntCall(g, i, fl), refs)
  {
  }

  lemma PuntIn(g: Config, i: Inst, pc: nat, fl: set<Flag>, x: Item)
    requires x in PuntLinks(g, i, pc, fl) && NoneMissing(Punt(g, i, pc, fl))
    ensures In(Punt(g, i, pc, fl), x)
  {
    hide Access;
    hide PuntCall;
    var parts := Punt(g, i, pc, fl);
    if x == PcWord(pc + 1) && WRTPC in fl {
      assert parts[3].value[1] == x;
    } else {
      assert parts[4].value[0] == x;
    }
  }

  lemma PuntLinked(g: Config, i: Inst, pc: nat, fl: set<Flag>)
    ensures Linked(Punt(g, i, pc, fl), PuntLinks(g, i, pc, fl))
  {
    hide PuntOperands;
    hide PuntCall;
    hide PuntLinks;
    hide In;
    hide Only;
    PuntOperandsOnly(g, i, pc, fl);
    PuntCallOnly(g, i, fl, PuntLinks(g, i, pc, fl));
    if NoneMissing(Punt(g, i, pc, fl)) {
      forall x | x in PuntLinks(g, i, pc, fl) ensures In(Punt(g, i, pc, fl), x) {
        PuntIn(g, i, pc, fl, x);
      }
    }
  }

  // Each function unfolds on its own.

  lemma ArithFree(i: Inst, op2: Byte, rm: Jit.Reg)
    ensures OnlyAll(Arith(i, op2, rm), {})
  {
    hide Access;
    hide Mid;
    AccessFree();
    MidFree();
  }

  lemma ArithBFree(i: Inst, op2: Byte)
    ensures OnlyAll(ArithB(i, op2), {})
  {
    hide Access;
    hide Mid;
    AccessFree();
    MidFree();
  }

  lemma ShiftOpFree(i: Inst, ld: Byte, st: Byte, op: Byte, r: Jit.Reg)
    ensures OnlyAll(ShiftOp(i, ld, st, op, r), {})
  {
    hide Access;
    hide Mid;
    AccessFree();
    MidFree();
  }

  lemma ArithFFree(i: Inst, op: Jit.Reg)
    ensures OnlyAll(ArithF(i, op), {})
  {
    hide Access;
    hide Mid;
    AccessFree();
    MidFree();
  }

  lemma LArithFree(i: Inst, op: Byte, opc: Byte)
    ensures OnlyAll(LArith(i, op, opc), {})
  {
    hide Access;
    hide Mid;
    AccessFree();
    MidFree();
  }

  lemma MovMFree(i: Inst)
    ensures OnlyAll(MovM(i), {})
  {
    hide Access;
    hide Mid;
    AccessFree();
    MidFree();
  }

  lemma MulDivFree(i: Inst, ld: Byte, st: Byte, op: Byte, mul: bool, mod: bool)
    ensures OnlyAll(MulDiv(i, ld, st, op, mul, mod), {})
  {
    hide Access;
    hide Mid;
    AccessFree();
    MidFree();
  }

  lemma IndXFree(g: Config, i: Inst)
    ensures OnlyAll(IndX(g, i), {})
  {
    hide Access;
    hide Mid;
    AccessFree();
    MidFree();
  }

  lemma IndexFree(g: Config, i: Inst, r: nat)
    ensures OnlyAll(Index(g, i, r), {})
  {
    hide Access;
    hide Mid;
    AccessFree();
    MidFree();
  }

  lemma CharFree(g: Config)
    ensures Only(Some(CharChecked(g)), {}) && Only(Some(CharUnchecked(g)), {})
  {
  }

  lemma IndCFree(g: Config, i: Inst)
    ensures OnlyAll(IndC(g, i), {})
  {
    hide CharChecked;
    hide CharUnchecked;
    CharFree(g);
    hide Access;
    hide Mid;
    AccessFree();
    MidFree();
  }

  lemma CBraLinked(g: Config, i: Inst, pc: nat, jmp: Byte)
    ensures Linked(CBra(g, i, pc, jmp), {Branch(Dis(i.target), if i.src.Imm? then SwapBraOp(jmp) else jmp)} + Backward(i, pc))
  {
    hide Access;
    hide Mid;
    AccessFree();
    MidFree();
    var parts := CBra(g, i, pc, jmp);
    assert parts[3].value[1] == Branch(Dis(i.target), if i.src.Imm? then SwapBraOp(jmp) else jmp);
    if i.target <= pc { assert parts[0].value[4] == Branch(MacRELQ, Ocall); }
  }

  lemma CBraBLinked(g: Config, i: Inst, pc: nat, jmp: Byte)
    ensures Linked(CBraB(g, i, pc, jmp), {Branch(Dis(i.target), jmp)} + Backward(i, pc))
  {
    hide Access;
    hide Mid;
    AccessFree();
    MidFree();
    var parts := CBraB(g, i, pc, jmp);
    if !i.src.Imm? {
      assert parts[3].value[1] == Branch(Dis(i.target), jmp);
      if i.target <= pc { assert parts[0].value[4] == Branch(MacRELQ, Ocall); }
    } else {
      assert parts[0].None?;
    }
  }

  lemma CBraFLinked(g: Config, i: Inst, pc: nat, jmp: Byte)
    ensures Linked(CBraF(g, i, pc, jmp), {Branch(Dis(i.target), jmp)} + Backward(i, pc))
  {
    hide Access;
    hide Mid;
    AccessFree();
    MidFree();
    var parts := CBraF(g, i, pc, jmp);
    assert parts[3].value[4] == Branch(Dis(i.target), jmp);
    if i.target <= pc { assert parts[0].value[4] == Branch(MacRELQ, Ocall); }
  }

  lemma CBraLLinked(g: Config, i: Inst, pc: nat, jmsw: Byte, jlsw: Byte, mode: Mode)
    ensures Linked(CBraL(g, i, pc, jmsw, jlsw, mode), (if mode.ANDAND? then {} else {Branch(Dis(i.target), jmsw)}) + {Branch(Dis(i.target), jlsw)} + Backward(i, pc))
  {
    hide Access;
    hide Mid;
    AccessFree();
    MidFree();
    var parts := CBraL(g, i, pc, jmsw, jlsw, mode);
    var last := parts[4].value;
    assert last[|last| - 1] == Branch(Dis(i.target), jlsw);
    if !mode.ANDAND? { assert last[1] == Branch(Dis(i.target), jmsw); }
    if i.target <= pc { assert parts[0].value[4] == Branch(MacRELQ, Ocall); }
  }

  lemma MovPLinked(i: Inst)
    ensures Linked(MovP(i), {Branch(MacCOLR, Ocall), Branch(MacFRP, Ocall)})
  {
    hide Access;
    hide Mid;
    AccessFree();
    MidFree();
    var parts := MovP(i);
    assert parts[0].value[3] == Branch(MacCOLR, Ocall);
    assert parts[3].value[0] == Branch(MacFRP, Ocall);
  }

  /** More parts in front, without references. */
  lemma FreeBefore(a: seq<Items>, b: seq<Items>, refs: set<Item>)
    requires OnlyAll(a, {}) && Linked(b, refs)
    ensures Linked(a + b, refs)
  {
    var c := a + b;
    forall j | 0 <= j < |c| ensures Only(c[j], refs) {
      assert c[j] == if j < |a| then a[j] else b[j - |a|];
    }
    if NoneMissing(c) {
      forall j | 0 <= j < |b| ensures b[j].Some? { assert c[|a| + j] == b[j]; }
      forall x | x in refs ensures In(c, x) {
        var j :| 0 <= j < |b| && b[j].Some? && x in b[j].value;
        assert c[|a| + j] == b[j];
      }
    }
  }

  lemma CommCallLinked(g: Config, i: Inst, pc: nat, reg: Word)
    ensures Linked(CommCall(g, i, pc, reg), {PcWord(pc + 1), Branch(MacMCAL, Ocall)})
  {
    hide Access;
    hide Mid;
    AccessFree();
    MidFree();
    var parts := CommCall(g, i, pc, reg);
    assert parts[2].value[1] == PcWord(pc + 1);
    assert parts[4].value[4] == Branch(MacMCAL, Ocall);
  }

  lemma CommFrameLinked(g: Config, i: Inst, pc: nat, reg: Word)
    ensures Linked(CommFrame(g, i, pc, reg), {Branch(MacMFRA, Ocall), Branch(Dis(pc + 1), Ojmp), Branch(MacFRAM, Ocall)})
  {
    hide Access;
    hide Mid;
    AccessFree();
    MidFree();
    var parts := CommFrame(g, i, pc, reg);
    if parts[0].Some? {
      var items, n := parts[0].value, |OpWst(i, Ostw, RCX).value|;
      assert items[|items| - n - 3] == Branch(MacMFRA, Ocall);
      assert items[|items| - n - 2] == Branch(Dis(pc + 1), Ojmp);
      assert items[|items| - n - 1] == Branch(MacFRAM, Ocall);
    }
  }

  // ----- the instructions

  lemma FreeLinked(parts: seq<Items>)
    requires OnlyAll(parts, {})
    ensures Linked(parts, {})
  {
  }

  lemma GivenUp(refs: set<Item>)
    ensures Linked([None], refs)
  {
    var parts: seq<Items> := [None];
    assert parts[0].None?;
  }

  lemma LongCode(g: Config, i: Inst, pc: nat, r: Relation)
    requires Test(i.op) == Some((r, Longs))
    ensures CompMore(g, i, pc) == CBraL(g, i, pc, if r.EQ? then Ojnel else JumpSigned(Strict(r)), JumpUnsigned(r),
                                        if r.EQ? then ANDAND else if r.NE? then OROR else EQAND)
  {
    hide CBraL;
    hide Access;
    hide Mid;
    hide LArith;
    hide ShiftL;
  }

  lemma LongBranch(g: Config, i: Inst, pc: nat, r: Relation)
    requires Test(i.op) == Some((r, Longs))
    ensures Linked(CompMore(g, i, pc), TestJumps(i, r, Longs) + Backward(i, pc))
  {
    hide CBraL;
    hide CompMore;
    hide Linked;
    hide Test;
    hide Backward;
    LongCode(g, i, pc, r);
    var mode := if r.EQ? then ANDAND else if r.NE? then OROR else EQAND;
    var hi := if r.EQ? then Ojnel else JumpSigned(Strict(r));
    CBraLLinked(g, i, pc, hi, JumpUnsigned(r), mode);
    assert (if mode.ANDAND? then {} else {Branch(Dis(i.target), hi)}) + {Branch(Dis(i.target), JumpUnsigned(r))} == TestJumps(i, r, Longs);
  }

  lemma LongArith(g: Config, i: Inst, pc: nat)
    requires Test(i.op).None?
    ensures OnlyAll(CompMore(g, i, pc), {})
  {
    hide CBraL;
    hide Access;
    hide Mid;
    hide LArith;
    AccessFree();
    MidFree();
    LArithAllFree();
  }

  lemma LArithAllFree()
    ensures forall i, op, opc :: OnlyAll(LArith(i, op, opc), {})
  {
    forall i, op, opc ensures OnlyAll(LArith(i, op, opc), {}) { LArithFree(i, op, opc); }
  }

  /** Arithmetic on two-word integers. */
  predicate Long(op: Op) {
    op.IADDL? || op.ISUBL? || op.IORL? || op.IANDL? || op.IXORL? || op.ISHLL? || op.ISHRL?
  }

  lemma MoreNone(g: Config, i: Inst, pc: nat)
    requires !Long(i.op) && !(Test(i.op).Some? && Test(i.op).value.1.Longs?)
    ensures CompMore(g, i, pc) == [None]
  {
    hide LArith;
    hide ShiftL;
    hide CBraL;
  }

  lemma TestLinks(g: Config, i: Inst, pc: nat, r: Relation, k: Kind)
    requires Test(i.op) == Some((r, k))
    ensures Links(g, i, pc) == TestJumps(i, r, k) + Backward(i, pc)
  {
    hide Test;
    hide TestJumps;
    hide Backward;
  }

  lemma LongLinks(g: Config, i: Inst, pc: nat)
    requires Long(i.op)
    ensures Test(i.op).None? && Links(g, i, pc) == {}
  {
  }

  lemma MoreLinked(g: Config, i: Inst, pc: nat)
    ensures Linked(CompMore(g, i, pc), Links(g, i, pc))
  {
    hide *;
    if Test(i.op).Some? && Test(i.op).value.1.Longs? {
      LongBranch(g, i, pc, Test(i.op).value.0);
      TestLinks(g, i, pc, Test(i.op).value.0, Longs);
    } else if Long(i.op) {
      LongLinks(g, i, pc);
      LongArith(g, i, pc);
      FreeLinked(CompMore(g, i, pc));
    } else {
      MoreNone(g, i, pc);
      GivenUp(Links(g, i, pc));
    }
  }

  // Division and indexing.

  predicate Divides(op: Op) {
    op.IMULF? || op.IDIVF? || op.IMODW? || op.IDIVW? || op.IMULW? || op.IMODB? || op.IDIVB? || op.IMULB? || op.IINDX? || op.IINDB?
    || op.IINDF? || op.IINDL? || op.IINDW? || op.IINDC? || op.IMOVL?
  }

  predicate Indexes(op: Op) {
    op.IINDX? || op.IINDB? || op.IINDF? || op.IINDL? || op.IINDW? || op.IINDC?
  }

  lemma IndexesFree(g: Config, i: Inst, pc: nat)
    requires Indexes(i.op)
    ensures OnlyAll(CompDivide(g, i, pc), {})
  {
    hide CompMore;
    hide Access;
    hide MulDiv;
    hide ArithF;
    hide IndX;
    hide Index;
    hide IndC;
    hide OnlyAll;
    DivideOthers(g, i);
  }

  lemma DivideFree(g: Config, i: Inst, pc: nat)
    requires Divides(i.op) && !i.op.IMOVL? && !Indexes(i.op)
    ensures OnlyAll(CompDivide(g, i, pc), {})
  {
    hide CompMore;
    hide Access;
    hide MulDiv;
    hide ArithF;
    hide IndX;
    hide Index;
    hide IndC;
    hide OnlyAll;
    DivideOthers(g, i);
    ArithFFree(i, 1);
    ArithFFree(i, 7);
  }

  lemma MoveLongFree(g: Config, i: Inst, pc: nat)
    requires i.op.IMOVL?
    ensures OnlyAll(CompDivide(g, i, pc), {})
  {
    hide CompMore;
    hide Access;
    AccessFree();
  }

  lemma DivideOthers(g: Config, i: Inst)
    ensures forall ld, st, op, mul, mod :: OnlyAll(MulDiv(i, ld, st, op, mul, mod), {})
    ensures OnlyAll(IndX(g, i), {}) && OnlyAll(IndC(g, i), {}) && forall r :: OnlyAll(Index(g, i, r), {})
  {
    hide OnlyAll;
    forall ld, st, op, mul, mod ensures OnlyAll(MulDiv(i, ld, st, op, mul, mod), {}) { MulDivFree(i, ld, st, op, mul, mod); }
    forall r ensures OnlyAll(Index(g, i, r), {}) { IndexFree(g, i, r); }
    IndXFree(g, i);
    IndCFree(g, i);
  }

  lemma DivideLinks(g: Config, i: Inst, pc: nat)
    requires Divides(i.op)
    ensures Links(g, i, pc) == {}
  {
  }

  lemma CaseLinked(g: Config, i: Inst, pc: nat)
    requires i.op.ICASE?
    ensures Linked(CompDivide(g, i, pc), Links(g, i, pc))
  {
    hide CompMore;
    hide Access;
    AccessFree();
    var parts := CompDivide(g, i, pc);
    assert parts[3].value[0] == Branch(MacCASE, Ojmp);
  }

  lemma DivideRest(g: Config, i: Inst, pc: nat)
    requires !Divides(i.op) && !i.op.ICASE?
    ensures CompDivide(g, i, pc) == CompMore(g, i, pc)
  {
    hide CompMore;
  }

  lemma DivideLinked(g: Config, i: Inst, pc: nat)
    ensures Linked(CompDivide(g, i, pc), Links(g, i, pc))
  {
    hide *;
    if Divides(i.op) {
      if i.op.IMOVL? {
        MoveLongFree(g, i, pc);
      } else if Indexes(i.op) {
        IndexesFree(g, i, pc);
      } else {
        DivideFree(g, i, pc);
      }
      DivideLinks(g, i, pc);
      FreeLinked(CompDivide(g, i, pc));
    } else if i.op.ICASE? {
      CaseLinked(g, i, pc);
    } else {
      DivideRest(g, i, pc);
      MoreLinked(g, i, pc);
    }
  }

  // Moves, calls and jumps.

  predicate Moves(op: Op) {
    op.IMOVF? || op.INEGF? || op.IMOVB? || op.IMOVW? || op.ICVTLW? || op.ICVTWL? || op.IGOTO?
  }

  predicate MovesWord(op: Op) {
    op.IMOVB? || op.IMOVW? || op.ICVTLW?
  }

  lemma MovesWordFree(g: Config, i: Inst, pc: nat)
    requires MovesWord(i.op)
    ensures OnlyAll(CompIndex(g, i, pc), {})
  {
    hide CompDivide;
    hide Access;
    AccessFree();
  }

  lemma MovesFree(g: Config, i: Inst, pc: nat)
    requires Moves(i.op) && !MovesWord(i.op)
    ensures OnlyAll(CompIndex(g, i, pc), {})
  {
    hide CompDivide;
    hide Access;
    AccessFree();
  }

  lemma MovesLinks(g: Config, i: Inst, pc: nat)
    requires Moves(i.op)
    ensures Links(g, i, pc) == {}
  {
  }

  lemma CallLinked(g: Config, i: Inst, pc: nat)
    requires i.op.ICALL?
    ensures Linked(CompIndex(g, i, pc), Links(g, i, pc))
  {
    hide CompDivide;
    hide Access;
    AccessFree();
    var parts := CompIndex(g, i, pc);
    assert parts[2].value[1] == PcWord(pc + 1);
    if i.dst.Imm? {
      var last := parts[3].value;
      assert last[|last| - 1] == Branch(Dis(i.target), Ojmp);
      if i.target <= pc { assert last[4] == Branch(MacRELQ, Ocall); }
    }
  }

  lemma JumpLinked(g: Config, i: Inst, pc: nat)
    requires i.op.IJMP? || i.op.IMOVPC?
    ensures Linked(CompIndex(g, i, pc), Links(g, i, pc))
  {
    hide CompDivide;
    hide Access;
    AccessFree();
    var parts := CompIndex(g, i, pc);
    if i.op.IJMP? {
      var last := parts[0].value;
      assert last[|last| - 1] == Branch(Dis(i.target), Ojmp);
      if i.target <= pc { assert last[4] == Branch(MacRELQ, Ocall); }
    } else {
      assert parts[1].value[0] == PcWord(RawImm(i.src));
    }
  }

  lemma IndexRest(g: Config, i: Inst, pc: nat)
    requires !Moves(i.op) && !i.op.ICALL? && !i.op.IJMP? && !i.op.IMOVPC?
    ensures CompIndex(g, i, pc) == CompDivide(g, i, pc)
  {
    hide CompDivide;
  }

  lemma IndexLinked(g: Config, i: Inst, pc: nat)
    ensures Linked(CompIndex(g, i, pc), Links(g, i, pc))
  {
    hide *;
    if Moves(i.op) {
      if MovesWord(i.op) {
        MovesWordFree(g, i, pc);
      } else {
        MovesFree(g, i, pc);
      }
      MovesLinks(g, i, pc);
      FreeLinked(CompIndex(g, i, pc));
    } else if i.op.ICALL? {
      CallLinked(g, i, pc);
    } else if i.op.IJMP? || i.op.IMOVPC? {
      JumpLinked(g, i, pc);
    } else {
      IndexRest(g, i, pc);
      DivideLinked(g, i, pc);
    }
  }

  // Branches and arithmetic.

  predicate Calculates(op: Op) {
    op.ISUBW? || op.ISUBB? || op.ISUBF? || op.IADDW? || op.IADDB? || op.IADDF? || op.IORW? || op.IORB? || op.IANDW? || op.IANDB?
    || op.IXORW? || op.IXORB? || op.ISHLW? || op.ISHLB? || op.ISHRW? || op.ISHRB?
  }

  lemma CalculatesFree(g: Config, i: Inst, pc: nat)
    requires Calculates(i.op)
    ensures OnlyAll(CompArith(g, i, pc), {})
  {
    hide CompIndex;
    hide Arith;
    hide ArithB;
    hide ArithF;
    hide ShiftOp;
    hide OnlyAll;
    forall op2, rm ensures OnlyAll(Arith(i, op2, rm), {}) { ArithFree(i, op2, rm); }
    forall op2 ensures OnlyAll(ArithB(i, op2), {}) { ArithBFree(i, op2); }
    forall op ensures OnlyAll(ArithF(i, op), {}) { ArithFFree(i, op); }
    forall ld, st, op, r ensures OnlyAll(ShiftOp(i, ld, st, op, r), {}) { ShiftOpFree(i, ld, st, op, r); }
  }

  lemma CalculatesLinks(g: Config, i: Inst, pc: nat)
    requires Calculates(i.op)
    ensures Links(g, i, pc) == {}
  {
  }

  lemma WordCode(g: Config, i: Inst, pc: nat, r: Relation)
    requires Test(i.op) == Some((r, WordsOf))
    ensures CompArith(g, i, pc) == CBra(g, i, pc, JumpSigned(r))
    ensures (if i.src.Imm? then SwapBraOp(JumpSigned(r)) else JumpSigned(r)) == JumpSigned(if i.src.Imm? then Exchanged(r) else r)
  {
    hide CBra;
    hide CompIndex;
  }

  lemma ByteCode(g: Config, i: Inst, pc: nat, r: Relation)
    requires Test(i.op) == Some((r, Bytes))
    ensures CompArith(g, i, pc) == CBraB(g, i, pc, JumpUnsigned(r))
  {
    hide CBraB;
    hide CompIndex;
  }

  lemma FloatCode(g: Config, i: Inst, pc: nat, r: Relation)
    requires Test(i.op) == Some((r, Floats))
    ensures CompArith(g, i, pc) == CBraF(g, i, pc, JumpUnsigned(r))
  {
    hide CBraF;
    hide CompIndex;
  }

  lemma TestLinked(g: Config, i: Inst, pc: nat, r: Relation, k: Kind)
    requires Test(i.op) == Some((r, k)) && !k.Longs?
    ensures Linked(CompArith(g, i, pc), TestJumps(i, r, k) + Backward(i, pc))
  {
    hide CompArith;
    hide CBra;
    hide CBraB;
    hide CBraF;
    hide Linked;
    hide Test;
    hide Backward;
    hide JumpSigned;
    hide JumpUnsigned;
    match k {
      case WordsOf =>
        WordCode(g, i, pc, r);
        CBraLinked(g, i, pc, JumpSigned(r));
      case Bytes =>
        ByteCode(g, i, pc, r);
        CBraBLinked(g, i, pc, JumpUnsigned(r));
      case Floats =>
        FloatCode(g, i, pc, r);
        CBraFLinked(g, i, pc, JumpUnsigned(r));
    }
  }

  lemma ArithRest(g: Config, i: Inst, pc: nat)
    requires !Calculates(i.op) && (Test(i.op).None? || Test(i.op).value.1.Longs?)
    ensures CompArith(g, i, pc) == CompIndex(g, i, pc)
  {
    hide CompIndex;
  }

  lemma ArithLinked(g: Config, i: Inst, pc: nat)
    ensures Linked(CompArith(g, i, pc), Links(g, i, pc))
  {
    hide *;
    if Calculates(i.op) {
      CalculatesFree(g, i, pc);
      CalculatesLinks(g, i, pc);
      FreeLinked(CompArith(g, i, pc));
    } else if Test(i.op).Some? && !Test(i.op).value.1.Longs? {
      TestLinked(g, i, pc, Test(i.op).value.0, Test(i.op).value.1);
      TestLinks(g, i, pc, Test(i.op).value.0, Test(i.op).value.1);
    } else {
      ArithRest(g, i, pc);
      IndexLinked(g, i, pc);
    }
  }

  // Heads, tails and lengths.

  predicate Heads(op: Op) {
    op.IHEADW? || op.IHEADF? || op.IHEADB? || op.ILENA? || op.ILENC? || op.ILENL?
  }

  lemma HeadsFree(g: Config, i: Inst, pc: nat)
    requires Heads(i.op)
    ensures OnlyAll(CompHead(g, i, pc), {})
  {
    hide CompArith;
    hide MovP;
    hide Access;
    AccessFree();
  }

  lemma HeadsLinks(g: Config, i: Inst, pc: nat)
    requires Heads(i.op)
    ensures Links(g, i, pc) == {}
  {
  }

  /** Getting the pointer to move. */
  function PointerLoad(g: Config, i: Inst): seq<Items> {
    match i.op
    case ITAIL => [OpWld(i, Oldw, RAX), I([Mod(Oldw, g.off(ListTail), RAX, RBX)])]
    case IMOVP => [OpWld(i, Oldw, RBX)]
    case _ => [OpWld(i, Oldw, RBX), I([Mod(Oldw, g.off(ListData), RBX, RBX)])]
  }

  lemma PointerLinked(g: Config, i: Inst, pc: nat)
    requires MovesPointer(i.op)
    ensures Linked(CompHead(g, i, pc), Links(g, i, pc))
  {
    hide CompArith;
    hide MovP;
    hide Access;
    hide Linked;
    assert CompHead(g, i, pc) == PointerLoad(g, i) + MovP(i);
    assert OnlyAll(PointerLoad(g, i), {}) by { AccessFree(); }
    MovPLinked(i);
    FreeBefore(PointerLoad(g, i), MovP(i), {Branch(MacCOLR, Ocall), Branch(MacFRP, Ocall)});
  }

  lemma HeadRest(g: Config, i: Inst, pc: nat)
    requires !Heads(i.op) && !MovesPointer(i.op)
    ensures CompHead(g, i, pc) == CompArith(g, i, pc)
  {
    hide CompArith;
  }

  lemma HeadLinked(g: Config, i: Inst, pc: nat)
    ensures Linked(CompHead(g, i, pc), Links(g, i, pc))
  {
    hide *;
    if Heads(i.op) {
      HeadsFree(g, i, pc);
      HeadsLinks(g, i, pc);
      FreeLinked(CompHead(g, i, pc));
    } else if MovesPointer(i.op) {
      PointerLinked(g, i, pc);
    } else {
      HeadRest(g, i, pc);
      ArithLinked(g, i, pc);
    }
  }

  // Conversions, memory moves, return and frames.

  predicate Converts(op: Op) {
    op.ICVTBW? || op.ICVTWB? || op.IHEADM? || op.IMOVM? || op.ILEA?
  }

  lemma ConvertsFree(g: Config, i: Inst, pc: nat)
    requires Converts(i.op)
    ensures OnlyAll(CompMove(g, i, pc), {})
  {
    hide CompHead;
    hide Access;
    hide MovM;
    AccessFree();
    MovMFree(i);
  }

  lemma ConvertsLinks(g: Config, i: Inst, pc: nat)
    requires Converts(i.op)
    ensures Links(g, i, pc) == {}
  {
  }

  lemma ReturnLinked(g: Config, i: Inst, pc: nat)
    requires i.op.IRET?
    ensures Linked(CompMove(g, i, pc), Links(g, i, pc))
  {
    hide CompHead;
    assert CompMove(g, i, pc)[0].value[0] == Branch(MacRET, Ojmp);
  }

  lemma FrameLinked(g: Config, i: Inst, pc: nat)
    requires i.op.IFRAME?
    ensures Linked(CompMove(g, i, pc), Links(g, i, pc))
  {
    hide CompHead;
    hide Punt;
    hide Access;
    AccessFree();
    if i.src.Imm? {
      assert CompMove(g, i, pc)[0].value[1] == Branch(MacFRAM, Ocall);
    } else {
      PuntLinked(g, i, pc, {SRCOP, DSTOP});
    }
  }

  lemma MoveRest(g: Config, i: Inst, pc: nat)
    requires !Converts(i.op) && !i.op.IRET? && !i.op.IFRAME?
    ensures CompMove(g, i, pc) == CompHead(g, i, pc)
  {
    hide CompHead;
  }

  lemma MoveLinked(g: Config, i: Inst, pc: nat)
    ensures Linked(CompMove(g, i, pc), Links(g, i, pc))
  {
    hide *;
    if Converts(i.op) {
      ConvertsFree(g, i, pc);
      ConvertsLinks(g, i, pc);
      FreeLinked(CompMove(g, i, pc));
    } else if i.op.IRET? {
      ReturnLinked(g, i, pc);
    } else if i.op.IFRAME? {
      FrameLinked(g, i, pc);
    } else {
      MoveRest(g, i, pc);
      HeadLinked(g, i, pc);
    }
  }

  // The instructions left to the interpreter, and those of other modules.

  lemma CommLinked(g: Config, i: Inst, pc: nat)
    requires (i.op.IMCALL? || i.op.IMFRAME?) && i.mid.MidImm?
    ensures Linked(CompParts(g, i, pc), Links(g, i, pc))
  {
    hide CompMove;
    hide CommCall;
    hide CommFrame;
    hide Linked;
    if i.op.IMCALL? {
      CommCallLinked(g, i, pc, i.mid.reg);
    } else {
      CommFrameLinked(g, i, pc, i.mid.reg);
    }
  }

  /** With which flags an instruction that is left to the interpreter stores or takes the address of code. */
  function PuntFlags(i: Inst): Option<set<Flag>> {
    match i.op
    case IMCALL => if i.mid.MidImm? then None else Some({SRCOP, DSTOP, THREOP, WRTPC, NEWPC})
    case ISEND | IRECV | IALT => Some({SRCOP, DSTOP, TCHECK, WRTPC})
    case ISPAWN => Some({SRCOP, DBRAN})
    case IBNEC | IBEQC | IBLTC | IBLEC | IBGTC | IBGEC => Some({SRCOP, DBRAN, NEWPC, WRTPC})
    case IRAISE => Some({SRCOP, WRTPC, NEWPC})
    case _ => None
  }

  lemma PuntsAre(g: Config, i: Inst, pc: nat, fl: set<Flag>)
    requires PuntFlags(i) == Some(fl)
    ensures CompParts(g, i, pc) == Punt(g, i, pc, fl)
  {
    hide Punt;
    hide CompMove;
  }

  lemma PuntsLinks(g: Config, i: Inst, pc: nat, fl: set<Flag>)
    requires PuntFlags(i) == Some(fl)
    ensures Links(g, i, pc) == PuntLinks(g, i, pc, fl)
  {
  }

  /** The other instructions left to the interpreter, or to nobody. */
  predicate Others(i: Inst) {
    match i.op
    case INOP | IRUNT | ITCMP | IECLR | ICASEC | ICASEL | IADDC | IMULL | IDIVL | IMODL | IMNEWZ | ILSRW | ILSRL | INEWCM | INEWCMP
       | ILOAD | INEWA | INEWAZ | INEW | INEWZ | ISLICEA | ISLICELA | ICONSB | ICONSW | ICONSL | ICONSF | ICONSM | ICONSMP | ICONSP
       | IMOVMP | IHEADMP | IHEADL | IINSC | ICVTAC | ICVTCW | ICVTWC | ICVTLC | ICVTCL | ICVTFC | ICVTCF | ICVTRF | ICVTFR
       | ICVTWS | ICVTSW | IMSPAWN | ICVTCA | ISLICEC | INBALT | ICVTFW | ICVTWF | ICVTLF | ICVTFL
       | INEWCB | INEWCW | INEWCF | INEWCP | INEWCL | IEXIT | ISELF
       | IMULX | IDIVX | ICVTXX | IMULX0 | IDIVX0 | ICVTXX0 | IMULX1 | IDIVX1 | ICVTXX1 | ICVTFX | ICVTXF | IEXPW | IEXPL | IEXPF => true
    case IMFRAME => !i.mid.MidImm?
    case _ => false
  }

  lemma OthersLinks(g: Config, i: Inst, pc: nat)
    requires Others(i)
    ensures Links(g, i, pc) == {}
  {
  }

  /** They are none of those that refer to code. */
  lemma OthersAre(g: Config, i: Inst, pc: nat)
    requires Others(i)
    ensures CompParts(g, i, pc) == [None] || exists fl :: CompParts(g, i, pc) == Punt(g, i, pc, fl) && WRTPC !in fl && DBRAN !in fl
  {
    hide Punt;
    hide CompMove;
  }

  lemma OthersLinked(g: Config, i: Inst, pc: nat)
    requires Others(i)
    ensures Linked(CompParts(g, i, pc), {})
  {
    hide Others;
    hide CompParts;
    hide Punt;
    hide Linked;
    OthersAre(g, i, pc);
    if CompParts(g, i, pc) == [None] {
      GivenUp({});
    } else {
      var fl :| CompParts(g, i, pc) == Punt(g, i, pc, fl) && WRTPC !in fl && DBRAN !in fl;
      PuntLinked(g, i, pc, fl);
      assert PuntLinks(g, i, pc, fl) == {};
    }
  }

  lemma PartsRest(g: Config, i: Inst, pc: nat)
    requires !Others(i) && PuntFlags(i).None? && !((i.op.IMCALL? || i.op.IMFRAME?) && i.mid.MidImm?)
    ensures CompParts(g, i, pc) == CompMove(g, i, pc)
  {
    hide CompMove;
  }

  lemma PartsLinked(g: Config, i: Inst, pc: nat)
    ensures Linked(CompParts(g, i, pc), Links(g, i, pc))
  {
    hide *;
    if (i.op.IMCALL? || i.op.IMFRAME?) && i.mid.MidImm? {
      CommLinked(g, i, pc);
    } else if PuntFlags(i).Some? {
      PuntsAre(g, i, pc, PuntFlags(i).value);
      PuntsLinks(g, i, pc, PuntFlags(i).value);
      PuntLinked(g, i, pc, PuntFlags(i).value);
    } else if Others(i) {
      OthersLinks(g, i, pc);
      OthersLinked(g, i, pc);
    } else {
      PartsRest(g, i, pc);
      MoveLinked(g, i, pc);
    }
  }

  /** Whatever the instruction: its code refers to exactly the instructions and macros it should. */
  lemma RefersExactly(g: Config, i: Inst, pc: nat)
    requires Comp(g, i, pc).Some?
    ensures forall x | Refers(x) :: x in Comp(g, i, pc).value <==> x in Links(g, i, pc)
  {
    hide CompParts;
    hide Links;
    hide All;
    var parts, refs := CompParts(g, i, pc), Links(g, i, pc);
    PartsLinked(g, i, pc);
    AllLinked(parts, refs);
    forall x | x in refs ensures x in All(parts).value {
      var j :| 0 <= j < |parts| && parts[j].Some? && x in parts[j].value;
      InAll(parts, j, x);
    }
  }

  /** Every branch to an instruction goes to the target, or, in the frame of a call to another module, to the next one. */
  lemma BranchTargets(g: Config, i: Inst, pc: nat, x: Item)
    requires Comp(g, i, pc).Some? && x in Comp(g, i, pc).value && x.Branch? && x.t.Dis?
    ensures x.t.i == i.target || (i.op.IMFRAME? && x.t.i == pc + 1)
  {
    hide Comp;
    RefersExactly(g, i, pc);
  }

  /** Jumps, calls and all conditional branches have one. */
  lemma HasBranch(g: Config, i: Inst, pc: nat)
    requires Comp(g, i, pc).Some? && (i.op.IJMP? || (i.op.ICALL? && i.dst.Imm?) || Test(i.op).Some?)
    ensures exists op :: Branch(Dis(i.target), op) in Comp(g, i, pc).value
  {
    hide Comp;
    RefersExactly(g, i, pc);
    if Test(i.op).Some? {
      TestHasJump(g, i, pc, Test(i.op).value.0, Test(i.op).value.1);
    } else {
      assert Branch(Dis(i.target), Ojmp) in Links(g, i, pc);
    }
  }

  lemma TestHasJump(g: Config, i: Inst, pc: nat, r: Relation, k: Kind)
    requires Test(i.op) == Some((r, k))
    ensures exists op {:trigger Branch(Dis(i.target), op)} :: Branch(Dis(i.target), op) in Links(g, i, pc)
  {
    TestLinks(g, i, pc, r, k);
    hide Links;
    hide Test;
    var op := if k.WordsOf? then JumpSigned(if i.src.Imm? then Exchanged(r) else r) else JumpUnsigned(r);
    assert Branch(Dis(i.target), op) in TestJumps(i, r, k);
  }

  // ----- labels

  /** Call `k` is a short jump, and what follows the label it goes to begins with `rest`. */
  predicate JumpsTo(items: seq<Item>, k: nat, op: Byte, rest: seq<Item>) {
    k < |items| && items[k].Short? && items[k].op == op && 0 <= k + 1 + items[k].n <= |items| && rest <= items[k + 1 + items[k].n..]
  }

  /** macret: the jumps of the tests for a type without destructor and for the first frame of a thread go to lpunt, that of
      the test for a frame of the same module to lnomr, that for a module still in use to lfrmr, and that for a module
      that is not compiled to linterp. */
  lemma RetLabels(g: Config)
    ensures |MacRet(g)| == 24 + |RetCompiled(g)| + |RetInterp(g)| + |RetPunt(g)|
    ensures JumpsTo(MacRet(g), 3, Ojeqb, RetPunt(g)) && JumpsTo(MacRet(g), 6, Ojeqb, RetPunt(g)) && JumpsTo(MacRet(g), 8, Ojeqb, RetPunt(g))
    ensures JumpsTo(MacRet(g), 10, Ojeqb, RetCompiled(g)) && JumpsTo(MacRet(g), 14, Ojneb, RetModule(g))
    ensures JumpsTo(MacRet(g), 16, Ojmpb, RetPunt(g)) && JumpsTo(MacRet(g), 23, Ojeqb, RetInterp(g))
  {
    hide RetPunt;
    hide RetInterp;
    hide RetCompiled;
    var items := MacRet(g);
    var last := RetCompiled(g) + RetInterp(g) + RetPunt(g);
    assert items[24..] == last;
    assert items[17..] == RetModule(g) + [items[23]] + last;
    assert items[24 + |RetCompiled(g)|..] == RetInterp(g) + RetPunt(g);
    assert items[24 + |RetCompiled(g)| + |RetInterp(g)|..] == RetPunt(g);
  }

  /** macmcal: a module that is nil, or without code, is left to rmcall; one that is not compiled is entered by the
      interpreter. */
  lemma McalLabels(g: Config)
    ensures JumpsTo(MacMcal(g), 2, Ojeqb, [Mod(Ostw, g.off(RegFP), RTMP, RCX), Mod(Ostw, g.off(RegDT), RTMP, RAX), Bra(g.rmcall, Ocall)])
    ensures JumpsTo(MacMcal(g), 5, Ojneb, [Gen2(Oldw, RR(RFP, RCX)), Mod(Ostw, g.off(RegM), RTMP, RTA)])
    ensures JumpsTo(MacMcal(g), 21, Ojeqb, [Mod(Ostw, g.off(RegFP), RTMP, RFP), Mod(Ostw, g.off(RegPC), RTMP, RAX)] + PopAll())
  {
    var items := MacMcal(g);
    assert items[6..9] == [Mod(Ostw, g.off(RegFP), RTMP, RCX), Mod(Ostw, g.off(RegDT), RTMP, RAX), Bra(g.rmcall, Ocall)];
  }

  /** macfram: with room on the stack, extend is passed over. */
  lemma FramLabel(g: Config)
    ensures JumpsTo(MacFram(g), 4, Ojltb, [Mod(Oldw, g.off(RegSP), RTMP, RCX), Mod(Ostw, g.off(RegSP), RTMP, RAX)])
  {
  }

  /** commframe: a module that is nil is left to macmfra; a type with an initializer to macfram. */
  lemma FrameLabels(g: Config, i: Inst, pc: nat, reg: Word)
    requires CommFrame(g, i, pc, reg)[0].Some?
    ensures OpWld(i, Oldw, RAX).Some?
    ensures var items, n := CommFrame(g, i, pc, reg)[0].value, |OpWld(i, Oldw, RAX).value|;
      && JumpsTo(items, n + 2, Ojeqb, [Branch(MacMFRA, Ocall), Branch(Dis(pc + 1), Ojmp)])
      && JumpsTo(items, n + 6, Ojneb, [Branch(MacFRAM, Ocall)])
  {
    hide Access;
    hide LinkAt;
  }

  /** commcall: without a module there is no code to look up. */
  lemma CallLabel(g: Config, i: Inst, pc: nat, reg: Word)
    ensures CommCall(g, i, pc, reg)[4].Some? && JumpsTo(CommCall(g, i, pc, reg)[4].value, 2, Ojeqb, [Branch(MacMCAL, Ocall)])
  {
    hide Access;
    hide LinkAt;
  }

  /** A branch on two-word integers: if the high words differ, the low ones are passed over. */
  lemma LongLabel(g: Config, i: Inst, pc: nat, hi: Byte, lo: Byte, mode: Mode)
    requires !mode.OROR?
    ensures CBraL(g, i, pc, hi, lo, mode)[4].Some?
    ensures var items, k := CBraL(g, i, pc, hi, lo, mode)[4].value, if mode.ANDAND? then 0 else 2;
      JumpsTo(items, k, Ojneb, []) && k + 1 + items[k].n == |items|
  {
    hide Access;
    hide Mid;
  }

  /** shll and shrl: a count with bit 5 set takes the second sequence, any other the first and then passes it over. */
  lemma ShiftLabels(i: Inst, lo: seq<Item>, hi: seq<Item>)
    requires |lo| <= 6 && |hi| <= 6 && NoShort(lo) && NoShort(hi)
    ensures ShiftL(i, lo, hi)[2].Some?
    ensures var items := ShiftL(i, lo, hi)[2].value;
      && items[3..3 + |lo|] == lo && JumpsTo(items, 2, Ojneb, hi) && |items| == 4 + |lo| + |hi|
      && JumpsTo(items, 3 + |lo|, Ojmpb, []) && 4 + |lo| + items[3 + |lo|].n == |items|
  {
    hide Access;
    hide Mid;
    var items := ShiftL(i, lo, hi)[2].value;
    assert items[4 + |lo|..] == hi;
  }
}
