/**
  The code generator of libinterp/comp-386.c as lists of emitter calls.  `Comp` says which calls each Dis instruction makes,
  `Macros` those of each macro; what the calls write depends on an environment that differs between the two passes.
 */
module Jit {
  import opened Wrappers
  import opened Words

  // ----- emitter calls

  /** A register, or an operation in the place of one; and a register that can address memory with a displacement alone. */
  type Reg = r: nat | r < 8
  type Base = r: nat | r < 8 && r != 4 && r != 5

  /** The target of a branch: a Dis instruction or a macro. */
  datatype Target = Dis(i: nat) | Macro(m: nat)

  datatype Item =
    | Raw1(b: Byte)                                   // genb
    | Raw2(b1: Byte, b2: Byte)                        // gen2
    | GenW(w: Word)                                   // genw of a constant
    | Mod(inst: Byte, disp: Word, rm: Base, r: Reg)    // modrm
    | Con(o: Word, r: Reg)                            // con
    | ConHere(r: Reg)                                 // con of the address of the word just written
    | Bra(fn: Word, op: Byte)                         // bra
    | Branch(t: Target, op: Byte)                     // rbra
    | PcWord(i: nat)                                  // genw(base + patch[i])
    | Literal(imm: Word, roff: Word)                  // literal
    | LiteralPc(i: nat, roff: Word)                   // literal(base + patch[i])
    | Short(op: Byte, n: int)                         // a jump with a one-byte displacement over the next n items

  /** bc: does the signed value fit a byte (by the code's own, narrower, test)? */
  predicate Bc(o: Word) {
    o < 127 || o > M32 - 128
  }

  const RAX := 0
  const RCX := 1
  const RDX := 2
  const RBX := 3
  const RSI := 6
  const RDI := 7
  const RFP := 6
  const RMP := 7
  const RTA := 2
  const RTMP := 3

  const Ocall: Byte := 0xe8
  const Ocmpb: Byte := 0x38
  const Ocmpw: Byte := 0x39
  const Ocmpi: Byte := 0x83
  const Odecrm: Byte := 0xff
  const Oincrm: Byte := 0xff
  const Ojeqb: Byte := 0x74
  const Ojneb: Byte := 0x75
  const Ojgtb: Byte := 0x7f
  const Ojgeb: Byte := 0x7d
  const Ojleb: Byte := 0x7e
  const Ojltb: Byte := 0x7c
  const Ojmp: Byte := 0xe9
  const Ojmpb: Byte := 0xeb
  const Ojmprm: Byte := 0xff
  const Ocallrm: Byte := 0xff
  const Ojccl: Byte := 0x83
  const Ojcsl: Byte := 0x82
  const Ojeql: Byte := 0x84
  const Ojgel: Byte := 0x8d
  const Ojgtl: Byte := 0x8f
  const Ojhil: Byte := 0x87
  const Ojlel: Byte := 0x8e
  const Ojlsl: Byte := 0x86
  const Ojltl: Byte := 0x8c
  const Ojbl: Byte := 0x82
  const Ojael: Byte := 0x83
  const Ojal: Byte := 0x87
  const Ojnel: Byte := 0x85
  const Ojbel: Byte := 0x86
  const Oldb: Byte := 0x8a
  const Oldw: Byte := 0x8b
  const Olea: Byte := 0x8d
  const Omov: Byte := 0xc7
  const Omovf: Byte := 0xdd
  const Omovimm: Byte := 0xb8
  const Oret: Byte := 0xc3
  const Ostb: Byte := 0x88
  const Ostw: Byte := 0x89
  const Oxor: Byte := 0x31
  const Oxchg: Byte := 0x87
  const OxchgAX := 0x90
  const Opopl := 0x58
  const Opushl := 0x50
  const Oshr: Byte := 0xd1
  const Oshl: Byte := 0xd3
  const Osar: Byte := 0xd3
  const H: Word := M32 - 1

  const MacFRP := Macro(0)
  const MacRET := Macro(1)
  const MacCASE := Macro(2)
  const MacCOLR := Macro(3)
  const MacMCAL := Macro(4)
  const MacFRAM := Macro(5)
  const MacMFRA := Macro(6)
  const MacRELQ := Macro(7)
  const NMACRO := 8

  // ----- Dis instructions

  datatype Op =
    | INOP | IALT | INBALT | IGOTO | ICALL | IFRAME | ISPAWN | IRUNT | ILOAD | IMCALL | IMSPAWN | IMFRAME | IRET | IJMP
    | ICASE | IEXIT | INEW | INEWA | INEWCB | INEWCW | INEWCF | INEWCP | INEWCM | INEWCMP | ISEND | IRECV | ICONSB | ICONSW
    | ICONSP | ICONSF | ICONSM | ICONSMP | IHEADB | IHEADW | IHEADP | IHEADF | IHEADM | IHEADMP | ITAIL | ILEA | IINDX
    | IMOVP | IMOVM | IMOVMP | IMOVB | IMOVW | IMOVF | ICVTBW | ICVTWB | ICVTFW | ICVTWF | ICVTCA | ICVTAC | ICVTWC
    | ICVTCW | ICVTFC | ICVTCF | IADDB | IADDW | IADDF | ISUBB | ISUBW | ISUBF | IMULB | IMULW | IMULF | IDIVB | IDIVW
    | IDIVF | IMODW | IMODB | IANDB | IANDW | IORB | IORW | IXORB | IXORW | ISHLB | ISHLW | ISHRB | ISHRW | IINSC | IINDC
    | IADDC | ILENC | ILENA | ILENL | IBEQB | IBNEB | IBLTB | IBLEB | IBGTB | IBGEB | IBEQW | IBNEW | IBLTW | IBLEW | IBGTW
    | IBGEW | IBEQF | IBNEF | IBLTF | IBLEF | IBGTF | IBGEF | IBEQC | IBNEC | IBLTC | IBLEC | IBGTC | IBGEC | ISLICEA
    | ISLICELA | ISLICEC | IINDW | IINDF | IINDB | INEGF | IMOVL | IADDL | ISUBL | IDIVL | IMODL | IMULL | IANDL | IORL
    | IXORL | ISHLL | ISHRL | IBNEL | IBLTL | IBLEL | IBGTL | IBGEL | IBEQL | ICVTLF | ICVTFL | ICVTLW | ICVTWL | ICVTLC
    | ICVTCL | IHEADL | ICONSL | INEWCL | ICASEC | IINDL | IMOVPC | ITCMP | IMNEWZ | ICVTRF | ICVTFR | ICVTWS | ICVTSW
    | ILSRW | ILSRL | IECLR | INEWZ | INEWAZ | IRAISE | ICASEL | IMULX | IDIVX | ICVTXX | IMULX0 | IDIVX0 | ICVTXX0
    | IMULX1 | IDIVX1 | ICVTXX1 | ICVTFX | ICVTXF | IEXPW | IEXPL | IEXPF | ISELF

  /** Source and destination operands; NoOperand stands for the addressing modes the compiler does not know. */
  datatype Operand = InFP(ind: Word) | InMP(ind: Word) | Imm(imm: Word) | IndFP(f: Word, s: Word) | IndMP(f: Word, s: Word) | NoOperand

  /** The middle operand. */
  datatype Middle = NoMiddle | MidImm(reg: Word) | MidFP(reg: Word) | MidMP(reg: Word)

  /** `target` is the instruction a branch goes to. */
  datatype Inst = Inst(op: Op, src: Operand, dst: Operand, mid: Middle, target: nat)

  /** Fields of the run-time structures whose offsets appear in the code. */
  datatype Slot =
    | RegS | RegD | RegMid | RegPC | RegFP | RegMP | RegM | RegSP | RegTS | RegT | RegIC | RegDT
    | FrameLR | FrameFP | FrameMR | FrameT | LinkLinks | LinkMP | LinkCompiled | LinkProg | ModlFrame | ModlPC | ModlSize
    | ListData | ListTail | ArrayLen | ArrayT | ArrayData | StringLen | StringData
    | TypeInitialize | TypeSize | TypeDestroy | HeapRef | HeapColor | RegModTimes4

  /** What is fixed before compiling: structure offsets, addresses of data and functions, and flags. */
  datatype Config = Config(off: Slot -> Word, optab: Op -> Word, types: Word -> Word, r: Word, bounds: Word, rdestroy: Word, rmcall: Word,
                           rmfram: Word, extend: Word, mutator: Word, nprop: Word, propagator: Word, bflag: bool, rune4: bool)

  /** A list of emitter calls, or None if the compiler gives up. */
  type Items = Option<seq<Item>>

  /** One list after another; it takes them all. */
  function All(parts: seq<Items>): Items {
    if parts == [] then Some([])
    else
      var rest := All(parts[1..]);
      if parts[0].None? || rest.None? then None else Some(parts[0].value + rest.value)
  }

  /** A list of at most 24 calls, whose short jumps stay within it and are short. */
  predicate Brief(items: Items) {
    items.Some? ==> |items.value| <= 24 && Inside(items.value)
  }

  predicate NoShort(items: seq<Item>) {
    forall k :: 0 <= k < |items| ==> !items[k].Short?
  }

  predicate Inside(items: seq<Item>) {
    forall k :: 0 <= k < |items| ==> items[k].Short? ==> 0 <= items[k].n <= 9 && k + 1 + items[k].n <= |items|
  }

  /** At most nine such lists. */
  predicate Modest(parts: seq<Items>) {
    |parts| <= 9 && forall i :: 0 <= i < |parts| ==> Brief(parts[i])
  }

  function I(items: seq<Item>): Items { Some(items) }

  /** A list, if there is one, with more calls after it. */
  function Then(items: Items, more: seq<Item>): Items {
    if items.None? then None else Some(items.value + more)
  }

  /** The byte (3<<6)|(r<<3)|rm. */
  function RR(r: nat, rm: nat): Byte { (192 + 8 * r + rm) % 256 }

  function Genb(n: nat): Item { Raw1(n % 256) }

  function Gen2(a: Byte, b: Byte): Item { Raw2(a, b) }

  function Access(o: Operand, mi: Byte, r: Reg): (items: Items)
    requires mi == Olea ==> r != 4 && r != 5
    ensures items.Some? ==> |items.value| <= 2 && NoShort(items.value)
  {
    var rta := if mi == Olea then r else RTA;
    match o
    case InFP(ind) => I([Mod(mi, ind, RFP, r)])
    case InMP(ind) => I([Mod(mi, ind, RMP, r)])
    case Imm(n) => I([Con(n, r)])
    case IndFP(f, s) => I([Mod(Oldw, f, RFP, rta), Mod(mi, s, rta, r)])
    case IndMP(f, s) => I([Mod(Oldw, f, RMP, rta), Mod(mi, s, rta, r)])
    case NoOperand => None
  }

  function OpWld(i: Inst, mi: Byte, r: Reg): (items: Items)
    requires mi == Olea ==> r != 4 && r != 5
    ensures items.Some? ==> |items.value| <= 2 && NoShort(items.value)
  {
    Access(i.src, mi, r)
  }

  function OpWst(i: Inst, mi: Byte, r: Reg): (items: Items)
    requires mi == Olea ==> r != 4 && r != 5
    ensures items.Some? ==> |items.value| <= 2 && NoShort(items.value)
  {
    Access(i.dst, mi, r)
  }

  function Mid(i: Inst, mi: Byte, r: Reg): (items: Items)
    requires mi == Olea ==> r != 4 && r != 5
    ensures items.Some? ==> |items.value| <= 2 && NoShort(items.value)
  {
    match i.mid
    case NoMiddle => OpWst(i, mi, r)
    case MidImm(reg) => I([Con(reg, r)])
    case MidFP(reg) => I([Mod(mi, reg, RFP, r)])
    case MidMP(reg) => I([Mod(mi, reg, RMP, r)])
  }

  datatype Flag = SRCOP | DSTOP | WRTPC | TCHECK | NEWPC | DBRAN | THREOP

  function When(b: bool, items: Items): Items { if b then items else I([]) }

  function PuntMid(g: Config, i: Inst, fl: set<Flag>): seq<Item> {
    match i.mid
    case NoMiddle =>
      if THREOP in fl then [Mod(Oldw, g.off(RegD), RTMP, RAX), Mod(Ostw, g.off(RegMid), RTMP, RAX)] else []
    case MidImm(reg) => [Literal(reg, g.off(RegMid))]
    case MidFP(reg) => [Mod(Olea, reg, RFP, RAX), Mod(Ostw, g.off(RegMid), RTMP, RAX)]
    case MidMP(reg) => [Mod(Olea, reg, RMP, RAX), Mod(Ostw, g.off(RegMid), RTMP, RAX)]
  }

  /** punt, first part: store the operands in the interpreter's registers. */
  function PuntOperands(g: Config, i: Inst, pc: nat, fl: set<Flag>): (parts: seq<Items>)
    ensures |parts| == 5 && Modest(parts)
  {
    [
      I([Con(g.r, RTMP)]),
      When(SRCOP in fl,
        if i.src.Imm? then I([Literal(i.src.imm, g.off(RegS))])
        else Then(OpWld(i, Olea, RAX), [Mod(Ostw, g.off(RegS), RTMP, RAX)])),
      When(DSTOP in fl, Then(OpWst(i, Olea, 0), [Mod(Ostw, g.off(RegD), RTMP, RAX)])),
      When(WRTPC in fl, I([Mod(Omov, g.off(RegPC), RTMP, 0), PcWord(pc + 1)])),
      When(DBRAN in fl, I([LiteralPc(i.target, g.off(RegD))]))
    ]
  }

  /** Return to the interpreter if the prog has been stopped. */
  function TrapCheck(g: Config): seq<Item> {
    [Mod(Ocmpi, g.off(RegT), RTMP, 7), Genb(0), Gen2(Ojeqb, 6)] + PopAll()
  }

  /** punt, second part: the call, and what follows it. */
  function PuntCall(g: Config, i: Inst, fl: set<Flag>): (parts: seq<Items>)
    ensures |parts| == 4 && Modest(parts)
  {
    [
      I(PuntMid(g, i, fl) + [Mod(Ostw, g.off(RegFP), RTMP, RFP), Bra(g.optab(i.op), Ocall), Con(g.r, RTMP)]),
      When(TCHECK in fl, I(TrapCheck(g))),
      I([Mod(Oldw, g.off(RegFP), RTMP, RFP), Mod(Oldw, g.off(RegMP), RTMP, RMP)]),
      When(NEWPC in fl, I([Mod(Oldw, g.off(RegPC), RTMP, RAX), Gen2(Ojmprm, RR(4, RAX))]))
    ]
  }

  /** punt: call the interpreter's function for the instruction, which is number `pc`. */
  function Punt(g: Config, i: Inst, pc: nat, fl: set<Flag>): (parts: seq<Items>)
    ensures Modest(parts)
  {
    PuntOperands(g, i, pc, fl) + PuntCall(g, i, fl)
  }

  /** Return to the interpreter. */
  function PopAll(): seq<Item> {
    [Genb(Opopl + RDI), Genb(Opopl + RSI), Genb(Opopl + RDX), Genb(Opopl + RCX), Genb(Opopl + RBX), Raw1(Oret)]
  }

  /** Instruction byte 0x83 or 0x81 with an immediate of one or four bytes. */
  function ImmItem(n: Word): Item { if Bc(n) then Genb(n) else GenW(n) }

  function ImmOp(n: Word): Byte { if Bc(n) then 0x83 else 0x81 }

  function Arith(i: Inst, op2: Byte, rm: Reg): (parts: seq<Items>)
    ensures Modest(parts)
  {
    if !i.src.Imm? then
      if !i.mid.NoMiddle? then [Mid(i, Oldw, RAX), OpWld(i, Or2(op2), 0), OpWst(i, Ostw, 0)]
      else [OpWld(i, Oldw, RAX), OpWst(i, op2, 0)]
    else if !i.mid.NoMiddle? then
      [Mid(i, Oldw, RAX), I([Gen2(ImmOp(i.src.imm), RR(rm, RAX)), ImmItem(i.src.imm)]), OpWst(i, Ostw, RAX)]
    else
      [OpWst(i, ImmOp(i.src.imm), rm), I([ImmItem(i.src.imm)])]
  }

  /** op2|2. */
  function Or2(b: Byte): Byte { if b / 2 % 2 == 1 then b else (b + 2) % 256 }

  function ArithB(i: Inst, op2: Byte): (parts: seq<Items>)
    ensures Modest(parts)
  {
    if i.src.Imm? then [None]
    else if !i.mid.NoMiddle? then [Mid(i, Oldb, RAX), OpWld(i, Or2(op2), 0), OpWst(i, Ostb, 0)]
    else [OpWld(i, Oldb, RAX), OpWst(i, op2, RAX)]
  }

  function ShiftOp(i: Inst, ld: Byte, st: Byte, op: Byte, r: Reg): (parts: seq<Items>)
    ensures Modest(parts)
  {
    [Mid(i, ld, RAX), OpWld(i, Oldw, RCX), I([Gen2(op, RR(r, RAX))]), OpWst(i, st, RAX)]
  }

  function ArithF(i: Inst, op: Reg): (parts: seq<Items>)
    ensures Modest(parts)
  {
    [OpWld(i, Omovf, 0), Mid(i, 0xdc, op), OpWst(i, Omovf, 3)]
  }

  function CmpL(r: Reg, v: Word): seq<Item> {
    [Gen2(ImmOp(v), RR(7, r)), ImmItem(v)]
  }

  function SwapBraOp(b: Byte): Byte {
    if b == Ojgel then Ojlel else if b == Ojlel then Ojgel else if b == Ojgtl then Ojltl else if b == Ojltl then Ojgtl else b
  }

  /** schedcheck: a backward branch counts down to a reschedule. */
  function SchedCheck(g: Config, i: Inst, pc: nat): seq<Item> {
    if i.target <= pc then
      [Con(g.r, RTMP), Mod(0x83, g.off(RegIC), RTMP, 5), Genb(1), Gen2(Ojgtb, 5), Branch(MacRELQ, Ocall)]
    else []
  }

  function CBra(g: Config, i: Inst, pc: nat, jmp: Byte): (parts: seq<Items>)
    ensures Modest(parts)
  {
    [I(SchedCheck(g, i, pc)), Mid(i, Oldw, RAX),
         if i.src.Imm? then I(CmpL(RAX, i.src.imm)) else OpWld(i, Ocmpw, RAX),
         I([Genb(0x0f), Branch(Dis(i.target), if i.src.Imm? then SwapBraOp(jmp) else jmp)])]
  }

  datatype Mode = ANDAND | OROR | EQAND

  function CBraL(g: Config, i: Inst, pc: nat, jmsw: Byte, jlsw: Byte, mode: Mode): (parts: seq<Items>)
    ensures Modest(parts)
  {
    var dst := Dis(i.target);
    [I(SchedCheck(g, i, pc)), OpWld(i, Olea, RTMP), Mid(i, Olea, RTA),
         I([Mod(Oldw, 4, RTA, RAX), Mod(Ocmpw, 4, RTMP, RAX)]),
         I((match mode
            case ANDAND => [Short(Ojneb, 4)]
            case OROR => [Genb(0x0f), Branch(dst, jmsw)]
            case EQAND => [Genb(0x0f), Branch(dst, jmsw), Short(Ojneb, 4)])
           + [Mod(Oldw, 0, RTA, RAX), Mod(Ocmpw, 0, RTMP, RAX), Genb(0x0f), Branch(dst, jlsw)])]
  }

  function CBraB(g: Config, i: Inst, pc: nat, jmp: Byte): (parts: seq<Items>)
    ensures Modest(parts)
  {
    if i.src.Imm? then [None]
    else [I(SchedCheck(g, i, pc)), Mid(i, Oldb, RAX), OpWld(i, Ocmpb, RAX), I([Genb(0x0f), Branch(Dis(i.target), jmp)])]
  }

  function CBraF(g: Config, i: Inst, pc: nat, jmp: Byte): (parts: seq<Items>)
    ensures Modest(parts)
  {
    [I(SchedCheck(g, i, pc)), OpWld(i, Omovf, 0), Mid(i, 0xdc, 3),
         I([Genb(0x9b), Gen2(0xdf, 0xe0), Genb(0x9e), Genb(0x0f), Branch(Dis(i.target), jmp)])]
  }

  /** The offset of link number `n`. */
  function LinkAt(n: Word, g: Config): Word { (g.off(LinkLinks) + n * g.off(ModlSize)) % M32 }

  function Plus(a: Word, b: Word): Word { (a + b) % M32 }

  /** commframe, for a constant link number. */
  function CommFrame(g: Config, i: Inst, pc: nat, reg: Word): (parts: seq<Items>)
    ensures Modest(parts)
  {
    var ld, lea, st := OpWld(i, Oldw, RAX), OpWst(i, Olea, RTA), OpWst(i, Ostw, RCX);
    if ld.None? || lea.None? || st.None? then [None]
    else
      var a := [Mod(Oldw, Plus(LinkAt(reg, g), g.off(ModlFrame)), RAX, RTA), Mod(0x83, g.off(TypeInitialize), RTA, 7), Genb(0)];
      var b := [Genb(OxchgAX + RTA)] + lea.value;
      [I(ld.value + CmpL(RAX, H) + [Short(Ojeqb, |a| + 1 + |b|)] + a + [Short(Ojneb, |b| + 2)] + b
         + [Branch(MacMFRA, Ocall), Branch(Dis(pc + 1), Ojmp), Branch(MacFRAM, Ocall)] + st.value)]
  }

  /** commcall, for a constant link number. */
  function CommCall(g: Config, i: Inst, pc: nat, reg: Word): (parts: seq<Items>)
    ensures Modest(parts)
  {
    [I([Con(g.r, RTMP)]), OpWld(i, Oldw, RCX),
         I([Mod(Omov, g.off(FrameLR), RCX, 0), PcWord(pc + 1), Mod(Ostw, g.off(FrameFP), RCX, RFP),
            Mod(Oldw, g.off(RegM), RTMP, RTA), Mod(Ostw, g.off(FrameMR), RCX, RTA)]),
         OpWst(i, Oldw, RTA),
         I(CmpL(RTA, H) + [Short(Ojeqb, 1), Mod(Oldw, Plus(LinkAt(reg, g), g.off(ModlPC)), RTA, RAX), Branch(MacMCAL, Ocall)])]
  }

  function LArith(i: Inst, op: Byte, opc: Byte): (parts: seq<Items>)
    ensures Modest(parts)
  {
    [OpWld(i, Olea, RTMP), Mid(i, Olea, RTA),
         I([Mod(Oldw, 0, RTA, RAX), Mod(op, 0, RTMP, RAX), Mod(Oldw, 4, RTA, RCX), Mod(opc, 4, RTMP, RCX)]),
         When(!i.mid.NoMiddle?, OpWst(i, Olea, RTA)),
         I([Mod(Ostw, 0, RTA, RAX), Mod(Ostw, 4, RTA, RCX)])]
  }

  /** shll and shrl: shifts by less than 32 bits take `lo`, others `hi`. */
  function ShiftL(i: Inst, lo: seq<Item>, hi: seq<Item>): (parts: seq<Items>)
    requires |lo| <= 6 && |hi| <= 6 && NoShort(lo) && NoShort(hi)
    ensures Modest(parts)
  {
    [OpWld(i, Oldw, RCX), Mid(i, Olea, RTA),
         I([Gen2(0xf6, RR(0, RCX)), Genb(0x20), Short(Ojneb, |lo| + 1)] + lo + [Short(Ojmpb, |hi|)] + hi),
         OpWst(i, Olea, RTA), I([Mod(Ostw, 0, RTA, RAX), Mod(Ostw, 4, RTA, RBX)])]
  }

  function MovM(i: Inst): (parts: seq<Items>)
    ensures Modest(parts)
  {
    [OpWst(i, Olea, RBX), Mid(i, Oldw, RCX),
         I([Genb(OxchgAX + RSI), Gen2(Oxchg, RR(RDI, RBX)), Genb(0xfc), Gen2(0xf3, 0xa4), Genb(OxchgAX + RSI), Gen2(Oxchg, RR(RDI, RBX))])]
  }

  function MovP(i: Inst): (parts: seq<Items>)
    ensures Modest(parts)
  {
    [I(CmpL(RBX, H) + [Gen2(Ojeqb, 5), Branch(MacCOLR, Ocall)]), OpWst(i, Oldw, RAX), OpWst(i, Ostw, RBX), I([Branch(MacFRP, Ocall)])]
  }

  function MulDiv(i: Inst, ld: Byte, st: Byte, op: Byte, mul: bool, mod: bool): (parts: seq<Items>)
    ensures Modest(parts)
  {
    [Mid(i, ld, RAX), OpWld(i, ld, RTMP),
         I(if mul then [Gen2(op, RR(4, RTMP))]
           else [Genb(0x99), Gen2(op, RR(7, RTMP))] + if mod then [Genb(0x90 + RDX)] else []),
         OpWst(i, st, RAX)]
  }

  function Result(i: Inst): seq<Item> {
    var (reg, r) := match i.mid case NoMiddle => (0, RMP) case MidImm(n) => (n, RMP) case MidFP(n) => (n, RFP) case MidMP(n) => (n, RMP);
    [Mod(Ostw, reg, r, RAX)]
  }

  function Bounds(g: Config): seq<Item> { [Gen2(0x72, 5), Bra(g.bounds, Ocall)] }

  function IndX(g: Config, i: Inst): (parts: seq<Items>)
    ensures Modest(parts)
  {
    [OpWld(i, Oldw, RTMP),
         if g.bflag then
           Then(OpWst(i, Oldw, RAX), [Mod(0x3b, g.off(ArrayLen), RTMP, RAX)] + Bounds(g)
                + [Mod(Oldw, g.off(ArrayT), RTMP, RTA), Mod(0xf7, g.off(TypeSize), RTA, 5)])
         else I([Mod(Oldw, g.off(ArrayT), RTMP, RAX), Mod(Oldw, g.off(TypeSize), RAX, RAX)]),
         if g.bflag then I([])
         else if i.dst.Imm? then I([Gen2(0x69, RR(RAX, 0)), GenW(i.dst.imm)]) else OpWst(i, 0xf7, 5),
         I([Mod(0x03, g.off(ArrayData), RBX, RAX)] + Result(i))]
  }

  function Index(g: Config, i: Inst, r: nat): (parts: seq<Items>)
    ensures Modest(parts)
  {
    [OpWld(i, Oldw, RAX), OpWst(i, Oldw, RTMP),
         When(g.bflag, I([Mod(0x3b, g.off(ArrayLen), RAX, RTMP)] + Bounds(g))),
         I([Mod(Oldw, g.off(ArrayData), RAX, RAX), Gen2(Olea, 4), Genb(64 * r + 8 * RTMP + RAX)] + Result(i))]
  }

  function StringByte(g: Config): seq<Item> {
    [Genb(0x0f), Gen2(0xb6, 0x44), Gen2(8 * RBX + RAX, g.off(StringData) % 256)]
  }

  function StringRune(g: Config): seq<Item> {
    if g.rune4 then [Gen2(Oldw, 0x44), Gen2(128 + 8 * RBX + RAX, g.off(StringData) % 256)]
    else [Genb(0x0f), Gen2(0xb7, 0x44), Gen2(64 + 8 * RBX + RAX, g.off(StringData) % 256)]
  }

  /** The character at the index, whether the string is of bytes or of runes; with and without bounds checks. */
  function CharChecked(g: Config): (items: seq<Item>)
    ensures |items| <= 24 && NoShort(items)
  {
    [Mod(Oldw, g.off(StringLen), RAX, RTA)] + CmpL(RTA, 0) + [Gen2(Ojltb, 16), Gen2(0x3b, RR(RBX, RTA))] + Bounds(g)
    + StringByte(g)
    + [Gen2(Ojmpb, if g.rune4 then 10 else 11), Gen2(0xf7, RR(3, RTA)), Gen2(0x3b, RR(RBX, RTA)), Gen2(0x73, 0xee)]
    + StringRune(g)
  }

  function CharUnchecked(g: Config): (items: seq<Item>)
    ensures |items| <= 24 && NoShort(items)
  {
    [Mod(Ocmpi, g.off(StringLen), RAX, 7), Genb(0), Gen2(Ojltb, 7)] + StringByte(g)
    + [Gen2(Ojmpb, if g.rune4 then 4 else 5)] + StringRune(g)
  }

  function IndC(g: Config, i: Inst): (parts: seq<Items>)
    ensures Modest(parts)
  {
    [OpWld(i, Oldw, RAX), Mid(i, Oldw, RBX), I(if g.bflag then CharChecked(g) else CharUnchecked(g)), OpWst(i, Ostw, RAX)]
  }

  /** The operand's word, whatever its addressing mode. */
  function RawImm(o: Operand): Word {
    match o
    case InFP(ind) => ind
    case InMP(ind) => ind
    case Imm(n) => n
    case IndFP(f, s) => (f + s * 65536) % M32
    case IndMP(f, s) => (f + s * 65536) % M32
    case NoOperand => 0
  }

  /** Of `comp`: the long integer instructions. */
  function CompMore(g: Config, i: Inst, pc: nat): (parts: seq<Items>)
  {
    match i.op
    case IADDL => LArith(i, 0x03, 0x13)
    case ISUBL => LArith(i, 0x2b, 0x1b)
    case IORL => LArith(i, 0x0b, 0x0b)
    case IANDL => LArith(i, 0x23, 0x23)
    case IXORL => LArith(i, 0x33, 0x33)
    case IBEQL => CBraL(g, i, pc, Ojnel, Ojeql, ANDAND)
    case IBNEL => CBraL(g, i, pc, Ojnel, Ojnel, OROR)
    case IBLEL => CBraL(g, i, pc, Ojltl, Ojbel, EQAND)
    case IBGTL => CBraL(g, i, pc, Ojgtl, Ojal, EQAND)
    case IBLTL => CBraL(g, i, pc, Ojltl, Ojbl, EQAND)
    case IBGEL => CBraL(g, i, pc, Ojgtl, Ojael, EQAND)
    case ISHLL =>
      ShiftL(i, [Mod(Oldw, 0, RTA, RAX), Mod(Oldw, 4, RTA, RBX), Genb(0x0f), Gen2(0xa5, RR(RAX, RBX)), Gen2(Oshl, RR(4, RAX))],
             [Mod(Oldw, 0, RTA, RBX), Con(0, RAX), Gen2(Oshl, RR(4, RBX))])
    case ISHRL =>
      ShiftL(i, [Mod(Oldw, 0, RTA, RAX), Mod(Oldw, 4, RTA, RBX), Genb(0x0f), Gen2(0xad, RR(RBX, RAX)), Gen2(Osar, RR(7, RBX))],
             [Mod(Oldw, 4, RTA, RBX), Gen2(Oldw, RR(RAX, RBX)), Gen2(0xc1, RR(7, RBX)), Genb(0x1f), Gen2(Osar, RR(7, RAX))])
    case _ => [None]
  }

  /** Of `comp`: division and indexing. */
  function CompDivide(g: Config, i: Inst, pc: nat): (parts: seq<Items>)
  {
    match i.op
    case IMULF => ArithF(i, 1)
    case IDIVF => ArithF(i, 7)
    case IMODW => MulDiv(i, Oldw, Ostw, 0xf7, false, true)
    case IDIVW => MulDiv(i, Oldw, Ostw, 0xf7, false, false)
    case IMULW => MulDiv(i, Oldw, Ostw, 0xf7, true, false)
    case IMODB => MulDiv(i, Oldb, Ostb, 0xf6, false, true)
    case IDIVB => MulDiv(i, Oldb, Ostb, 0xf6, false, false)
    case IMULB => MulDiv(i, Oldb, Ostb, 0xf6, true, false)
    case IINDX => IndX(g, i)
    case IINDB => Index(g, i, 0)
    case IINDF | IINDL => Index(g, i, 3)
    case IINDW => Index(g, i, 2)
    case IINDC => IndC(g, i)
    case ICASE => [OpWld(i, Oldw, RAX), I([Genb(Opushl + RSI)]), OpWst(i, Olea, RSI), I([Branch(MacCASE, Ojmp)])]
    case IMOVL =>
      [OpWld(i, Olea, RTA), OpWst(i, Olea, RTMP),
           I([Mod(Oldw, 0, RTA, RAX), Mod(Ostw, 0, RTMP, RAX), Mod(Oldw, 4, RTA, RAX), Mod(Ostw, 4, RTMP, RAX)])]
    case _ => CompMore(g, i, pc)
  }

  /** Of `comp`: moves, calls and jumps. */
  function CompIndex(g: Config, i: Inst, pc: nat): (parts: seq<Items>)
  {
    match i.op
    case IMOVF => [OpWld(i, Omovf, 0), OpWst(i, Omovf, 3)]
    case INEGF => [OpWld(i, Omovf, 0), I([Genb(0xd9), Genb(0xe0)]), OpWst(i, Omovf, 3)]
    case IMOVB => [OpWld(i, Oldb, RAX), OpWst(i, Ostb, RAX)]
    case IMOVW | ICVTLW =>
      if i.src.Imm? then [OpWst(i, Omov, RAX), I([GenW(i.src.imm)])]
      else [OpWld(i, Oldw, RAX), OpWst(i, Ostw, RAX)]
    case ICVTWL =>
      [OpWst(i, Olea, RTMP), OpWld(i, Oldw, RAX), I([Mod(Ostw, 0, RTMP, RAX), Genb(0x99), Mod(Ostw, 4, RTMP, RDX)])]
    case ICALL =>
      [When(!i.dst.Imm?, OpWst(i, Oldw, RTA)), OpWld(i, Oldw, RAX),
           I([Mod(Omov, g.off(FrameLR), RAX, 0), PcWord(pc + 1), Mod(Ostw, g.off(FrameFP), RAX, RFP), Gen2(Oldw, RR(RFP, RAX))]),
           if !i.dst.Imm? then I([Gen2(Ojmprm, RR(4, RTA))]) else I(SchedCheck(g, i, pc) + [Branch(Dis(i.target), Ojmp)])]
    case IJMP => [I(SchedCheck(g, i, pc) + [Branch(Dis(i.target), Ojmp)])]
    case IMOVPC => [OpWst(i, Omov, RAX), I([PcWord(RawImm(i.src))])]
    case IGOTO => [OpWst(i, Olea, RBX), OpWld(i, Oldw, RAX), I([Gen2(Ojmprm, 0x24), Genb(128 + 8 * RAX + RBX)])]
    case _ => CompDivide(g, i, pc)
  }

  /** Of `comp`: branches and arithmetic. */
  function CompArith(g: Config, i: Inst, pc: nat): (parts: seq<Items>)
  {
    match i.op
    case IBEQF => CBraF(g, i, pc, Ojeql)
    case IBNEF => CBraF(g, i, pc, Ojnel)
    case IBLEF => CBraF(g, i, pc, Ojlsl)
    case IBLTF => CBraF(g, i, pc, Ojcsl)
    case IBGEF => CBraF(g, i, pc, Ojccl)
    case IBGTF => CBraF(g, i, pc, Ojhil)
    case IBEQW => CBra(g, i, pc, Ojeql)
    case IBLEW => CBra(g, i, pc, Ojlel)
    case IBNEW => CBra(g, i, pc, Ojnel)
    case IBGTW => CBra(g, i, pc, Ojgtl)
    case IBLTW => CBra(g, i, pc, Ojltl)
    case IBGEW => CBra(g, i, pc, Ojgel)
    case IBEQB => CBraB(g, i, pc, Ojeql)
    case IBLEB => CBraB(g, i, pc, Ojlsl)
    case IBNEB => CBraB(g, i, pc, Ojnel)
    case IBGTB => CBraB(g, i, pc, Ojhil)
    case IBLTB => CBraB(g, i, pc, Ojbl)
    case IBGEB => CBraB(g, i, pc, Ojael)
    case ISUBW => Arith(i, 0x29, 5)
    case ISUBB => ArithB(i, 0x28)
    case ISUBF => ArithF(i, 5)
    case IADDW => Arith(i, 0x01, 0)
    case IADDB => ArithB(i, 0x00)
    case IADDF => ArithF(i, 0)
    case IORW => Arith(i, 0x09, 1)
    case IORB => ArithB(i, 0x08)
    case IANDW => Arith(i, 0x21, 4)
    case IANDB => ArithB(i, 0x20)
    case IXORW => Arith(i, Oxor, 6)
    case IXORB => ArithB(i, 0x30)
    case ISHLW => ShiftOp(i, Oldw, Ostw, 0xd3, 4)
    case ISHLB => ShiftOp(i, Oldb, Ostb, 0xd2, 4)
    case ISHRW => ShiftOp(i, Oldw, Ostw, 0xd3, 7)
    case ISHRB => ShiftOp(i, Oldb, Ostb, 0xd2, 5)
    case _ => CompIndex(g, i, pc)
  }

  function ArrayLength(g: Config): seq<Item> {
    [Con(0, RAX)] + CmpL(RBX, H) + [Gen2(Ojeqb, 2), Mod(Oldw, g.off(ArrayLen), RBX, RAX)]
  }

  function StringLength(g: Config): seq<Item> {
    [Con(0, RAX)] + CmpL(RBX, H) + [Gen2(Ojeqb, 9), Mod(Oldw, g.off(StringLen), RBX, RAX)] + CmpL(RAX, 0)
    + [Gen2(Ojgeb, 2), Gen2(0xf7, RR(3, RAX))]
  }

  function ListLength(g: Config): seq<Item> {
    CmpL(RBX, H) + [Gen2(Ojeqb, 5), Mod(Oldw, g.off(ListTail), RBX, RBX), Genb(0x40 + RAX), Gen2(Ojmpb, 0xf6)]
  }

  /** Of `comp`: heads, tails and lengths. */
  function CompHead(g: Config, i: Inst, pc: nat): (parts: seq<Items>)
  {
    match i.op
    case IHEADW => [OpWld(i, Oldw, RAX), I([Mod(Oldw, g.off(ListData), RAX, RAX)]), OpWst(i, Ostw, RAX)]
    case IHEADF => [OpWld(i, Oldw, RAX), I([Mod(Omovf, g.off(ListData), RAX, 0)]), OpWst(i, Omovf, 3)]
    case IHEADB => [OpWld(i, Oldw, RAX), I([Mod(Oldb, g.off(ListData), RAX, RAX)]), OpWst(i, Ostb, RAX)]
    case ITAIL => [OpWld(i, Oldw, RAX), I([Mod(Oldw, g.off(ListTail), RAX, RBX)])] + MovP(i)
    case IMOVP => [OpWld(i, Oldw, RBX)] + MovP(i)
    case IHEADP => [OpWld(i, Oldw, RBX), I([Mod(Oldw, g.off(ListData), RBX, RBX)])] + MovP(i)
    case ILENA => [OpWld(i, Oldw, RBX), I(ArrayLength(g)), OpWst(i, Ostw, RAX)]
    case ILENC => [OpWld(i, Oldw, RBX), I(StringLength(g)), OpWst(i, Ostw, RAX)]
    case ILENL => [I([Con(0, RAX)]), OpWld(i, Oldw, RBX), I(ListLength(g)), OpWst(i, Ostw, RAX)]
    case _ => CompArith(g, i, pc)
  }

  /** Of `comp`: conversions and memory moves. */
  function CompMove(g: Config, i: Inst, pc: nat): (parts: seq<Items>)
  {
    match i.op
    case ICVTBW => [OpWld(i, Oldb, RAX), I([Genb(0x0f), Gen2(0xb6, RR(RAX, RAX))]), OpWst(i, Ostw, RAX)]
    case ICVTWB => [OpWld(i, Oldw, RAX), OpWst(i, Ostb, RAX)]
    case IHEADM => [OpWld(i, Oldw, RAX), I([Mod(Olea, g.off(ListData), RAX, RAX)])] + MovM(i)
    case IMOVM => [OpWld(i, Olea, RAX)] + MovM(i)
    case IRET => [I([Branch(MacRET, Ojmp)])]
    case IFRAME =>
      if !i.src.Imm? then Punt(g, i, pc, {SRCOP, DSTOP})
      else [I([Con(g.types(i.src.imm), RTA), Branch(MacFRAM, Ocall)]), OpWst(i, Ostw, RCX)]
    case ILEA =>
      [if i.src.Imm? then I([Gen2(Ojmpb, 4), GenW(i.src.imm), ConHere(RAX)]) else OpWld(i, Olea, RAX), OpWst(i, Ostw, RAX)]
    case _ => CompHead(g, i, pc)
  }

  /** The calls `comp` makes for instruction number `pc`, part by part.  (Case tables are relocated elsewhere.) */
  function CompParts(g: Config, i: Inst, pc: nat): (parts: seq<Items>)
  {
    match i.op
    case INOP | IRUNT | ITCMP | IECLR => [None]
    case IMCALL => if i.mid.MidImm? then CommCall(g, i, pc, i.mid.reg) else Punt(g, i, pc, {SRCOP, DSTOP, THREOP, WRTPC, NEWPC})
    case ISEND | IRECV | IALT => Punt(g, i, pc, {SRCOP, DSTOP, TCHECK, WRTPC})
    case ISPAWN => Punt(g, i, pc, {SRCOP, DBRAN})
    case IBNEC | IBEQC | IBLTC | IBLEC | IBGTC | IBGEC => Punt(g, i, pc, {SRCOP, DBRAN, NEWPC, WRTPC})
    case ICASEC | ICASEL => Punt(g, i, pc, {SRCOP, DSTOP, NEWPC})
    case IADDC | IMULL | IDIVL | IMODL | IMNEWZ | ILSRW | ILSRL | INEWCM | INEWCMP => Punt(g, i, pc, {SRCOP, DSTOP, THREOP})
    case ILOAD | INEWA | INEWAZ | INEW | INEWZ | ISLICEA | ISLICELA | ICONSB | ICONSW | ICONSL | ICONSF | ICONSM | ICONSMP | ICONSP
       | IMOVMP | IHEADMP | IHEADL | IINSC | ICVTAC | ICVTCW | ICVTWC | ICVTLC | ICVTCL | ICVTFC | ICVTCF | ICVTRF | ICVTFR
       | ICVTWS | ICVTSW | IMSPAWN | ICVTCA | ISLICEC | INBALT | ICVTFW | ICVTWF | ICVTLF | ICVTFL => Punt(g, i, pc, {SRCOP, DSTOP})
    case IMFRAME => if i.mid.MidImm? then CommFrame(g, i, pc, i.mid.reg) else Punt(g, i, pc, {SRCOP, DSTOP, THREOP})
    case INEWCB | INEWCW | INEWCF | INEWCP | INEWCL => Punt(g, i, pc, {DSTOP, THREOP})
    case IEXIT => Punt(g, i, pc, {})
    case IRAISE => Punt(g, i, pc, {SRCOP, WRTPC, NEWPC})
    case IMULX | IDIVX | ICVTXX | IMULX0 | IDIVX0 | ICVTXX0 | IMULX1 | IDIVX1 | ICVTXX1 | ICVTFX | ICVTXF | IEXPW | IEXPL | IEXPF =>
      Punt(g, i, pc, {SRCOP, DSTOP, THREOP})
    case ISELF => Punt(g, i, pc, {DSTOP})
    case _ => CompMove(g, i, pc)
  }

  /** All the calls for an instruction, or None if it cannot be compiled. */
  function Comp(g: Config, i: Inst, pc: nat): Items {
    All(CompParts(g, i, pc))
  }

  // ----- macros

  function MacFrp(g: Config): seq<Item> {
    CmpL(RAX, H) + [Gen2(Ojneb, 1), Raw1(Oret), Mod(0x83, g.off(HeapRef), RAX, 7), Genb(1), Gen2(Ojeqb, 4),
                    Mod(Odecrm, g.off(HeapRef), RAX, 1), Raw1(Oret), Con(g.r, RTMP), Mod(Ostw, g.off(RegFP), RTMP, RFP),
                    Mod(Ostw, g.off(RegS), RTMP, RAX), Bra(g.rdestroy, Ocall), Con(g.r, RTMP), Mod(Oldw, g.off(RegFP), RTMP, RFP),
                    Mod(Oldw, g.off(RegMP), RTMP, RMP), Raw1(Oret)]
  }

  /** The parts of macret between its labels. */
  function RetRelease(g: Config): seq<Item> {
    [Con(g.r, RTMP), Mod(Oldw, g.off(RegM), RTMP, RTA), Mod(Odecrm, g.off(HeapRef), RTA, 1)]
  }

  function RetModule(g: Config): seq<Item> {
    [Mod(Oldw, g.off(FrameMR), RFP, RTA), Mod(Ostw, g.off(RegM), RTMP, RTA), Mod(Oldw, g.off(LinkMP), RTA, RMP),
     Mod(Ostw, g.off(RegMP), RTMP, RMP), Mod(Ocmpi, g.off(LinkCompiled), RTA, 7), Genb(0)]
  }

  function RetCompiled(g: Config): seq<Item> {
    [Gen2(Ocallrm, RR(2, RAX)), Con(g.r, RTMP), Mod(Ostw, g.off(RegSP), RTMP, RFP), Mod(Oldw, g.off(FrameLR), RFP, RAX),
     Mod(Oldw, g.off(FrameFP), RFP, RFP), Mod(Ostw, g.off(RegFP), RTMP, RFP), Gen2(Ojmprm, RR(4, RAX))]
  }

  function RetInterp(g: Config): seq<Item> {
    [Gen2(Ocallrm, RR(2, RAX)), Con(g.r, RTMP), Mod(Ostw, g.off(RegSP), RTMP, RFP), Mod(Oldw, g.off(FrameLR), RFP, RAX),
     Mod(Ostw, g.off(RegPC), RTMP, RAX), Mod(Oldw, g.off(FrameFP), RFP, RFP), Mod(Ostw, g.off(RegFP), RTMP, RFP)] + PopAll()
  }

  function RetPunt(g: Config): seq<Item> {
    [Con(g.r, RTMP), Mod(Ostw, g.off(RegFP), RTMP, RFP), Bra(g.optab(IRET), Ocall), Con(g.r, RTMP)] + TrapCheck(g)
    + [Mod(Oldw, g.off(RegFP), RTMP, RFP), Mod(Oldw, g.off(RegMP), RTMP, RMP), Mod(Oldw, g.off(RegPC), RTMP, RAX), Gen2(Ojmprm, RR(4, RAX))]
  }

  /** The number of calls from label lfrmr to label lpunt. */
  function RetTail(g: Config): nat {
    |RetModule(g)| + 1 + |RetCompiled(g)| + |RetInterp(g)|
  }

  /** The tests of macret: three go to lpunt, the last to lnomr. */
  function RetHead(g: Config): seq<Item> {
    var n := |RetRelease(g)| + 3 + RetTail(g);
    [Mod(Oldw, g.off(TypeDestroy), RAX, RAX), Gen2(Ocmpw, RR(RAX, RBX)), Short(Ojeqb, 4 + n),
     Mod(Ocmpw, g.off(FrameFP), RFP, RBX), Short(Ojeqb, 2 + n),
     Mod(Ocmpw, g.off(FrameMR), RFP, RBX), Short(Ojeqb, |RetRelease(g)| + 3 + |RetModule(g)| + 1)]
  }

  function RetMiddle(g: Config): seq<Item> {
    [Short(Ojneb, 2), Mod(Oincrm, g.off(HeapRef), RTA, 0), Short(Ojmpb, RetTail(g))]
  }

  /** From the first short jump to label lpunt. */
  function RetBetween(g: Config): seq<Item> {
    RetHead(g) + RetRelease(g) + RetMiddle(g) + RetModule(g) + [Short(Ojeqb, |RetCompiled(g)|)] + RetCompiled(g) + RetInterp(g)
  }

  /** macret: its short jumps go to the labels lpunt, lnomr, lfrmr and linterp. */
  function MacRet(g: Config): seq<Item> {
    [Con(0, RBX), Mod(Oldw, g.off(FrameT), RFP, RAX), Gen2(Ocmpw, RR(RAX, RBX)), Short(Ojeqb, |RetBetween(g)|)]
    + RetBetween(g) + RetPunt(g)
  }

  function MacCase(): seq<Item> {
    [Mod(Oldw, 0, RSI, RDX), Mod(Olea, 4, RSI, RSI), Gen2(Oldw, RR(RBX, RDX)), Gen2(Oshr, RR(4, RBX)), Gen2(0x01, RR(RDX, RBX)),
     Gen2(0xff, 0x34), Genb(128 + 8 * RBX + RSI)]
    // loop:
    + CmpL(RDX, 0)
    + [Short(Ojleb, 23), Gen2(Oldw, RR(RCX, RDX)), Gen2(Oshr, RR(5, RCX)), Gen2(Oldw, RR(RBX, RCX)), Gen2(Oshr, RR(4, RBX)),
       Gen2(0x01, RR(RCX, RBX)), Gen2(0x3b, 4), Genb(128 + 8 * RBX + RSI), Short(Ojgeb, 2), Gen2(Oldw, RR(RDX, RCX)), Short(Ojmpb, -13),
       Gen2(0x3b, 0x44), Gen2(128 + 8 * RBX + RSI, 4), Short(Ojltb, 5), Gen2(Olea, 64 + 8 * RSI + 4), Gen2(128 + 8 * RBX + RSI, 12),
       Gen2(0x2b, RR(RDX, RCX)), Gen2(0xff, RR(1, RDX)), Short(Ojmpb, -21)]
    + [Gen2(Oldw, 0x44), Gen2(128 + 8 * RBX + RSI, 8), Genb(Opopl + RSI), Genb(Opopl + RSI), Gen2(Ojmprm, RR(4, RAX)),
       Genb(Opopl + RAX), Genb(Opopl + RSI), Gen2(Ojmprm, RR(4, RAX))]
  }

  function MacColr(g: Config): seq<Item> {
    [Mod(Oincrm, g.off(HeapRef), RBX, 0), Gen2(Oldw, 5), GenW(g.mutator), Mod(Ocmpw, g.off(HeapColor), RBX, RAX), Gen2(Ojneb, 1), Raw1(Oret),
     Con(g.propagator, RAX), Mod(Ostw, g.off(HeapColor), RBX, RAX), Gen2(Ostw, 5), GenW(g.nprop), Raw1(Oret)]
  }

  function MacMcal(g: Config): seq<Item> {
    CmpL(RAX, H)
    + [Short(Ojeqb, 3), Mod(0x83, g.off(LinkProg), RTA, 7), Genb(0), Short(Ojneb, 7),
       Mod(Ostw, g.off(RegFP), RTMP, RCX), Mod(Ostw, g.off(RegDT), RTMP, RAX), Bra(g.rmcall, Ocall), Con(g.r, RTMP),
       Mod(Oldw, g.off(RegFP), RTMP, RFP), Mod(Oldw, g.off(RegMP), RTMP, RMP), Raw1(Oret),
       Gen2(Oldw, RR(RFP, RCX)), Mod(Ostw, g.off(RegM), RTMP, RTA), Mod(Oincrm, g.off(HeapRef), RTA, 0), Mod(Oldw, g.off(LinkMP), RTA, RMP),
       Mod(Ostw, g.off(RegMP), RTMP, RMP), Mod(Ocmpi, g.off(LinkCompiled), RTA, 7), Genb(0), Genb(Opopl + RTA), Short(Ojeqb, 1),
       Gen2(Ojmprm, RR(4, RAX)), Mod(Ostw, g.off(RegFP), RTMP, RFP), Mod(Ostw, g.off(RegPC), RTMP, RAX)] + PopAll()
  }

  function MacFram(g: Config): seq<Item> {
    [Con(g.r, RTMP), Mod(Oldw, g.off(RegSP), RTMP, RAX), Mod(0x03, g.off(TypeSize), RTA, RAX), Mod(0x3b, g.off(RegTS), RTMP, RAX),
     Short(Ojltb, 8), Mod(Ostw, g.off(RegS), RTMP, RTA), Mod(Ostw, g.off(RegFP), RTMP, RFP), Bra(g.extend, Ocall), Con(g.r, RTMP),
     Mod(Oldw, g.off(RegFP), RTMP, RFP), Mod(Oldw, g.off(RegMP), RTMP, RMP), Mod(Oldw, g.off(RegS), RTMP, RCX), Raw1(Oret),
     Mod(Oldw, g.off(RegSP), RTMP, RCX), Mod(Ostw, g.off(RegSP), RTMP, RAX), Mod(Ostw, g.off(FrameT), RCX, RTA),
     Mod(Omov, g.off(RegModTimes4), RCX, 0), GenW(0), Mod(Oldw, g.off(TypeInitialize), RTA, RTA), Gen2(Ojmprm, RR(4, RTA)), Raw1(Oret)]
  }

  function MacMfra(g: Config): seq<Item> {
    [Con(g.r, RTMP), Mod(Ostw, g.off(RegFP), RTMP, RFP), Mod(Ostw, g.off(RegS), RTMP, RAX), Mod(Ostw, g.off(RegD), RTMP, RTA),
     Bra(g.rmfram, Ocall), Con(g.r, RTMP), Mod(Oldw, g.off(RegFP), RTMP, RFP), Mod(Oldw, g.off(RegMP), RTMP, RMP), Raw1(Oret)]
  }

  function MacRelq(g: Config): seq<Item> {
    [Mod(Ostw, g.off(RegFP), RTMP, RFP), Genb(Opopl + RAX), Mod(Ostw, g.off(RegPC), RTMP, RAX)] + PopAll()
  }

  /** mactab. */
  function Macros(g: Config): (ms: seq<seq<Item>>)
    ensures |ms| == NMACRO
  {
    [MacFrp(g), MacRet(g), MacCase(), MacColr(g), MacMcal(g), MacFram(g), MacMfra(g), MacRelq(g)]
  }
}
