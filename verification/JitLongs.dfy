/** Two-word integers: what the code for them does, run on the processor. */
module JitLongs {
  import opened Wrappers
  import opened Words
  import opened Jit
  import opened JitLayout
  import opened JitCompile
  import opened JitRun
  import opened JitTargets
  import opened JitMeaning
  import Processor

  /** The address of the high word. */
  function Up(a: Word): Word { (a + 4) % M32 }

  /** There are two words at the operand. */
  predicate LongAt(o: Operand, s: Cpu) {
    Where(o, s).Some? && Where(o, s).value in s.data && Up(Where(o, s).value) in s.data
  }

  function Low(o: Operand, s: Cpu): Word
    requires LongAt(o, s)
  {
    s.data[Where(o, s).value]
  }

  function High(o: Operand, s: Cpu): Word
    requires LongAt(o, s)
  {
    s.data[Up(Where(o, s).value)]
  }

  /** The number they stand for, without and with a sign. */
  function Unsigned(lo: Word, hi: Word): int { M32 * hi + lo }

  function Signed(lo: Word, hi: Word): int { M32 * Wrap32(hi) + lo }

  const M64 := M32 * M32

  function LowOf(x: int): Word { x % M32 }

  function HighOf(x: int): Word { x / M32 % M32 }

  /** The number `x`, modulo 2^64, put at the operand. */
  function PutLong(o: Operand, s: Cpu, lo: Word, hi: Word): map<Word, Word>
    requires Where(o, s).Some?
  {
    s.data[Where(o, s).value := lo][Up(Where(o, s).value) := hi]
  }

  // ----- arithmetic

  /** The two operations, on the low and on the high words. */
  function LongOp(op: Op): Option<(Byte, Byte)> {
    match op
    case IADDL => Some((0x03, 0x13))
    case ISUBL => Some((0x2b, 0x1b))
    case IORL => Some((0x0b, 0x0b))
    case IANDL => Some((0x23, 0x23))
    case IXORL => Some((0x33, 0x33))
    case _ => None
  }

  /** The meaning of these instructions: sums and differences modulo 2^64, the others bit by bit. */
  predicate LongResult(op: Op, xl: Word, xh: Word, yl: Word, yh: Word, lo: Word, hi: Word) {
    match op
    case IADDL => Unsigned(lo, hi) == (Unsigned(xl, xh) + Unsigned(yl, yh)) % M64
    case ISUBL => Unsigned(lo, hi) == (Unsigned(xl, xh) - Unsigned(yl, yh)) % M64
    case IORL => lo == Or(xl, yl) && hi == Or(xh, yh)
    case IANDL => lo == And(xl, yl) && hi == And(xh, yh)
    case IXORL => lo == Xor(xl, yl) && hi == Xor(xh, yh)
    case _ => false
  }

  lemma Modulo(r: int, d: int)
    requires 0 <= r < M64 && (d == -1 || d == 0 || d == 1)
    ensures (r + M64 * d) % M64 == r
  {
  }

  lemma SumCarries(xl: Word, xh: Word, yl: Word, yh: Word)
    ensures var lo, c := (xl + yl) % M32, if xl + yl >= M32 then 1 else 0;
      Unsigned(lo, (xh + yh + c) % M32) == (Unsigned(xl, xh) + Unsigned(yl, yh)) % M64
  {
    var c := if xl + yl >= M32 then 1 else 0;
    var d := if xh + yh + c >= M32 then 1 else 0;
    var lo, hi := xl + yl - M32 * c, xh + yh + c - M32 * d;
    assert lo == (xl + yl) % M32 && hi == (xh + yh + c) % M32;
    assert Unsigned(xl, xh) + Unsigned(yl, yh) == Unsigned(lo, hi) + M64 * d;
    Modulo(Unsigned(lo, hi), d);
  }

  lemma DifferenceBorrows(xl: Word, xh: Word, yl: Word, yh: Word)
    ensures var lo, c := (xl - yl) % M32, if xl < yl then 1 else 0;
      Unsigned(lo, (xh - yh - c) % M32) == (Unsigned(xl, xh) - Unsigned(yl, yh)) % M64
  {
    var c := if xl < yl then 1 else 0;
    var d := if xh < yh + c then 1 else 0;
    var lo, hi := xl - yl + M32 * c, xh - yh - c + M32 * d;
    assert lo == (xl - yl) % M32 && hi == (xh - yh - c) % M32;
    assert Unsigned(xl, xh) - Unsigned(yl, yh) == Unsigned(lo, hi) + M64 * (0 - d);
    Modulo(Unsigned(lo, hi), 0 - d);
  }

  /** What the two operations give, the second with the carry of the first. */
  lemma TwoSteps(op: Op, xl: Word, xh: Word, yl: Word, yh: Word, f: Processor.Flags)
    requires LongOp(op).Some?
    ensures var (op1, op2) := LongOp(op).value;
      var r1 := Processor.Calculated(op1 / 8, xl, yl, f);
      && r1.Some?
      && var r2 := Processor.Calculated(op2 / 8, xh, yh, r1.value.1);
         r2.Some? && LongResult(op, xl, xh, yl, yh, r1.value.0, r2.value.0)
  {
    hide Or;
    hide And;
    hide Xor;
    if op.IADDL? {
      SumCarries(xl, xh, yl, yh);
    } else if op.ISUBL? {
      DifferenceBorrows(xl, xh, yl, yh);
    }
  }

  /** A word at a register and a displacement. */
  function MemAt(rm: Base, disp: Word): Processor.Operand { Processor.Operand.At(rm, None, disp) }

  /** One call of modrm executed. */
  lemma RunMod(b: Build, m: Memory, i: nat, k: nat, inst: Byte, disp: Word, rm: Base, r: Jit.Reg, s0: Cpu, s1: Cpu) returns (s: Cpu)
    requires InMemory(b, m) && i < |b.chunks| && k < |b.chunks[i]| && b.chunks[i][k] == Mod(inst, disp, rm, r) && Binary(inst)
    requires Processor.Runs(m, s0, s1) && s1.pc == Here(b, i, k)
    requires Processor.Do(s1, BinaryIs(inst, MemAt(rm, disp), r), Here(b, i, k + 1) % M32).Some?
    ensures Processor.Runs(m, s0, s) && s == Processor.Do(s1, BinaryIs(inst, MemAt(rm, disp), r), Here(b, i, k + 1) % M32).value
  {
    hide *;
    ModIsAt(b, m, i, k, inst, disp, rm, r);
    MemIs(rm, disp);
    s := Run(b, m, i, k, 1, BinaryIs(inst, MemAt(rm, disp), r), s0, s1);
  }

  lemma MemIs(rm: Base, disp: Word)
    ensures MemAt(rm, disp) == Processor.Operand.At(rm, None, disp)
  {
  }

  /** The calls between the addresses and the stores. */
  function CoreCalls(op1: Byte, op2: Byte): seq<Item> {
    [Mod(Oldw, 0, RTA, RAX), Mod(op1, 0, RTMP, RAX), Mod(Oldw, 4, RTA, RCX), Mod(op2, 4, RTMP, RCX)]
  }

  /** A register is loaded from DX and combined with what is at BX, both at a displacement. */
  lemma RunHalf(b: Build, m: Memory, i: nat, k: nat, op: Byte, disp: Word, r: Jit.Reg, s0: Cpu, s1: Cpu) returns (s: Cpu)
    requires InMemory(b, m) && i < |b.chunks| && k + 2 < |b.chunks[i]| && (r == RAX || r == RCX) && op < 0x40 && op % 8 == 3 && op != 0x3b
    requires b.chunks[i][k] == Mod(Oldw, disp, RTA, r) && b.chunks[i][k + 1] == Mod(op, disp, RTMP, r)
    requires Processor.Runs(m, s0, s1) && s1.pc == Here(b, i, k)
    requires (s1.r.dx + disp) % M32 in s1.data && (s1.r.bx + disp) % M32 in s1.data
    requires Processor.Calculated(op / 8, s1.data[(s1.r.dx + disp) % M32], s1.data[(s1.r.bx + disp) % M32], s1.flags).Some?
    ensures Processor.Runs(m, s0, s) && s.pc == Here(b, i, k + 2)
    ensures var v := Processor.Calculated(op / 8, s1.data[(s1.r.dx + disp) % M32], s1.data[(s1.r.bx + disp) % M32], s1.flags).value;
      s == s1.(pc := s.pc, flags := v.1, r := Processor.Put(s1.r, r, v.0))
  {
    hide InMemory;
    hide Here;
    hide Processor.Runs;
    hide Processor.Calculated;
    HereSmall(b, m, i, k + 1);
    HereSmall(b, m, i, k + 2);
    s := RunMod(b, m, i, k, Oldw, disp, RTA, r, s0, s1);
    s := RunMod(b, m, i, k + 1, op, disp, RTMP, r, s0, s);
  }

  /** The operation itself: the middle operand is at DX, the source at BX; the result goes to AX and CX. */
  lemma RunCore(b: Build, m: Memory, i: nat, k: nat, op: Op, s0: Cpu, s1: Cpu) returns (s: Cpu)
    requires InMemory(b, m) && i < |b.chunks| && LongOp(op).Some?
    requires From(b.chunks[i], k, CoreCalls(LongOp(op).value.0, LongOp(op).value.1)) && k + 4 < |b.chunks[i]|
    requires Processor.Runs(m, s0, s1) && s1.pc == Here(b, i, k)
    requires s1.r.dx in s1.data && Up(s1.r.dx) in s1.data && s1.r.bx in s1.data && Up(s1.r.bx) in s1.data
    ensures Processor.Runs(m, s0, s) && s.pc == Here(b, i, k + 4)
    ensures s == s1.(pc := s.pc, flags := s.flags, r := s1.r.(ax := s.r.ax, cx := s.r.cx))
    ensures LongResult(op, s1.data[s1.r.dx], s1.data[Up(s1.r.dx)], s1.data[s1.r.bx], s1.data[Up(s1.r.bx)], s.r.ax, s.r.cx)
  {
    hide InMemory;
    hide Here;
    hide LongResult;
    hide Processor.Runs;
    hide Processor.Calculated;
    var (op1, op2) := LongOp(op).value;
    FromAt(b.chunks[i], k, CoreCalls(op1, op2), 0);
    FromAt(b.chunks[i], k, CoreCalls(op1, op2), 1);
    FromAt(b.chunks[i], k, CoreCalls(op1, op2), 2);
    FromAt(b.chunks[i], k, CoreCalls(op1, op2), 3);
    hide From;
    TwoSteps(op, s1.data[s1.r.dx], s1.data[Up(s1.r.dx)], s1.data[s1.r.bx], s1.data[Up(s1.r.bx)], s1.flags);
    s := RunHalf(b, m, i, k, op1, 0, RAX, s0, s1);
    s := RunHalf(b, m, i, k + 2, op2, 4, RCX, s0, s);
  }

  function StoreCalls(): seq<Item> { [Mod(Ostw, 0, RTA, RAX), Mod(Ostw, 4, RTA, RCX)] }

  /** The result is stored at DX. */
  lemma RunStores(b: Build, m: Memory, i: nat, k: nat, s0: Cpu, s1: Cpu) returns (s: Cpu)
    requires InMemory(b, m) && i < |b.chunks| && From(b.chunks[i], k, StoreCalls())
    requires Processor.Runs(m, s0, s1) && s1.pc == Here(b, i, k) && s1.r.dx in s1.data && Up(s1.r.dx) in s1.data
    ensures Processor.Runs(m, s0, s)
    ensures s == s1.(pc := Here(b, i, k + 2) % M32, data := s1.data[s1.r.dx := s1.r.ax][Up(s1.r.dx) := s1.r.cx])
  {
    hide InMemory;
    hide Here;
    hide Processor.Runs;
    FromAt(b.chunks[i], k, StoreCalls(), 0);
    FromAt(b.chunks[i], k, StoreCalls(), 1);
    hide From;
    HereSmall(b, m, i, k + 1);
    s := RunMod(b, m, i, k, Ostw, 0, RTA, RAX, s0, s1);
    s := RunMod(b, m, i, k + 1, Ostw, 4, RTA, RCX, s0, s);
  }

  lemma LongParts(g: Config, i: Inst, pc: nat)
    requires LongOp(i.op).Some?
    ensures CompParts(g, i, pc) ==
      [Access(i.src, Olea, RTMP), Access(MidOf(i), Olea, RTA), Some(CoreCalls(LongOp(i.op).value.0, LongOp(i.op).value.1)),
       if i.mid.NoMiddle? then Some([]) else Access(i.dst, Olea, RTA), Some(StoreCalls())]
  {
    hide CompParts;
    hide CompMove;
    hide CompHead;
    hide CompArith;
    hide CompIndex;
    hide CompDivide;
    hide Access;
    PartsRest(g, i, pc);
    MoveRest(g, i, pc);
    HeadRest(g, i, pc);
    ArithRest(g, i, pc);
    IndexRest(g, i, pc);
    DivideRest(g, i, pc);
    MidIs(i, Olea, RTA);
    hide Mid;
  }

  lemma FiveParts(items: seq<Item>, a: Items, b: Items, c: Items, d: Items, e: Items)
    requires All([a, b, c, d, e]) == Some(items)
    ensures a.Some? && b.Some? && c.Some? && d.Some? && e.Some? && From(items, 0, a.value) && From(items, |a.value|, b.value)
    ensures From(items, |a.value| + |b.value|, c.value) && From(items, |a.value| + |b.value| + |c.value|, d.value)
    ensures From(items, |a.value| + |b.value| + |c.value| + |d.value|, e.value)
    ensures |items| == |a.value| + |b.value| + |c.value| + |d.value| + |e.value|
  {
    var parts := [a, b, c, d, e];
    AllSome(parts);
    assert parts[0].Some? && parts[1].Some? && parts[2].Some? && parts[3].Some? && parts[4].Some?;
    assert parts[1..] == [b, c, d, e];
    var rest := All([b, c, d, e]).value;
    FourParts(rest, b, c, d, e);
    assert items == a.value + rest;
    Shifted(items, a.value, rest, 0, b.value);
    Shifted(items, a.value, rest, |b.value|, c.value);
    Shifted(items, a.value, rest, |b.value| + |c.value|, d.value);
    Shifted(items, a.value, rest, |b.value| + |c.value| + |d.value|, e.value);
  }

  lemma Shifted(items: seq<Item>, a: seq<Item>, rest: seq<Item>, k: nat, calls: seq<Item>)
    requires items == a + rest && From(rest, k, calls)
    ensures From(items, |a| + k, calls)
  {
  }

  /** addl, subl, orl, andl, xorl: the destination becomes `mid op src`, modulo 2^64. */
  lemma LongArithmetic(b: Build, m: Memory, g: Config, inst: Inst, i: nat, s0: Cpu) returns (s: Cpu, lo: Word, hi: Word)
    requires InMemory(b, m) && CodeOf(b, g, inst, i) && LongOp(inst.op).Some? && s0.pc == Begin(b, i)
    requires LongAt(MidOf(inst), s0) && LongAt(inst.src, s0) && LongAt(inst.dst, s0)
    ensures Processor.Runs(m, s0, s) && Done(b, i, s0, s, PutLong(inst.dst, s0, lo, hi))
    ensures LongResult(inst.op, Low(MidOf(inst), s0), High(MidOf(inst), s0), Low(inst.src, s0), High(inst.src, s0), lo, hi)
  {
    hide InMemory;
    hide Here;
    hide Begin;
    hide CompParts;
    hide Comp;
    hide Access;
    hide Where;
    hide LongResult;
    hide LongOp;
    hide Processor.Runs;
    LongParts(g, inst, i);
    CodeIs(b, g, inst, i, CompParts(g, inst, i));
    EndOf(b, i);
    hide CodeOf;
    var core := CoreCalls(LongOp(inst.op).value.0, LongOp(inst.op).value.1);
    var to := if inst.mid.NoMiddle? then Some([]) else Access(inst.dst, Olea, RTA);
    FiveParts(b.chunks[i], Access(inst.src, Olea, RTMP), Access(MidOf(inst), Olea, RTA), Some(core), to, Some(StoreCalls()));
    hide All;
    hide From;
    var k1 := |Access(inst.src, Olea, RTMP).value|;
    var k2 := k1 + |Access(MidOf(inst), Olea, RTA).value|;
    var k3 := k2 + 4 + |to.value|;
    HereSmall(b, m, i, k1);
    HereSmall(b, m, i, k2);
    HereSmall(b, m, i, k3);
    SameValue(inst.src, s0, s0);
    SameValue(MidOf(inst), s0, s0);
    SameValue(inst.dst, s0, s0);
    Processor.RunsNone(m, s0);
    s := RunLea(b, m, i, 0, inst.src, RTMP, s0, s0);
    SameValue(MidOf(inst), s0, s);
    s := RunLea(b, m, i, k1, MidOf(inst), RTA, s0, s);
    s := RunCore(b, m, i, k2, inst.op, s0, s);
    lo, hi := s.r.ax, s.r.cx;
    if !inst.mid.NoMiddle? {
      SameValue(inst.dst, s0, s);
      s := RunLea(b, m, i, k2 + 4, inst.dst, RTA, s0, s);
    }
    s := RunStores(b, m, i, k3, s0, s);
  }

  // ----- moves

  function MoveCalls(): seq<Item> { [Mod(Oldw, 0, RTA, RAX), Mod(Ostw, 0, RTMP, RAX), Mod(Oldw, 4, RTA, RAX), Mod(Ostw, 4, RTMP, RAX)] }

  lemma MoveLongParts(g: Config, i: Inst, pc: nat)
    requires i.op.IMOVL?
    ensures CompParts(g, i, pc) == [Access(i.src, Olea, RTA), Access(i.dst, Olea, RTMP), Some(MoveCalls())]
  {
    hide CompParts;
    hide CompMove;
    hide CompHead;
    hide CompArith;
    hide CompIndex;
    hide CompMore;
    hide Access;
    PartsRest(g, i, pc);
    MoveRest(g, i, pc);
    HeadRest(g, i, pc);
    ArithRest(g, i, pc);
    IndexRest(g, i, pc);
  }

  /** Word by word from DX to BX. */
  lemma RunCopy(b: Build, m: Memory, i: nat, k: nat, s0: Cpu, s1: Cpu) returns (s: Cpu)
    requires InMemory(b, m) && i < |b.chunks| && From(b.chunks[i], k, MoveCalls()) && Processor.Runs(m, s0, s1) && s1.pc == Here(b, i, k)
    requires s1.r.dx in s1.data && Up(s1.r.dx) in s1.data && s1.r.bx in s1.data && Up(s1.r.bx) in s1.data
    ensures Processor.Runs(m, s0, s) && s.pc == Here(b, i, k + 4) % M32
    ensures s == s1.(pc := s.pc, r := s1.r.(ax := s.r.ax), data := Copied(s1.data, s1.r.dx, s1.r.bx))
  {
    hide InMemory;
    hide Here;
    hide Processor.Runs;
    FromAt(b.chunks[i], k, MoveCalls(), 0);
    FromAt(b.chunks[i], k, MoveCalls(), 1);
    FromAt(b.chunks[i], k, MoveCalls(), 2);
    FromAt(b.chunks[i], k, MoveCalls(), 3);
    hide From;
    HereSmall(b, m, i, k + 1);
    HereSmall(b, m, i, k + 2);
    HereSmall(b, m, i, k + 3);
    s := RunMod(b, m, i, k, Oldw, 0, RTA, RAX, s0, s1);
    s := RunMod(b, m, i, k + 1, Ostw, 0, RTMP, RAX, s0, s);
    s := RunMod(b, m, i, k + 2, Oldw, 4, RTA, RAX, s0, s);
    s := RunMod(b, m, i, k + 3, Ostw, 4, RTMP, RAX, s0, s);
  }

  /** The low word first; if the destination begins at the high word of the source, that is lost. */
  function Copied(data: map<Word, Word>, from: Word, to: Word): map<Word, Word>
    requires from in data && Up(from) in data
  {
    var data1 := data[to := data[from]];
    data1[Up(to) := data1[Up(from)]]
  }

  /** movl: the destination becomes the source if and only if the two do not overlap by a word, or agree there. */
  lemma LongMove(b: Build, m: Memory, g: Config, inst: Inst, i: nat, s0: Cpu) returns (s: Cpu)
    requires InMemory(b, m) && CodeOf(b, g, inst, i) && inst.op.IMOVL? && s0.pc == Begin(b, i)
    requires LongAt(inst.src, s0) && LongAt(inst.dst, s0)
    ensures Processor.Runs(m, s0, s) && Done(b, i, s0, s, s.data)
    ensures s.data == PutLong(inst.dst, s0, Low(inst.src, s0), High(inst.src, s0)) <==>
      Where(inst.dst, s0).value != Up(Where(inst.src, s0).value) || Low(inst.src, s0) == High(inst.src, s0)
  {
    hide InMemory;
    hide Here;
    hide Begin;
    hide CompParts;
    hide Comp;
    hide Access;
    hide Where;
    hide Processor.Runs;
    MoveLongParts(g, inst, i);
    CodeIs(b, g, inst, i, CompParts(g, inst, i));
    EndOf(b, i);
    hide CodeOf;
    ThreeParts(b.chunks[i], Access(inst.src, Olea, RTA), Access(inst.dst, Olea, RTMP), Some(MoveCalls()));
    hide All;
    hide From;
    var k1 := |Access(inst.src, Olea, RTA).value|;
    var k2 := k1 + |Access(inst.dst, Olea, RTMP).value|;
    HereSmall(b, m, i, k1);
    HereSmall(b, m, i, k2);
    SameValue(inst.src, s0, s0);
    SameValue(inst.dst, s0, s0);
    Processor.RunsNone(m, s0);
    s := RunLea(b, m, i, 0, inst.src, RTA, s0, s0);
    SameValue(inst.dst, s0, s);
    s := RunLea(b, m, i, k1, inst.dst, RTMP, s0, s);
    s := RunCopy(b, m, i, k2, s0, s);
    CopiedIff(s0.data, Where(inst.src, s0).value, Where(inst.dst, s0).value);
  }

  lemma CopiedIff(data: map<Word, Word>, from: Word, to: Word)
    requires from in data && Up(from) in data && to in data && Up(to) in data
    ensures Copied(data, from, to) == data[to := data[from]][Up(to) := data[Up(from)]] <==> to != Up(from) || data[from] == data[Up(from)]
  {
    var a, c := Copied(data, from, to), data[to := data[from]][Up(to) := data[Up(from)]];
    assert a[Up(to)] == if to == Up(from) then data[from] else data[Up(from)];
    assert c[Up(to)] == data[Up(from)];
    if to != Up(from) || data[from] == data[Up(from)] {
      assert a == c;
    }
  }

  // ----- conditional branches

  /** One of the two comparisons: of a word of the source, at BX, with a word of the middle operand, at DX. */
  lemma RunWordCompare(b: Build, m: Memory, i: nat, k: nat, disp: Word, s0: Cpu, s1: Cpu) returns (s: Cpu)
    requires InMemory(b, m) && i < |b.chunks| && k + 2 < |b.chunks[i]|
    requires b.chunks[i][k] == Mod(Oldw, disp, RTA, RAX) && b.chunks[i][k + 1] == Mod(Ocmpw, disp, RTMP, RAX)
    requires Processor.Runs(m, s0, s1) && s1.pc == Here(b, i, k)
    requires (s1.r.dx + disp) % M32 in s1.data && (s1.r.bx + disp) % M32 in s1.data
    ensures Processor.Runs(m, s0, s) && s.pc == Here(b, i, k + 2)
    ensures s == s1.(pc := s.pc, flags := Processor.Compared(s1.data[(s1.r.bx + disp) % M32], s1.data[(s1.r.dx + disp) % M32]),
                     r := s1.r.(ax := s.r.ax))
  {
    hide InMemory;
    hide Here;
    hide Processor.Runs;
    HereSmall(b, m, i, k + 1);
    HereSmall(b, m, i, k + 2);
    s := RunMod(b, m, i, k, Oldw, disp, RTA, RAX, s0, s1);
    s := RunMod(b, m, i, k + 1, Ocmpw, disp, RTMP, RAX, s0, s);
  }

  /** A short jump that reaches its call. */
  lemma ShortIs(b: Build, m: Memory, i: nat, k: nat, n: nat) returns (disp: int)
    requires InMemory(b, m) && i < |b.chunks| && k + 1 + n <= |b.chunks[i]| && k < |b.chunks[i]| && b.chunks[i][k] == Short(Ojneb, n)
    requires Reaches(b.chunks[i], k)
    ensures IsAt(b, m, i, k, 1, Processor.BranchIf(Processor.IF_NE, disp)) && Here(b, i, k + 1) + disp == Here(b, i, k + 1 + n)
  {
    hide JitCompile.Compiled;
    hide Reaches;
    hide At;
    hide ItemBytes;
    hide Len;
    hide Processor.Fetch;
    ShortLands(b.env, b.chunks, b.size, b.base, b.n, b.image, b.pool, i, k);
    var p := At(b.chunks, i, k);
    var c := [Ojneb, b.image[p + 1]];
    disp := SignedByte(b.image[p + 1]);
    HereNext(b, i, k);
    ShortLength(b.chunks[i], k);
    assert Processor.Written(m, Here(b, i, k), c) by { assert b.image[p..p + 2] == c; }
    var f := Processor.Fetch(m, Here(b, i, k));
    if f[..2] == c {
      assert f[0] == c[0] && f[1] == c[1];
    }
    hide InMemory;
    StandsFor(m, Here(b, i, k), c, Processor.BranchIf(Processor.IF_NE, disp));
  }

  lemma RunShort(b: Build, m: Memory, i: nat, k: nat, n: nat, s0: Cpu, s1: Cpu) returns (s: Cpu)
    requires InMemory(b, m) && i < |b.chunks| && k + 1 + n <= |b.chunks[i]| && k < |b.chunks[i]| && b.chunks[i][k] == Short(Ojneb, n)
    requires Reaches(b.chunks[i], k) && Processor.Runs(m, s0, s1) && s1.pc == Here(b, i, k) && s1.flags.Compared?
    ensures Processor.Runs(m, s0, s)
    ensures s == s1.(pc := Here(b, i, if s1.flags.a != s1.flags.b then k + 1 + n else k + 1) % M32)
  {
    hide InMemory;
    hide Here;
    hide IsAt;
    hide Reaches;
    hide Processor.Runs;
    var disp := ShortIs(b, m, i, k, n);
    AddsUp(Here(b, i, k + 1), disp);
    s := Run(b, m, i, k, 1, Processor.BranchIf(Processor.IF_NE, disp), s0, s1);
  }

  lemma AddsUp(a: nat, d: int)
    requires a + d >= 0
    ensures (a % M32 + d) % M32 == (a + d) % M32
  {
  }

  function TestMode(r: Relation): Mode { if r.EQ? then ANDAND else if r.NE? then OROR else EQAND }

  /** From the jumps on the high words on. */
  function TailCalls(t: nat, r: Relation): seq<Item> {
    (match TestMode(r)
     case ANDAND => [Short(Ojneb, 4)]
     case OROR => [Raw1(0x0f), Branch(Dis(t), JumpSigned(Strict(r)))]
     case EQAND => [Raw1(0x0f), Branch(Dis(t), JumpSigned(Strict(r))), Short(Ojneb, 4)])
    + [Mod(Oldw, 0, RTA, RAX), Mod(Ocmpw, 0, RTMP, RAX), Raw1(0x0f), Branch(Dis(t), JumpUnsigned(r))]
  }

  lemma LongTestParts(g: Config, i: Inst, pc: nat, r: Relation)
    requires Test(i.op) == Some((r, Longs))
    ensures CompParts(g, i, pc) ==
      [Some(SchedCheck(g, i, pc)), Access(i.src, Olea, RTMP), Access(MidOf(i), Olea, RTA),
       Some([Mod(Oldw, 4, RTA, RAX), Mod(Ocmpw, 4, RTMP, RAX)]), Some(TailCalls(i.target, r))]
  {
    hide CompParts;
    hide CompMove;
    hide CompHead;
    hide CompArith;
    hide CompIndex;
    hide CompDivide;
    hide CompMore;
    hide Access;
    hide SchedCheck;
    hide JumpSigned;
    hide JumpUnsigned;
    hide Test;
    LongTestRest(g, i, pc, r);
    MidIs(i, Olea, RTA);
    hide Mid;
  }

  lemma LongTestRest(g: Config, i: Inst, pc: nat, r: Relation)
    requires Test(i.op) == Some((r, Longs))
    ensures CompParts(g, i, pc) == CBraL(g, i, pc, if r.EQ? then Ojnel else JumpSigned(Strict(r)), JumpUnsigned(r), TestMode(r))
  {
    hide CompParts;
    hide CompMove;
    hide CompHead;
    hide CompArith;
    hide CompIndex;
    hide CompDivide;
    hide CompMore;
    hide CBraL;
    hide JumpSigned;
    hide JumpUnsigned;
    PartsRest(g, i, pc);
    MoveRest(g, i, pc);
    HeadRest(g, i, pc);
    ArithRest(g, i, pc);
    IndexRest(g, i, pc);
    DivideRest(g, i, pc);
    LongCode(g, i, pc, r);
  }

  /** The order of two-word numbers is that of the high words, and if they are equal that of the low ones. */
  lemma LongRelated(r: Relation, xl: Word, xh: Word, yl: Word, yh: Word)
    ensures Related(r, Signed(xl, xh), Signed(yl, yh)) ==
      match TestMode(r)
      case ANDAND => xh == yh && Related(r, xl, yl)
      case OROR => Related(Strict(r), Wrap32(xh), Wrap32(yh)) || Related(r, xl, yl)
      case EQAND => Related(Strict(r), Wrap32(xh), Wrap32(yh)) || (xh == yh && Related(r, xl, yl))
  {
  }

  /** The comparison of the low words, and the last jump. */
  lemma RunLowTest(b: Build, m: Memory, i: nat, k: nat, t: nat, r: Relation, s0: Cpu, s1: Cpu) returns (s: Cpu)
    requires InMemory(b, m) && |b.chunks| == b.size + NMACRO && i < b.size && t < b.size && k + 4 == |b.chunks[i]|
    requires From(b.chunks[i], k, [Mod(Oldw, 0, RTA, RAX), Mod(Ocmpw, 0, RTMP, RAX), Raw1(0x0f), Branch(Dis(t), JumpUnsigned(r))])
    requires Processor.Runs(m, s0, s1) && s1.pc == Here(b, i, k) && s1.r.dx in s1.data && s1.r.bx in s1.data
    ensures Processor.Runs(m, s0, s) && Became(s1, s, s1.data)
    ensures s.pc == Begin(b, if Related(r, s1.data[s1.r.bx], s1.data[s1.r.dx]) then t else i + 1) % M32
  {
    hide InMemory;
    hide Here;
    hide Begin;
    hide Related;
    hide JumpUnsigned;
    hide Processor.Holds;
    hide Processor.Runs;
    var calls := [Mod(Oldw, 0, RTA, RAX), Mod(Ocmpw, 0, RTMP, RAX), Raw1(0x0f), Branch(Dis(t), JumpUnsigned(r))];
    FromAt(b.chunks[i], k, calls, 0);
    FromAt(b.chunks[i], k, calls, 1);
    FromAt(b.chunks[i], k, calls, 2);
    FromAt(b.chunks[i], k, calls, 3);
    hide From;
    CodeByte(r);
    EndOf(b, i);
    s := RunWordCompare(b, m, i, k, 0, s0, s1);
    UnsignedJump(r, s.flags.a, s.flags.b);
    s := RunJump(b, m, i, k + 2, t, JumpUnsigned(r) - 0x80, s0, s);
  }

  /** The jump on the high words. */
  lemma RunHighJump(b: Build, m: Memory, i: nat, k: nat, t: nat, r: Relation, s0: Cpu, s1: Cpu) returns (s: Cpu)
    requires InMemory(b, m) && |b.chunks| == b.size + NMACRO && i < b.size && t < b.size && k + 2 < |b.chunks[i]|
    requires b.chunks[i][k] == Raw1(0x0f) && b.chunks[i][k + 1] == Branch(Dis(t), JumpSigned(r))
    requires Processor.Runs(m, s0, s1) && s1.pc == Here(b, i, k) && s1.flags.Compared?
    ensures Processor.Runs(m, s0, s)
    ensures s == s1.(pc := s.pc)
    ensures s.pc == if Related(r, Wrap32(s1.flags.a), Wrap32(s1.flags.b)) then Begin(b, t) % M32 else Here(b, i, k + 2)
  {
    hide InMemory;
    hide Here;
    hide Begin;
    hide Related;
    hide JumpSigned;
    hide Processor.Holds;
    hide Processor.Runs;
    CodeByte(r);
    SignedJump(r, s1.flags.a, s1.flags.b);
    HereSmall(b, m, i, k + 2);
    s := RunJump(b, m, i, k, t, JumpSigned(r) - 0x80, s0, s1);
  }

  /** The low words do not matter if the high ones differ. */
  lemma RunSkip(b: Build, m: Memory, i: nat, k: nat, t: nat, r: Relation, s0: Cpu, s1: Cpu) returns (s: Cpu)
    requires InMemory(b, m) && |b.chunks| == b.size + NMACRO && i < b.size && t < b.size && k + 5 == |b.chunks[i]|
    requires b.chunks[i][k] == Short(Ojneb, 4) && Reaches(b.chunks[i], k)
    requires From(b.chunks[i], k + 1, [Mod(Oldw, 0, RTA, RAX), Mod(Ocmpw, 0, RTMP, RAX), Raw1(0x0f), Branch(Dis(t), JumpUnsigned(r))])
    requires Processor.Runs(m, s0, s1) && s1.pc == Here(b, i, k) && s1.flags.Compared? && s1.r.dx in s1.data && s1.r.bx in s1.data
    ensures Processor.Runs(m, s0, s) && Became(s1, s, s1.data)
    ensures s.pc == Begin(b, if s1.flags.a == s1.flags.b && Related(r, s1.data[s1.r.bx], s1.data[s1.r.dx]) then t else i + 1) % M32
  {
    hide InMemory;
    hide Here;
    hide Begin;
    hide Related;
    hide JumpUnsigned;
    hide From;
    hide Reaches;
    hide Processor.Runs;
    EndOf(b, i);
    s := RunShort(b, m, i, k, 4, s0, s1);
    if s1.flags.a == s1.flags.b {
      HereSmall(b, m, i, k + 1);
      s := RunLowTest(b, m, i, k + 1, t, r, s0, s);
    }
  }

  lemma RunTail(b: Build, m: Memory, i: nat, k: nat, t: nat, r: Relation, s0: Cpu, s1: Cpu) returns (s: Cpu)
    requires InMemory(b, m) && |b.chunks| == b.size + NMACRO && i < b.size && t < b.size
    requires From(b.chunks[i], k, TailCalls(t, r)) && k + |TailCalls(t, r)| == |b.chunks[i]| && AllReach(b.chunks[i])
    requires Processor.Runs(m, s0, s1) && s1.pc == Here(b, i, k) && LongPair(s1.data, s1.r.bx) && LongPair(s1.data, s1.r.dx)
    requires s1.flags == Processor.Compared(s1.data[Up(s1.r.bx)], s1.data[Up(s1.r.dx)])
    ensures Processor.Runs(m, s0, s) && Became(s1, s, s1.data)
    ensures s.pc == Begin(b, if Related(r, Signed(s1.data[s1.r.bx], s1.data[Up(s1.r.bx)]), Signed(s1.data[s1.r.dx], s1.data[Up(s1.r.dx)]))
                             then t else i + 1) % M32
  {
    hide InMemory;
    hide Here;
    hide Begin;
    hide Related;
    hide JumpUnsigned;
    hide JumpSigned;
    hide Reaches;
    hide Processor.Runs;
    LongRelated(r, s1.data[s1.r.bx], s1.data[Up(s1.r.bx)], s1.data[s1.r.dx], s1.data[Up(s1.r.dx)]);
    var items, calls := b.chunks[i], TailCalls(t, r);
    var last := [Mod(Oldw, 0, RTA, RAX), Mod(Ocmpw, 0, RTMP, RAX), Raw1(0x0f), Branch(Dis(t), JumpUnsigned(r))];
    FromAt(items, k, calls, 0);
    FromAt(items, k, calls, 1);
    FromAt(items, k, calls, 2);
    assert From(items, k + |calls| - 4, last) by { FromEnd(items, k, calls, last); }
    hide From;
    match TestMode(r) {
      case ANDAND =>
        s := RunSkip(b, m, i, k, t, r, s0, s1);
      case OROR =>
        s := RunHighJump(b, m, i, k, t, Strict(r), s0, s1);
        if !Related(Strict(r), Wrap32(s1.flags.a), Wrap32(s1.flags.b)) {
          s := RunLowTest(b, m, i, k + 2, t, r, s0, s);
        }
      case EQAND =>
        s := RunHighJump(b, m, i, k, t, Strict(r), s0, s1);
        if !Related(Strict(r), Wrap32(s1.flags.a), Wrap32(s1.flags.b)) {
          s := RunSkip(b, m, i, k + 2, t, r, s0, s);
        }
    }
  }

  predicate LongPair(data: map<Word, Word>, a: Word) { a in data && Up(a) in data }

  lemma FromEnd(items: seq<Item>, k: nat, calls: seq<Item>, last: seq<Item>)
    requires From(items, k, calls) && |calls| >= |last| && calls[|calls| - |last|..] == last
    ensures From(items, k + |calls| - |last|, last)
  {
  }

  /** beql, bnel, bltl, blel, bgtl, bgel: the code goes to the target exactly if the source stands in that relation to the
      middle operand, as signed two-word numbers, and to the next instruction otherwise. */
  lemma LongBranches(b: Build, m: Memory, g: Config, inst: Inst, i: nat, r: Relation, s0: Cpu) returns (s: Cpu)
    requires InMemory(b, m) && CodeOf(b, g, inst, i) && Test(inst.op) == Some((r, Longs)) && inst.target < b.size && s0.pc == Begin(b, i)
    requires MayGo(g, inst, i, s0)
    requires var s1 := s0.(data := Counted(g, inst, i, s0)); LongAt(inst.src, s1) && LongAt(MidOf(inst), s1)
    ensures Processor.Runs(m, s0, s)
    ensures var s1 := s0.(data := Counted(g, inst, i, s0));
      var go := Related(r, Signed(Low(inst.src, s1), High(inst.src, s1)), Signed(Low(MidOf(inst), s1), High(MidOf(inst), s1)));
      Went(b, if go then inst.target else i + 1, s0, s, s1.data)
  {
    hide InMemory;
    hide Here;
    hide Begin;
    hide CompParts;
    hide SchedCheck;
    hide Access;
    hide Where;
    hide Related;
    hide TailCalls;
    hide Signed;
    hide AllReach;
    hide Processor.Runs;
    hide MayGo;
    hide Counted;
    LongTestParts(g, inst, i, r);
    CodeIs(b, g, inst, i, CompParts(g, inst, i));
    CompReaches(g, inst, i);
    EndOf(b, i);
    hide Comp;
    var check, s1 := SchedCheck(g, inst, i), s0.(data := Counted(g, inst, i, s0));
    var compare := [Mod(Oldw, 4, RTA, RAX), Mod(Ocmpw, 4, RTMP, RAX)];
    FiveParts(b.chunks[i], Some(check), Access(inst.src, Olea, RTMP), Access(MidOf(inst), Olea, RTA), Some(compare), Some(TailCalls(inst.target, r)));
    hide All;
    var k1 := |check| + |Access(inst.src, Olea, RTMP).value|;
    var k2 := k1 + |Access(MidOf(inst), Olea, RTA).value|;
    FromAt(b.chunks[i], k2, compare, 0);
    FromAt(b.chunks[i], k2, compare, 1);
    hide From;
    TailSome(inst.target, r);
    HereSmall(b, m, i, k1);
    HereSmall(b, m, i, k2);
    s := RunCheck(b, m, g, inst, i, s0);
    SameValue(inst.src, s1, s);
    s := RunLea(b, m, i, |check|, inst.src, RTMP, s0, s);
    SameValue(MidOf(inst), s1, s);
    s := RunLea(b, m, i, k1, MidOf(inst), RTA, s0, s);
    s := RunWordCompare(b, m, i, k2, 4, s0, s);
    s := RunTail(b, m, i, k2 + 2, inst.target, r, s0, s);
  }

  lemma TailSome(t: nat, r: Relation)
    ensures |TailCalls(t, r)| >= 5
  {
  }
}
