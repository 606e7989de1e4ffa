/**
  The part of the 386 that the code generator's integer instructions use: instructions are decoded from the bytes in
  memory and change registers, flags, stack and data.
 */
module Processor {
  import opened Wrappers
  import opened Words

  /** The registers an instruction can name, numbered 0 to 3 and 5 to 7.  Number 4 is the stack pointer, which is not
      used: the stack is a value. */
  datatype Registers = Registers(ax: Word, cx: Word, dx: Word, bx: Word, bp: Word, si: Word, di: Word)

  predicate Named(k: nat) { k < 8 && k != 4 }

  function Get(r: Registers, k: nat): Word
    requires Named(k)
  {
    if k == 0 then r.ax else if k == 1 then r.cx else if k == 2 then r.dx else if k == 3 then r.bx
    else if k == 5 then r.bp else if k == 6 then r.si else r.di
  }

  function Put(r: Registers, k: nat, v: Word): Registers
    requires Named(k)
  {
    if k == 0 then r.(ax := v) else if k == 1 then r.(cx := v) else if k == 2 then r.(dx := v) else if k == 3 then r.(bx := v)
    else if k == 5 then r.(bp := v) else if k == 6 then r.(si := v) else r.(di := v)
  }

  /** What is known of the flags: those of a subtraction or comparison, or the carry alone, or nothing. */
  datatype Flags = Unknown | Compared(a: Word, b: Word) | Carried(c: bool)

  /** `data` has the words of memory that may be read and written, by address. */
  datatype Cpu = Cpu(pc: Word, r: Registers, flags: Flags, stack: seq<Word>, data: map<Word, Word>)

  /** The code, which does not change, from `base` on. */
  datatype Memory = Memory(base: Word, code: seq<Byte>)

  /** A register, memory at base + 4 * index + displacement, or a constant. */
  datatype Operand = Register(r: nat) | At(base: nat, index: Option<nat>, disp: Word) | Immediate(w: Word)

  /** Operations by their number in the instructions: add, or, adc, sbb, and, sub, xor, cmp. */
  const ADD := 0
  const OR := 1
  const ADC := 2
  const SBB := 3
  const AND := 4
  const SUB := 5
  const XOR := 6
  const CMP := 7

  /** Conditions by their number: below, at least, equal, not equal, at most, above, and for signed numbers less, not less,
      not greater, greater. */
  const IF_B := 2
  const IF_AE := 3
  const IF_E := 4
  const IF_NE := 5
  const IF_BE := 6
  const IF_A := 7
  const IF_L := 12
  const IF_GE := 13
  const IF_LE := 14
  const IF_G := 15

  datatype Instruction =
    | Move(to: Operand, from: Operand)
    | Calculate(op: nat, to: Operand, from: Operand)
    | Address(r: nat, of: Operand)
    | ShiftLeft(o: Operand)
    | ShiftRight(o: Operand)
    | Decrement(o: Operand)
    | Push(o: Operand)
    | Pop(r: nat)
    | Jump(o: Operand)
    | Branch(disp: int)
    | BranchIf(c: nat, disp: int)

  // ----- decoding

  /** The bytes after the operation: the middle field of the first, the operand they spell, and how many there are. */
  function ReadOperand(b: seq<Byte>): Option<(nat, Operand, nat)>
    requires |b| == 6
  {
    var mode, r, rm := b[0] / 64, b[0] / 8 % 8, b[0] % 8;
    if mode == 3 then Some((r, Register(rm), 1))
    else if rm == 4 then
      var scale, index, base := b[1] / 64, b[1] / 8 % 8, b[1] % 8;
      if scale != 2 || index == 4 || base == 4 || (mode == 0 && base == 5) then None
      else if mode == 0 then Some((r, At(base, Some(index), 0), 2))
      else if mode == 1 then Some((r, At(base, Some(index), Extended(b[2])), 3))
      else Some((r, At(base, Some(index), Unle(b[2..6])), 6))
    else if mode == 0 then if rm == 5 then None else Some((r, At(rm, None, 0), 1))
    else if mode == 1 then Some((r, At(rm, None, Extended(b[1])), 2))
    else Some((r, At(rm, None, Unle(b[1..5])), 5))
  }

  /** Operations without an operand byte. */
  function DecodeShort(b: seq<Byte>): Option<(Instruction, nat)>
    requires |b| == 11
  {
    var op := b[0];
    if 0x50 <= op < 0x58 then Some((Push(Register(op - 0x50)), 1))
    else if 0x58 <= op < 0x60 then Some((Pop(op - 0x58), 1))
    else if 0x70 <= op < 0x80 then Some((BranchIf(op - 0x70, SignedByte(b[1])), 2))
    else if op == 0xeb then Some((Branch(SignedByte(b[1])), 2))
    else if op == 0xe9 then Some((Branch(Unle(b[1..5])), 5))
    else if op == 0x0f && 0x80 <= b[1] < 0x90 then Some((BranchIf(b[1] - 0x80, Unle(b[2..6])), 6))
    else if 0xb8 <= op < 0xc0 then Some((Move(Register(op - 0xb8), Immediate(Unle(b[1..5]))), 5))
    else None
  }

  /** The instruction that the bytes begin with, and its length. */
  function Decode(b: seq<Byte>): Option<(Instruction, nat)>
    requires |b| == 11
  {
    var op := b[0];
    if DecodeShort(b).Some? then DecodeShort(b)
    else
      match ReadOperand(b[1..7])
      case None => None
      case Some((r, o, n)) =>
        if op < 0x40 && op % 8 == 1 then Some((Calculate(op / 8, o, Register(r)), 1 + n))
        else if op < 0x40 && op % 8 == 3 then Some((Calculate(op / 8, Register(r), o), 1 + n))
        else if op == 0x81 then Some((Calculate(r, o, Immediate(Unle(b[1 + n..5 + n]))), 5 + n))
        else if op == 0x83 then Some((Calculate(r, o, Immediate(Extended(b[1 + n]))), 2 + n))
        else if op == 0x89 then Some((Move(o, Register(r)), 1 + n))
        else if op == 0x8b then Some((Move(Register(r), o), 1 + n))
        else if op == 0x8d && o.At? then Some((Address(r, o), 1 + n))
        else if op == 0xc7 && r == 0 then Some((Move(o, Immediate(Unle(b[1 + n..5 + n]))), 5 + n))
        else if op == 0xd1 && r == 4 then Some((ShiftLeft(o), 1 + n))
        else if op == 0xd1 && r == 5 then Some((ShiftRight(o), 1 + n))
        else if op == 0xff && r == 1 then Some((Decrement(o), 1 + n))
        else if op == 0xff && r == 4 then Some((Jump(o), 1 + n))
        else if op == 0xff && r == 6 then Some((Push(o), 1 + n))
        else None
  }

  lemma OperandPrefix(f: seq<Byte>, g: seq<Byte>)
    requires |f| == |g| == 6 && ReadOperand(f).Some?
    ensures 1 <= ReadOperand(f).value.2 <= 6
    ensures f[..ReadOperand(f).value.2] == g[..ReadOperand(f).value.2] ==> ReadOperand(g) == ReadOperand(f)
  {
    hide Unle;
    hide Extended;
    var n := ReadOperand(f).value.2;
    if f[..n] == g[..n] {
      forall i | 0 <= i < n ensures f[i] == g[i] { assert f[..n][i] == g[..n][i]; }
      if n == 5 { assert f[1..5] == g[1..5]; }
      if n == 6 { assert f[2..6] == g[2..6]; }
    }
  }

  lemma ShortPrefix(f: seq<Byte>, g: seq<Byte>)
    requires |f| == |g| == 11 && DecodeShort(f).Some?
    ensures 1 <= DecodeShort(f).value.1 <= 6
    ensures f[..DecodeShort(f).value.1] == g[..DecodeShort(f).value.1] ==> DecodeShort(g) == DecodeShort(f)
  {
    hide Unle;
    var n := DecodeShort(f).value.1;
    if f[..n] == g[..n] {
      forall i | 0 <= i < n ensures f[i] == g[i] { assert f[..n][i] == g[..n][i]; }
      if n == 5 { assert f[1..5] == g[1..5]; }
      if n == 6 { assert f[2..6] == g[2..6]; }
    }
  }

  /** What is decoded does not depend on the bytes after the instruction. */
  lemma DecodePrefix(f: seq<Byte>, g: seq<Byte>)
    requires |f| == |g| == 11 && Decode(f).Some?
    ensures 1 <= Decode(f).value.1 <= 11
    ensures f[..Decode(f).value.1] == g[..Decode(f).value.1] ==> Decode(g) == Decode(f)
  {
    hide Unle;
    hide ReadOperand;
    hide DecodeShort;
    var n := Decode(f).value.1;
    if DecodeShort(f).Some? {
      ShortPrefix(f, g);
    } else {
      OperandPrefix(f[1..7], g[1..7]);
      if f[..n] == g[..n] {
        LongPrefix(f, g, n);
      }
    }
  }

  lemma LongPrefix(f: seq<Byte>, g: seq<Byte>, n: nat)
    requires |f| == |g| == 11 && DecodeShort(f).None? && Decode(f).Some? && n == Decode(f).value.1 <= 11 && f[..n] == g[..n]
    requires ReadOperand(f[1..7]).Some? && 1 <= ReadOperand(f[1..7]).value.2 <= 6
    requires f[1..7][..ReadOperand(f[1..7]).value.2] == g[1..7][..ReadOperand(f[1..7]).value.2] ==> ReadOperand(g[1..7]) == ReadOperand(f[1..7])
    ensures Decode(g) == Decode(f)
  {
    hide Unle;
    hide ReadOperand;
    var k := ReadOperand(f[1..7]).value.2;
    forall i | 0 <= i < n ensures f[i] == g[i] { assert f[..n][i] == g[..n][i]; }
    forall i | 0 <= i < k ensures f[1..7][i] == g[1..7][i] { assert f[1 + i] == g[1 + i]; }
    assert f[1..7][..k] == g[1..7][..k];
    if f[0] == 0x81 || f[0] == 0xc7 {
      assert f[1 + k..5 + k] == g[1 + k..5 + k];
    }
  }

  /** The bytes at an address, 0 where there is no code. */
  function Fetch(m: Memory, a: nat): (b: seq<Byte>)
    ensures |b| == 11
  {
    seq(11, k requires 0 <= k < 11 => if 0 <= a - m.base + k < |m.code| then m.code[a - m.base + k] else 0)
  }

  /** The bytes stand in memory from an address on. */
  predicate Written(m: Memory, a: nat, b: seq<Byte>) {
    m.base <= a && a - m.base + |b| <= |m.code| && m.code[a - m.base..a - m.base + |b|] == b
  }

  /** Then they are what is fetched there. */
  lemma FetchWritten(m: Memory, a: nat, b: seq<Byte>)
    requires Written(m, a, b) && |b| <= 11
    ensures Fetch(m, a)[..|b|] == b
  {
    var c := m.code[a - m.base..a - m.base + |b|];
    forall i | 0 <= i < |b| ensures Fetch(m, a)[i] == b[i] {
      assert c[i] == m.code[a - m.base + i];
    }
  }

  lemma WrittenTogether(m: Memory, a: nat, b: seq<Byte>, c: seq<Byte>)
    requires Written(m, a, b) && Written(m, a + |b|, c)
    ensures Written(m, a, b + c)
  {
  }

  // ----- execution

  predicate Addresses(o: Operand) {
    o.At? && Named(o.base) && (o.index.Some? ==> Named(o.index.value))
  }

  function AddressOf(o: Operand, r: Registers): Word
    requires Addresses(o)
  {
    (Get(r, o.base) + (if o.index.Some? then 4 * Get(r, o.index.value) else 0) + o.disp) % M32
  }

  /** The value of an operand. */
  function Value(s: Cpu, o: Operand): Option<Word> {
    match o
    case Immediate(w) => Some(w)
    case Register(k) => if Named(k) then Some(Get(s.r, k)) else None
    case At(_, _, _) => if Addresses(o) && AddressOf(o, s.r) in s.data then Some(s.data[AddressOf(o, s.r)]) else None
  }

  /** The processor with an operand changed; only words that there are can be written. */
  function Store(s: Cpu, o: Operand, v: Word): Option<Cpu> {
    match o
    case Immediate(_) => None
    case Register(k) => if Named(k) then Some(s.(r := Put(s.r, k, v))) else None
    case At(_, _, _) =>
      if Addresses(o) && AddressOf(o, s.r) in s.data then Some(s.(data := s.data[AddressOf(o, s.r) := v])) else None
  }

  function Bits(op: nat, x: Word, y: Word): Word {
    if op == AND then And(x, y) else if op == OR then Or(x, y) else Xor(x, y)
  }

  lemma XorSelf(x: Word)
    ensures Xor(x, x) == 0
  {
  }

  function CarryOf(f: Flags): Option<bool> {
    match f
    case Unknown => None
    case Compared(a, b) => Some(a < b)
    case Carried(c) => Some(c)
  }

  /** The result of an operation, and the flags. */
  function Calculated(op: nat, x: Word, y: Word, f: Flags): Option<(Word, Flags)> {
    if op == ADD then Some(((x + y) % M32, Carried(x + y >= M32)))
    else if op == SUB || op == CMP then Some(((x - y) % M32, Compared(x, y)))
    else if op == OR || op == AND || op == XOR then Some((Bits(op, x, y), Carried(false)))
    else if CarryOf(f).None? then None
    else
      var c := if CarryOf(f).value then 1 else 0;
      if op == ADC then Some(((x + y + c) % M32, Carried(x + y + c >= M32)))
      else if op == SBB then Some(((x - y - c) % M32, Carried(x < y + c)))
      else None
  }

  /** Whether a condition holds after a comparison. */
  function Holds(c: nat, f: Flags): Option<bool> {
    if !f.Compared? then None
    else
      var a, b := Wrap32(f.a), Wrap32(f.b);
      if c == IF_E then Some(f.a == f.b)
      else if c == IF_NE then Some(f.a != f.b)
      else if c == IF_B then Some(f.a < f.b)
      else if c == IF_AE then Some(f.a >= f.b)
      else if c == IF_BE then Some(f.a <= f.b)
      else if c == IF_A then Some(f.a > f.b)
      else if c == IF_L then Some(a < b)
      else if c == IF_GE then Some(a >= b)
      else if c == IF_LE then Some(a <= b)
      else if c == IF_G then Some(a > b)
      else None
  }

  /** `o` set to `v`, and nothing known of the flags. */
  function Shift(s: Cpu, o: Operand, v: Word): Option<Cpu> {
    Store(s.(flags := Unknown), o, v)
  }

  /** What an instruction does, the next one being at `next`; None if this part of the processor does not have it. */
  function Do(s0: Cpu, i: Instruction, next: Word): Option<Cpu> {
    var s := s0.(pc := next);
    match i
    case Move(to, from) => if Value(s, from).Some? then Store(s, to, Value(s, from).value) else None
    case Calculate(op, to, from) =>
      if Value(s, to).None? || Value(s, from).None? then None
      else
        var r := Calculated(op, Value(s, to).value, Value(s, from).value, s.flags);
        if r.None? then None
        else if op == CMP then Some(s.(flags := r.value.1))
        else Store(s.(flags := r.value.1), to, r.value.0)
    case Address(r, of) => if Addresses(of) then Store(s, Register(r), AddressOf(of, s.r)) else None
    case ShiftLeft(o) => if Value(s, o).Some? then Shift(s, o, Value(s, o).value * 2 % M32) else None
    case ShiftRight(o) => if Value(s, o).Some? then Shift(s, o, Value(s, o).value / 2) else None
    case Decrement(o) => if Value(s, o).Some? then Shift(s, o, (Value(s, o).value - 1) % M32) else None
    case Push(o) => if Value(s, o).Some? then Some(s.(stack := s.stack + [Value(s, o).value])) else None
    case Pop(r) =>
      if s.stack != [] then Store(s.(stack := s.stack[..|s.stack| - 1]), Register(r), s.stack[|s.stack| - 1]) else None
    case Jump(o) => if Value(s, o).Some? then Some(s.(pc := Value(s, o).value)) else None
    case Branch(disp) => Some(s.(pc := (next + disp) % M32))
    case BranchIf(c, disp) =>
      if Holds(c, s.flags).None? then None
      else Some(s.(pc := if Holds(c, s.flags).value then (next + disp) % M32 else next))
  }

  /** At an address stands an instruction. */
  predicate Stands(m: Memory, a: nat, i: Instruction, len: nat) {
    m.base <= a && a - m.base + len <= |m.code| && Decode(Fetch(m, a)) == Some((i, len))
  }

  /** Execute the instruction at the program counter. */
  function Step(m: Memory, s: Cpu): Option<Cpu> {
    var d := Decode(Fetch(m, s.pc));
    if d.None? || s.pc < m.base || s.pc - m.base + d.value.1 > |m.code| then None
    else Do(s, d.value.0, (s.pc + d.value.1) % M32)
  }

  /** Execute `n` instructions. */
  function Execute(m: Memory, s: Cpu, n: nat): Option<Cpu>
    decreases n
  {
    if n == 0 then Some(s)
    else
      var next := Step(m, s);
      if next.None? then None else Execute(m, next.value, n - 1)
  }

  lemma {:induction false} ExecuteMore(m: Memory, s: Cpu, j: nat, k: nat)
    requires Execute(m, s, j).Some?
    ensures Execute(m, s, j + k) == Execute(m, Execute(m, s, j).value, k)
    decreases j
  {
    hide Step;
    if j > 0 {
      ExecuteMore(m, Step(m, s).value, j - 1, k);
    }
  }

  /** From `s` the processor gets to `t`. */
  ghost predicate Runs(m: Memory, s: Cpu, t: Cpu) {
    exists n: nat :: Execute(m, s, n) == Some(t)
  }

  lemma RunsNone(m: Memory, s: Cpu)
    ensures Runs(m, s, s)
  {
    assert Execute(m, s, 0) == Some(s);
  }

  lemma RunsOn(m: Memory, s: Cpu, t: Cpu, u: Cpu)
    requires Runs(m, s, t) && Runs(m, t, u)
    ensures Runs(m, s, u)
  {
    var j: nat :| Execute(m, s, j) == Some(t);
    var k: nat :| Execute(m, t, k) == Some(u);
    ExecuteMore(m, s, j, k);
  }

  /** One more instruction, after which the processor is at `u`. */
  lemma Next(m: Memory, s: Cpu, t: Cpu, i: Instruction, len: nat) returns (u: Cpu)
    requires Runs(m, s, t) && Stands(m, t.pc, i, len) && Do(t, i, (t.pc + len) % M32).Some?
    ensures Runs(m, s, u) && u == Do(t, i, (t.pc + len) % M32).value
  {
    hide Decode;
    hide Fetch;
    hide Do;
    u := Do(t, i, (t.pc + len) % M32).value;
    assert Step(m, t) == Some(u);
    assert Execute(m, u, 0) == Some(u);
    assert Execute(m, t, 1) == Some(u);
    RunsOn(m, s, t, u);
  }
}
