/**
  Running the code that compile writes: what one emitter call, or two that belong together, puts into memory is an
  instruction of the processor.
 */
module JitRun {
  import opened Wrappers
  import opened Words
  import opened Jit
  import opened JitLayout
  import opened JitCompile
  import opened JitTargets
  import Processor

  type Instruction = Processor.Instruction
  type Cpu = Processor.Cpu
  type Memory = Processor.Memory

  /** What compile leaves. */
  datatype Build = Build(env: Env, chunks: seq<seq<Item>>, size: nat, base: Words.Word, n: nat, image: seq<Byte>, pool: seq<Words.Word>)

  /** The finished code is in memory at its base. */
  ghost predicate InMemory(b: Build, m: Memory) {
    JitCompile.Compiled(b.env, b.chunks, b.size, b.base, b.n, b.image, b.pool) && m.base == b.base && m.code == b.image
  }

  /** The address of call `k` of chunk `i`. */
  function Here(b: Build, i: nat, k: nat): nat
    requires i < |b.chunks| && k <= |b.chunks[i]|
  {
    b.base + At(b.chunks, i, k)
  }

  lemma ItemWritten(b: Build, m: Memory, i: nat, k: nat) returns (addr: Words.Word, lit: Words.Word)
    requires InMemory(b, m) && i < |b.chunks| && k < |b.chunks[i]|
    ensures Here(b, i, k) + Len(b.chunks[i][k]) <= M32
    ensures |ItemBytes(b.env, b.chunks[i], k, addr, lit)| == Len(b.chunks[i][k])
    ensures Processor.Written(m, Here(b, i, k), ItemBytes(b.env, b.chunks[i], k, addr, lit))
  {
    hide ItemBytes;
    hide At;
    hide JitCompile.Compiled;
    hide Lits;
    hide LitsBefore;
    hide Len;
    CompiledItem(b.env, b.chunks, b.size, b.base, b.n, b.image, b.pool, i, k);
    addr := (b.base + At(b.chunks, i, k)) % M32;
    lit := (b.base + b.n + 4 * (LitsBefore(b.chunks, i) + Lits(b.chunks[i][..k]))) % M32;
  }

  lemma HereNext(b: Build, i: nat, k: nat)
    requires i < |b.chunks| && k < |b.chunks[i]|
    ensures Here(b, i, k + 1) == Here(b, i, k) + Len(b.chunks[i][k])
  {
    SumStep(b.chunks[i], k);
  }

  lemma HereSmall(b: Build, m: Memory, i: nat, k: nat)
    requires InMemory(b, m) && i < |b.chunks| && k < |b.chunks[i]|
    ensures Here(b, i, k) < M32
  {
    hide InMemory;
    hide ItemBytes;
    var addr, lit := ItemWritten(b, m, i, k);
    LenPositive(b.chunks[i][k]);
  }

  lemma LenPositive(it: Item)
    ensures Len(it) > 0
  {
  }

  // ----- what calls write

  /** A call that writes the same bytes wherever it is. */
  predicate Plain(it: Item, b: seq<Byte>) {
    match it
    case Raw1(b1) => b == [b1]
    case Raw2(b1, b2) => b == [b1, b2]
    case GenW(w) => b == Le(w)
    case Mod(inst, disp, rm, r) => b == ModBytes(inst, disp, rm, r)
    case Con(o, r) => b == ConBytes(o, r)
    case _ => false
  }

  lemma PlainBytes(env: Env, items: seq<Item>, k: nat, addr: Word, lit: Word, b: seq<Byte>)
    requires k < |items| && Plain(items[k], b)
    ensures ItemBytes(env, items, k, addr, lit) == b
  {
  }

  lemma PlainWritten(b: Build, m: Memory, i: nat, k: nat, bytes: seq<Byte>)
    requires InMemory(b, m) && i < |b.chunks| && k < |b.chunks[i]| && Plain(b.chunks[i][k], bytes)
    ensures Processor.Written(m, Here(b, i, k), bytes) && |bytes| == Len(b.chunks[i][k])
  {
    hide ItemBytes;
    hide InMemory;
    hide Here;
    hide Len;
    hide Plain;
    hide Processor.Written;
    var addr, lit := ItemWritten(b, m, i, k);
    PlainBytes(b.env, b.chunks[i], k, addr, lit, bytes);
  }

  /** Two calls that belong together. */
  lemma PairWritten(b: Build, m: Memory, i: nat, k: nat, first: seq<Byte>, second: seq<Byte>)
    requires InMemory(b, m) && i < |b.chunks| && k + 1 < |b.chunks[i]|
    requires Plain(b.chunks[i][k], first) && Plain(b.chunks[i][k + 1], second)
    ensures Processor.Written(m, Here(b, i, k), first + second) && |first + second| == Here(b, i, k + 2) - Here(b, i, k)
  {
    hide InMemory;
    hide Here;
    hide Plain;
    hide Len;
    hide Processor.Written;
    PlainWritten(b, m, i, k, first);
    PlainWritten(b, m, i, k + 1, second);
    HereNext(b, i, k);
    HereNext(b, i, k + 1);
    Processor.WrittenTogether(m, Here(b, i, k), first, second);
  }

  // ----- the instructions they are

  lemma NoDisplacement(rm: Base, r: Jit.Reg, f: seq<Byte>)
    requires |f| == 11 && f[1] == (8 * r + rm) % 256
    ensures Processor.ReadOperand(f[1..7]) == Some((r, Processor.Operand.At(rm, None, 0), 1))
  {
    ModFields(0, r, rm);
  }

  lemma ShortDisplacement(disp: Words.Word, rm: Base, r: Jit.Reg, f: seq<Byte>)
    requires |f| == 11 && Bc(disp) && f[1] == (64 + 8 * r + rm) % 256 && f[2] == disp % 256
    ensures Processor.ReadOperand(f[1..7]) == Some((r, Processor.Operand.At(rm, None, disp), 2))
  {
    hide Bc;
    hide Extended;
    hide Unle;
    ModFields(1, r, rm);
    SignExtended(disp);
  }

  lemma LongDisplacement(disp: Words.Word, rm: Base, r: Jit.Reg, f: seq<Byte>)
    requires |f| == 11 && f[1] == (128 + 8 * r + rm) % 256 && f[2..6] == Le(disp)
    ensures Processor.ReadOperand(f[1..7]) == Some((r, Processor.Operand.At(rm, None, disp), 5))
  {
    hide Le;
    hide Unle;
    ModFields(2, r, rm);
    UnleLe(disp);
    assert f[1..7][1..5] == f[2..6];
  }

  /** The operand that modrm writes is read back. */
  lemma ModOperand(inst: Byte, disp: Words.Word, rm: Base, r: Jit.Reg, f: seq<Byte>)
    requires var b := ModBytes(inst, disp, rm, r); |f| == 11 && |b| <= 11 && f[..|b|] == b
    ensures f[0] == inst && 2 <= |ModBytes(inst, disp, rm, r)| <= 6
    ensures Processor.ReadOperand(f[1..7]) == Some((r, Processor.Operand.At(rm, None, disp), |ModBytes(inst, disp, rm, r)| - 1))
  {
    hide Processor.ReadOperand;
    hide Le;
    hide Bc;
    hide Unle;
    var b := ModBytes(inst, disp, rm, r);
    forall k | 0 <= k < |b| ensures f[k] == b[k] { assert f[..|b|][k] == b[k]; }
    if disp == 0 {
      NoDisplacement(rm, r, f);
    } else if Bc(disp) {
      ShortDisplacement(disp, rm, r, f);
    } else {
      assert f[2..6] == b[2..6] == Le(disp);
      LongDisplacement(disp, rm, r, f);
    }
  }

  /** The register operand of the byte (3<<6)|(r<<3)|rm. */
  lemma RegisterOperand(r: Jit.Reg, rm: Jit.Reg, f: seq<Byte>)
    requires |f| == 11 && f[1] == RR(r, rm)
    ensures Processor.ReadOperand(f[1..7]) == Some((r, Processor.Register(rm), 1))
  {
    var x := 192 + 8 * r + rm;
    assert x / 8 == 24 + r && x % 8 == rm;
  }

  /** An operation on an operand and a register, or a load, store or address. */
  predicate Binary(inst: Byte) {
    (inst < 0x40 && (inst % 8 == 1 || inst % 8 == 3)) || inst == Oldw || inst == Ostw || inst == Olea
  }

  function BinaryIs(inst: Byte, o: Processor.Operand, r: Jit.Reg): Instruction
    requires Binary(inst)
  {
    if inst == Oldw then Processor.Move(Processor.Register(r), o)
    else if inst == Ostw then Processor.Move(o, Processor.Register(r))
    else if inst == Olea then Processor.Address(r, o)
    else if inst % 8 == 1 then Processor.Calculate(inst / 8, o, Processor.Register(r))
    else Processor.Calculate(inst / 8, Processor.Register(r), o)
  }

  lemma BinaryDecoded(f: seq<Byte>, inst: Byte, o: Processor.Operand, r: Jit.Reg, n: nat)
    requires |f| == 11 && f[0] == inst && Binary(inst) && (inst == Olea ==> o.At?)
    requires Processor.ReadOperand(f[1..7]) == Some((r, o, n))
    ensures Processor.Decode(f) == Some((BinaryIs(inst, o, r), 1 + n))
  {
    hide Processor.ReadOperand;
    hide Unle;
  }

  /** An operation on an operand and a constant: the number of the operation is in the place of the register. */
  predicate Constant(inst: Byte, r: Jit.Reg) {
    inst == 0x81 || inst == 0x83 || (inst == Omov && r == 0)
  }

  function ConstantIs(inst: Byte, o: Processor.Operand, r: Jit.Reg, w: Words.Word): Instruction {
    if inst == Omov then Processor.Move(o, Processor.Immediate(w)) else Processor.Calculate(r, o, Processor.Immediate(w))
  }

  /** The bytes of the constant. */
  predicate ConstantBytes(inst: Byte, w: Words.Word, c: seq<Byte>) {
    if inst == 0x83 then |c| == 1 && Extended(c[0]) == w else c == Le(w)
  }

  lemma ConstantDecoded(f: seq<Byte>, inst: Byte, o: Processor.Operand, r: Jit.Reg, n: nat, w: Words.Word, c: seq<Byte>)
    requires |f| == 11 && f[0] == inst && Constant(inst, r) && ConstantBytes(inst, w, c) && 1 <= n <= 6
    requires Processor.ReadOperand(f[1..7]) == Some((r, o, n)) && f[1 + n..1 + n + |c|] == c
    ensures Processor.Decode(f) == Some((ConstantIs(inst, o, r, w), 1 + n + |c|))
  {
    hide Processor.ReadOperand;
    hide Unle;
    hide Le;
    hide Extended;
    if inst == 0x83 {
      assert f[1 + n] == f[1 + n..1 + n + |c|][0];
    } else {
      UnleLe(w);
    }
  }

  /** Calls `k` to `k + n` of chunk `i` write one instruction. */
  ghost predicate IsAt(b: Build, m: Memory, i: nat, k: nat, n: nat, instr: Instruction) {
    && i < |b.chunks| && k + n <= |b.chunks[i]| && Here(b, i, k) <= Here(b, i, k + n)
    && Processor.Stands(m, Here(b, i, k), instr, Here(b, i, k + n) - Here(b, i, k))
  }

  lemma StandsFor(m: Memory, a: nat, bytes: seq<Byte>, instr: Instruction)
    requires Processor.Written(m, a, bytes) && |bytes| <= 11
    requires Processor.Fetch(m, a)[..|bytes|] == bytes ==> Processor.Decode(Processor.Fetch(m, a)) == Some((instr, |bytes|))
    ensures Processor.Stands(m, a, instr, |bytes|)
  {
    hide Processor.Decode;
    Processor.FetchWritten(m, a, bytes);
  }

  lemma ModIsAt(b: Build, m: Memory, i: nat, k: nat, inst: Byte, disp: Word, rm: Base, r: Reg)
    requires InMemory(b, m) && i < |b.chunks| && k < |b.chunks[i]| && b.chunks[i][k] == Mod(inst, disp, rm, r) && Binary(inst)
    ensures IsAt(b, m, i, k, 1, BinaryIs(inst, Processor.Operand.At(rm, None, disp), r))
  {
    hide InMemory;
    hide Here;
    hide Len;
    hide ModBytes;
    hide Binary;
    hide BinaryIs;
    hide Processor.Stands;
    hide Processor.Written;
    hide Processor.Decode;
    hide Processor.Fetch;
    var bytes, f := ModBytes(inst, disp, rm, r), Processor.Fetch(m, Here(b, i, k));
    var o := Processor.Operand.At(rm, None, disp);
    PlainWritten(b, m, i, k, bytes);
    HereNext(b, i, k);
    ModSize(inst, disp, rm, r);
    if f[..|bytes|] == bytes {
      ModOperand(inst, disp, rm, r, f);
      BinaryDecoded(f, inst, o, r, |bytes| - 1);
    }
    StandsFor(m, Here(b, i, k), bytes, BinaryIs(inst, o, r));
  }

  lemma ModSize(inst: Byte, disp: Word, rm: Base, r: Reg)
    ensures 2 <= |ModBytes(inst, disp, rm, r)| <= 6
  {
  }

  /** The call after an operation on a constant. */
  predicate IsConstant(it: Item, inst: Byte, w: Word) {
    if inst == 0x83 then it.Raw1? && Extended(it.b) == w else it == GenW(w)
  }

  function ConstantOf(it: Item): seq<Byte> {
    match it
    case Raw1(c) => [c]
    case GenW(w) => Le(w)
    case _ => []
  }

  lemma ConstantIsPlain(it: Item, inst: Byte, w: Word)
    requires IsConstant(it, inst, w)
    ensures Plain(it, ConstantOf(it)) && ConstantBytes(inst, w, ConstantOf(it)) && 1 <= |ConstantOf(it)| <= 4
  {
  }

  lemma ModConstantIsAt(b: Build, m: Memory, i: nat, k: nat, inst: Byte, disp: Word, rm: Base, r: Reg, w: Word)
    requires InMemory(b, m) && i < |b.chunks| && k + 1 < |b.chunks[i]| && b.chunks[i][k] == Mod(inst, disp, rm, r)
    requires Constant(inst, r) && IsConstant(b.chunks[i][k + 1], inst, w)
    ensures IsAt(b, m, i, k, 2, ConstantIs(inst, Processor.Operand.At(rm, None, disp), r, w))
  {
    hide InMemory;
    hide Here;
    hide Len;
    hide ModBytes;
    hide Constant;
    hide ConstantIs;
    hide ConstantBytes;
    hide ConstantOf;
    hide IsConstant;
    hide Processor.Stands;
    hide Processor.Written;
    hide Processor.Decode;
    hide Processor.Fetch;
    var a, c := ModBytes(inst, disp, rm, r), ConstantOf(b.chunks[i][k + 1]);
    var f := Processor.Fetch(m, Here(b, i, k));
    var o := Processor.Operand.At(rm, None, disp);
    ConstantIsPlain(b.chunks[i][k + 1], inst, w);
    PairWritten(b, m, i, k, a, c);
    ModSize(inst, disp, rm, r);
    if f[..|a + c|] == a + c {
      FrontOf(f, a, c);
      ModOperand(inst, disp, rm, r, f);
      ConstantDecoded(f, inst, o, r, |a| - 1, w, c);
    }
    StandsFor(m, Here(b, i, k), a + c, ConstantIs(inst, o, r, w));
  }

  lemma FrontOf(f: seq<Byte>, a: seq<Byte>, c: seq<Byte>)
    requires |a + c| <= |f| && f[..|a + c|] == a + c
    ensures f[..|a|] == a && f[|a|..|a| + |c|] == c
  {
    assert (a + c)[..|a|] == a && (a + c)[|a|..] == c;
    assert f[..|a|] == f[..|a + c|][..|a|] && f[|a|..|a| + |c|] == f[..|a + c|][|a|..];
  }

  lemma RegIsAt(b: Build, m: Memory, i: nat, k: nat, inst: Byte, r: Reg, rm: Reg)
    requires InMemory(b, m) && i < |b.chunks| && k < |b.chunks[i]| && b.chunks[i][k] == Raw2(inst, RR(r, rm)) && Binary(inst) && inst != Olea
    ensures IsAt(b, m, i, k, 1, BinaryIs(inst, Processor.Register(rm), r))
  {
    hide InMemory;
    hide Here;
    hide Len;
    hide RR;
    hide Binary;
    hide BinaryIs;
    hide Processor.Stands;
    hide Processor.Written;
    hide Processor.Decode;
    hide Processor.Fetch;
    var bytes, f := [inst, RR(r, rm)], Processor.Fetch(m, Here(b, i, k));
    PlainWritten(b, m, i, k, bytes);
    HereNext(b, i, k);
    if f[..2] == bytes {
      assert f[0] == bytes[0] && f[1] == bytes[1];
      RegisterOperand(r, rm, f);
      BinaryDecoded(f, inst, Processor.Register(rm), r, 1);
    }
    StandsFor(m, Here(b, i, k), bytes, BinaryIs(inst, Processor.Register(rm), r));
  }

  lemma RegConstantIsAt(b: Build, m: Memory, i: nat, k: nat, inst: Byte, r: Reg, rm: Reg, w: Word)
    requires InMemory(b, m) && i < |b.chunks| && k + 1 < |b.chunks[i]| && b.chunks[i][k] == Raw2(inst, RR(r, rm))
    requires Constant(inst, r) && IsConstant(b.chunks[i][k + 1], inst, w)
    ensures IsAt(b, m, i, k, 2, ConstantIs(inst, Processor.Register(rm), r, w))
  {
    hide InMemory;
    hide Here;
    hide Len;
    hide RR;
    hide Constant;
    hide ConstantIs;
    hide ConstantBytes;
    hide ConstantOf;
    hide IsConstant;
    hide Processor.Stands;
    hide Processor.Written;
    hide Processor.Decode;
    hide Processor.Fetch;
    var a, c := [inst, RR(r, rm)], ConstantOf(b.chunks[i][k + 1]);
    var f := Processor.Fetch(m, Here(b, i, k));
    ConstantIsPlain(b.chunks[i][k + 1], inst, w);
    PairWritten(b, m, i, k, a, c);
    if f[..|a + c|] == a + c {
      FrontOf(f, a, c);
      assert f[0] == f[..2][0] && f[1] == f[..2][1];
      RegisterOperand(r, rm, f);
      ConstantDecoded(f, inst, Processor.Register(rm), r, 1, w, c);
    }
    StandsFor(m, Here(b, i, k), a + c, ConstantIs(inst, Processor.Register(rm), r, w));
  }

  /** con: a zero is the register less itself, bit by bit. */
  function ConIs(o: Word, r: Reg): Instruction {
    if o == 0 then Processor.Calculate(Processor.XOR, Processor.Register(r), Processor.Register(r))
    else Processor.Move(Processor.Register(r), Processor.Immediate(o))
  }

  lemma ConDecoded(o: Word, r: Reg, f: seq<Byte>)
    requires |f| == 11 && if o == 0 then f[0] == Oxor && f[1] == RR(r, r) else f[0] == Omovimm + r && f[1..5] == Le(o)
    ensures Processor.Decode(f) == Some((ConIs(o, r), |ConBytes(o, r)|))
  {
    hide Processor.ReadOperand;
    hide Le;
    hide Unle;
    hide RR;
    if o == 0 {
      RegisterOperand(r, r, f);
    } else {
      UnleLe(o);
    }
  }

  lemma ConIsAt(b: Build, m: Memory, i: nat, k: nat, o: Word, r: Reg)
    requires InMemory(b, m) && i < |b.chunks| && k < |b.chunks[i]| && b.chunks[i][k] == Con(o, r)
    ensures IsAt(b, m, i, k, 1, ConIs(o, r))
  {
    hide InMemory;
    hide Here;
    hide Len;
    hide Le;
    hide RR;
    hide ConIs;
    hide Processor.Stands;
    hide Processor.Written;
    hide Processor.Decode;
    hide Processor.Fetch;
    var c, f := ConBytes(o, r), Processor.Fetch(m, Here(b, i, k));
    PlainWritten(b, m, i, k, c);
    HereNext(b, i, k);
    if f[..|c|] == c {
      forall j | 0 <= j < |c| ensures f[j] == c[j] { assert f[..|c|][j] == c[j]; }
      if o != 0 {
        assert f[1..5] == c[1..5] == Le(o);
      }
      ConDecoded(o, r, f);
    }
    StandsFor(m, Here(b, i, k), c, ConIs(o, r));
  }

  lemma PushIsAt(b: Build, m: Memory, i: nat, k: nat)
    requires InMemory(b, m) && i < |b.chunks| && k < |b.chunks[i]| && b.chunks[i][k] == Raw1(0x56)
    ensures IsAt(b, m, i, k, 1, Processor.Push(Processor.Register(RSI)))
  {
    hide InMemory;
    hide Here;
    hide Processor.Written;
    hide Processor.Fetch;
    var f := Processor.Fetch(m, Here(b, i, k));
    PlainWritten(b, m, i, k, [0x56]);
    HereNext(b, i, k);
    if f[..1] == [0x56] {
      assert f[0] == f[..1][0];
    }
    StandsFor(m, Here(b, i, k), [0x56], Processor.Push(Processor.Register(RSI)));
  }

  // ----- branches

  /** The address that a branch goes to. */
  function TargetAt(b: Build, t: Target): nat
    requires |b.chunks| == b.size + NMACRO && Exists(t, b.size)
  {
    b.base + TargetOff(b.chunks, b.size, t)
  }

  lemma BranchWritten(b: Build, m: Memory, i: nat, k: nat) returns (w: seq<Byte>)
    requires InMemory(b, m) && |b.chunks| == b.size + NMACRO && i < |b.chunks| && k < |b.chunks[i]|
    requires b.chunks[i][k].Branch? && Exists(b.chunks[i][k].t, b.size)
    ensures |w| == 4 && Processor.Written(m, Here(b, i, k), [b.chunks[i][k].op] + w)
    ensures (Here(b, i, k + 1) % M32 + Unle(w)) % M32 == TargetAt(b, b.chunks[i][k].t) % M32
    ensures Here(b, i, k + 1) == Here(b, i, k) + 5
  {
    hide ItemBytes;
    hide Unle;
    hide Off;
    hide At;
    hide TargetOff;
    hide JitCompile.Compiled;
    BranchLands(b.env, b.chunks, b.size, b.base, b.n, b.image, b.pool, i, k);
    HereNext(b, i, k);
    var p := At(b.chunks, i, k);
    w := b.image[p + 1..p + 5];
    assert m.code[p..p + 5] == [b.chunks[i][k].op] + w;
    Wraps2(b.base + p + 5, Unle(w));
  }

  lemma JumpIsAt(b: Build, m: Memory, i: nat, k: nat, t: Target) returns (disp: int)
    requires InMemory(b, m) && |b.chunks| == b.size + NMACRO && i < |b.chunks| && k < |b.chunks[i]|
    requires b.chunks[i][k] == Branch(t, Ojmp) && Exists(t, b.size)
    ensures IsAt(b, m, i, k, 1, Processor.Branch(disp))
    ensures (Here(b, i, k + 1) % M32 + disp) % M32 == TargetAt(b, t) % M32
  {
    hide InMemory;
    hide Here;
    hide Unle;
    hide TargetAt;
    hide Processor.Written;
    hide Processor.Fetch;
    var w := BranchWritten(b, m, i, k);
    var f, c := Processor.Fetch(m, Here(b, i, k)), [Ojmp] + w;
    disp := Unle(w);
    if f[..5] == c {
      forall j | 0 <= j < 5 ensures f[j] == c[j] { assert f[..5][j] == c[j]; }
      assert f[1..5] == c[1..5] == w;
    }
    StandsFor(m, Here(b, i, k), c, Processor.Branch(disp));
  }

  /** A conditional branch is two calls. */
  lemma ConditionIsAt(b: Build, m: Memory, i: nat, k: nat, t: Target, c: nat) returns (disp: int)
    requires InMemory(b, m) && |b.chunks| == b.size + NMACRO && i < |b.chunks| && k + 1 < |b.chunks[i]| && c < 16
    requires b.chunks[i][k] == Raw1(0x0f) && b.chunks[i][k + 1] == Branch(t, 0x80 + c) && Exists(t, b.size)
    ensures IsAt(b, m, i, k, 2, Processor.BranchIf(c, disp))
    ensures (Here(b, i, k + 2) % M32 + disp) % M32 == TargetAt(b, t) % M32
  {
    hide InMemory;
    hide Here;
    hide Unle;
    hide TargetAt;
    hide Processor.Written;
    hide Processor.Fetch;
    PlainWritten(b, m, i, k, [0x0f]);
    HereNext(b, i, k);
    var w := BranchWritten(b, m, i, k + 1);
    var d: seq<Byte> := [0x80 + c] + w;
    Processor.WrittenTogether(m, Here(b, i, k), [0x0f], d);
    var f, all := Processor.Fetch(m, Here(b, i, k)), [0x0f] + d;
    disp := Unle(w);
    if f[..6] == all {
      forall j | 0 <= j < 6 ensures f[j] == all[j] { assert f[..6][j] == all[j]; }
      assert f[2..6] == all[2..6] == w;
    }
    StandsFor(m, Here(b, i, k), all, Processor.BranchIf(c, disp));
  }

  // ----- executing them

  /** Calls `k` to `k + n` of chunk `i` write one instruction: it is executed. */
  lemma Run(b: Build, m: Memory, i: nat, k: nat, n: nat, instr: Instruction, s0: Cpu, s1: Cpu) returns (s: Cpu)
    requires IsAt(b, m, i, k, n, instr) && Processor.Runs(m, s0, s1) && s1.pc == Here(b, i, k)
    requires Processor.Do(s1, instr, Here(b, i, k + n) % M32).Some?
    ensures Processor.Runs(m, s0, s) && s == Processor.Do(s1, instr, Here(b, i, k + n) % M32).value
  {
    hide Here;
    hide Processor.Do;
    hide Processor.Stands;
    hide Processor.Runs;
    s := Processor.Next(m, s0, s1, instr, Here(b, i, k + n) - Here(b, i, k));
  }

  // ----- Dis operands

  /** The address of an operand; SI holds the frame pointer and DI the module pointer. */
  function Where(o: Operand, s: Cpu): Option<Word> {
    match o
    case InFP(ind) => Some((s.r.si + ind) % M32)
    case InMP(ind) => Some((s.r.di + ind) % M32)
    case IndFP(f, d) => var a := (s.r.si + f) % M32; if a in s.data then Some((s.data[a] + d) % M32) else None
    case IndMP(f, d) => var a := (s.r.di + f) % M32; if a in s.data then Some((s.data[a] + d) % M32) else None
    case _ => None
  }

  /** Its value, if it is a word of memory or a constant. */
  function ValueOf(o: Operand, s: Cpu): Option<Word> {
    if o.Imm? then Some(o.imm)
    else if Where(o, s).Some? && Where(o, s).value in s.data then Some(s.data[Where(o, s).value])
    else None
  }

  /** The calls stand in the list from `k` on. */
  predicate From(items: seq<Item>, k: nat, calls: seq<Item>) {
    k + |calls| <= |items| && items[k..k + |calls|] == calls
  }

  lemma FromAt(items: seq<Item>, k: nat, calls: seq<Item>, j: nat)
    requires From(items, k, calls) && j < |calls|
    ensures k + j < |items| && items[k + j] == calls[j]
  {
    assert items[k + j] == items[k..k + |calls|][j];
  }

  /** The register that a pointer is loaded into. */
  function PointerReg(mi: Byte, r: Reg): Reg { if mi == Olea then r else RTA }

  /** The state but for the program counter, the flags and one register. */
  predicate Except(s: Cpu, t: Cpu, k: nat)
    requires Processor.Named(k)
  {
    t == s.(pc := t.pc, flags := t.flags, r := Processor.Put(s.r, k, Processor.Get(t.r, k)))
  }

  /** The calls for an operand in memory, up to the last, which names it. */
  lemma RunPointer(b: Build, m: Memory, i: nat, k: nat, o: Operand, mi: Byte, r: Reg, s0: Cpu, s1: Cpu)
    returns (s: Cpu, disp: Word, rm: Base)
    requires InMemory(b, m) && i < |b.chunks| && (mi == Olea ==> r != 4 && r != 5) && !o.Imm?
    requires Access(o, mi, r).Some? && From(b.chunks[i], k, Access(o, mi, r).value)
    requires Processor.Runs(m, s0, s1) && s1.pc == Here(b, i, k) && Where(o, s1).Some?
    ensures var last := k + |Access(o, mi, r).value| - 1;
      && |Access(o, mi, r).value| >= 1 && last < |b.chunks[i]| && b.chunks[i][last] == Mod(mi, disp, rm, r)
      && s.pc == Here(b, i, last) && Processor.Runs(m, s0, s) && Except(s1, s, PointerReg(mi, r)) && s.flags == s1.flags
    ensures Processor.Addresses(Processor.Operand.At(rm, None, disp))
    ensures Processor.AddressOf(Processor.Operand.At(rm, None, disp), s.r) == Where(o, s1).value
  {
    hide InMemory;
    hide Here;
    hide IsAt;
    hide Processor.Runs;
    var calls := Access(o, mi, r).value;
    FromAt(b.chunks[i], k, calls, 0);
    if o.InFP? || o.InMP? {
      s, disp, rm := s1, o.ind, if o.InFP? then RFP else RMP;
    } else {
      FromAt(b.chunks[i], k, calls, 1);
      var pr := PointerReg(mi, r);
      var base := if o.IndFP? then RFP else RMP;
      ModIsAt(b, m, i, k, Oldw, o.f, base, pr);
      HereSmall(b, m, i, k + 1);
      s := Run(b, m, i, k, 1, Processor.Move(Processor.Register(pr), Processor.Operand.At(base, None, o.f)), s0, s1);
      disp, rm := o.s, pr;
    }
  }

  /** After the calls for an operand, `k` later. */
  predicate AtEnd(b: Build, i: nat, k: nat, s: Cpu) {
    i < |b.chunks| && k <= |b.chunks[i]| && s.pc == Here(b, i, k) % M32
  }

  /** Loading an operand: constant, or word of memory. */
  lemma RunLoad(b: Build, m: Memory, i: nat, k: nat, o: Operand, r: Reg, s0: Cpu, s1: Cpu) returns (s: Cpu)
    requires InMemory(b, m) && i < |b.chunks| && r != 4 && Access(o, Oldw, r).Some? && From(b.chunks[i], k, Access(o, Oldw, r).value)
    requires Processor.Runs(m, s0, s1) && s1.pc == Here(b, i, k) && ValueOf(o, s1).Some?
    ensures Processor.Runs(m, s0, s) && AtEnd(b, i, k + |Access(o, Oldw, r).value|, s)
    ensures s == s1.(pc := s.pc, flags := s.flags, r := Processor.Put(s1.r.(dx := s.r.dx), r, ValueOf(o, s1).value))
  {
    hide InMemory;
    hide Here;
    hide IsAt;
    hide Processor.Runs;
    hide Xor;
    if o.Imm? {
      FromAt(b.chunks[i], k, Access(o, Oldw, r).value, 0);
      ConIsAt(b, m, i, k, o.imm, r);
      Processor.XorSelf(Processor.Get(s1.r, r));
      s := Run(b, m, i, k, 1, ConIs(o.imm, r), s0, s1);
    } else {
      var t, disp, rm := RunPointer(b, m, i, k, o, Oldw, r, s0, s1);
      hide Access;
      var last := k + |Access(o, Oldw, r).value| - 1;
      ModIsAt(b, m, i, last, Oldw, disp, rm, r);
      s := Run(b, m, i, last, 1, Processor.Move(Processor.Register(r), Processor.Operand.At(rm, None, disp)), s0, t);
    }
  }

  /** The address of an operand. */
  lemma RunLea(b: Build, m: Memory, i: nat, k: nat, o: Operand, r: Reg, s0: Cpu, s1: Cpu) returns (s: Cpu)
    requires InMemory(b, m) && i < |b.chunks| && r != 4 && r != 5 && !o.Imm? && Access(o, Olea, r).Some?
    requires From(b.chunks[i], k, Access(o, Olea, r).value)
    requires Processor.Runs(m, s0, s1) && s1.pc == Here(b, i, k) && Where(o, s1).Some?
    ensures Processor.Runs(m, s0, s) && AtEnd(b, i, k + |Access(o, Olea, r).value|, s)
    ensures s == s1.(pc := s.pc, r := Processor.Put(s1.r, r, Where(o, s1).value))
  {
    hide InMemory;
    hide Here;
    hide IsAt;
    hide Processor.Runs;
    var t, disp, rm := RunPointer(b, m, i, k, o, Olea, r, s0, s1);
    hide Access;
    var last := k + |Access(o, Olea, r).value| - 1;
    ModIsAt(b, m, i, last, Olea, disp, rm, r);
    s := Run(b, m, i, last, 1, Processor.Address(r, Processor.Operand.At(rm, None, disp)), s0, t);
  }

  /** Storing AX. */
  lemma RunStore(b: Build, m: Memory, i: nat, k: nat, o: Operand, s0: Cpu, s1: Cpu) returns (s: Cpu)
    requires InMemory(b, m) && i < |b.chunks| && !o.Imm? && Access(o, Ostw, RAX).Some? && From(b.chunks[i], k, Access(o, Ostw, RAX).value)
    requires Processor.Runs(m, s0, s1) && s1.pc == Here(b, i, k) && Where(o, s1).Some? && Where(o, s1).value in s1.data
    ensures Processor.Runs(m, s0, s) && AtEnd(b, i, k + |Access(o, Ostw, RAX).value|, s)
    ensures s == s1.(pc := s.pc, r := s1.r.(dx := s.r.dx), data := s1.data[Where(o, s1).value := s1.r.ax])
  {
    hide InMemory;
    hide Here;
    hide IsAt;
    hide Processor.Runs;
    var t, disp, rm := RunPointer(b, m, i, k, o, Ostw, RAX, s0, s1);
    hide Access;
    var last := k + |Access(o, Ostw, RAX).value| - 1;
    ModIsAt(b, m, i, last, Ostw, disp, rm, RAX);
    s := Run(b, m, i, last, 1, Processor.Move(Processor.Operand.At(rm, None, disp), Processor.Register(RAX)), s0, t);
  }

  /** An operation of AX with an operand; the result goes to AX, or to the operand, or only to the flags. */
  lemma RunBinary(b: Build, m: Memory, i: nat, k: nat, o: Operand, mi: Byte, s0: Cpu, s1: Cpu) returns (s: Cpu)
    requires InMemory(b, m) && i < |b.chunks| && !o.Imm? && mi < 0x40 && (mi % 8 == 1 || mi % 8 == 3)
    requires Access(o, mi, RAX).Some? && From(b.chunks[i], k, Access(o, mi, RAX).value)
    requires Processor.Runs(m, s0, s1) && s1.pc == Here(b, i, k) && Where(o, s1).Some? && Where(o, s1).value in s1.data
    requires Calculates(mi, s1, s1.data[Where(o, s1).value]).Some?
    ensures Processor.Runs(m, s0, s) && AtEnd(b, i, k + |Access(o, mi, RAX).value|, s)
    ensures var r := Calculates(mi, s1, s1.data[Where(o, s1).value]).value;
      s == s1.(pc := s.pc, flags := r.1, r := if mi / 8 != Processor.CMP && mi % 8 == 3 then s1.r.(dx := s.r.dx, ax := r.0) else s1.r.(dx := s.r.dx),
               data := if mi / 8 != Processor.CMP && mi % 8 == 1 then s1.data[Where(o, s1).value := r.0] else s1.data)
  {
    hide InMemory;
    hide Here;
    hide IsAt;
    hide Processor.Runs;
    hide Processor.Calculated;
    var t, disp, rm := RunPointer(b, m, i, k, o, mi, RAX, s0, s1);
    hide Access;
    var last := k + |Access(o, mi, RAX).value| - 1;
    ModIsAt(b, m, i, last, mi, disp, rm, RAX);
    s := Run(b, m, i, last, 1, BinaryIs(mi, Processor.Operand.At(rm, None, disp), RAX), s0, t);
  }

  /** What such an operation gives: the operand is on the left if it is changed, and for a comparison. */
  function Calculates(mi: Byte, s: Cpu, w: Word): Option<(Word, Processor.Flags)> {
    if mi % 8 == 1 then Processor.Calculated(mi / 8, w, s.r.ax, s.flags) else Processor.Calculated(mi / 8, s.r.ax, w, s.flags)
  }

  /** An operation of an operand in memory with a constant. */
  lemma RunConstant(b: Build, m: Memory, i: nat, k: nat, o: Operand, inst: Byte, op: Reg, w: Word, s0: Cpu, s1: Cpu) returns (s: Cpu)
    requires InMemory(b, m) && i < |b.chunks| && !o.Imm? && Constant(inst, op) && Access(o, inst, op).Some?
    requires From(b.chunks[i], k, Access(o, inst, op).value)
    requires var n := k + |Access(o, inst, op).value|; n < |b.chunks[i]| && IsConstant(b.chunks[i][n], inst, w)
    requires Processor.Runs(m, s0, s1) && s1.pc == Here(b, i, k) && Where(o, s1).Some? && Where(o, s1).value in s1.data
    requires inst == Omov || Processor.Calculated(op, s1.data[Where(o, s1).value], w, s1.flags).Some?
    ensures Processor.Runs(m, s0, s) && AtEnd(b, i, k + |Access(o, inst, op).value| + 1, s)
    ensures var a := Where(o, s1).value;
      if inst == Omov then s == s1.(pc := s.pc, r := s1.r.(dx := s.r.dx), data := s1.data[a := w])
      else
        var r := Processor.Calculated(op, s1.data[a], w, s1.flags).value;
        s == s1.(pc := s.pc, flags := r.1, r := s1.r.(dx := s.r.dx), data := if op == Processor.CMP then s1.data else s1.data[a := r.0])
  {
    hide InMemory;
    hide Here;
    hide IsAt;
    hide IsConstant;
    hide Processor.Runs;
    hide Processor.Calculated;
    var t, disp, rm := RunPointer(b, m, i, k, o, inst, op, s0, s1);
    hide Access;
    var last := k + |Access(o, inst, op).value| - 1;
    ModConstantIsAt(b, m, i, last, inst, disp, rm, op, w);
    s := Run(b, m, i, last, 2, ConstantIs(inst, Processor.Operand.At(rm, None, disp), op, w), s0, t);
  }

  /** The constant of an arithmetic instruction, in one byte or four. */
  lemma ImmIsConstant(w: Word)
    ensures IsConstant(ImmItem(w), ImmOp(w), w)
  {
    hide Extended;
    if Bc(w) {
      SignExtended(w);
    }
  }

  // ----- the code of an instruction, part by part

  /** Chunk `i` is the code of an instruction. */
  predicate CodeOf(b: Build, g: Config, inst: Inst, i: nat) {
    i < b.size && |b.chunks| == b.size + NMACRO && Comp(g, inst, i) == Some(b.chunks[i])
  }

  lemma CodeIs(b: Build, g: Config, inst: Inst, i: nat, parts: seq<Items>)
    requires CodeOf(b, g, inst, i) && CompParts(g, inst, i) == parts
    ensures i < |b.chunks| && All(parts) == Some(b.chunks[i])
  {
    hide CompParts;
    hide All;
  }

  /** Where the code of instruction `i` begins. */
  function Begin(b: Build, i: nat): nat
    requires i <= |b.chunks|
  {
    b.base + Off(b.chunks, i)
  }

  lemma EndOf(b: Build, i: nat)
    requires i < |b.chunks|
    ensures Here(b, i, |b.chunks[i]|) == Begin(b, i + 1) && Here(b, i, 0) == Begin(b, i)
  {
    hide Sum;
    var items := b.chunks[i];
    assert items[..|items|] == items;
    assert items[..0] == [] && Sum([]) == 0 by { SumNone(); }
  }

  lemma SumNone()
    ensures Sum([]) == 0
  {
  }

  lemma AllOne(a: seq<Item>)
    ensures All([Some(a)]) == Some(a)
  {
    assert [Some(a)][1..] == [];
    assert a + [] == a;
  }

  lemma AllTwo(a: seq<Item>, b: seq<Item>)
    ensures All([Some(a), Some(b)]) == Some(a + b)
  {
    var parts := [Some(a), Some(b)];
    assert parts[1..] == [Some(b)];
    AllOne(b);
  }

  lemma AllThree(a: seq<Item>, b: seq<Item>, c: seq<Item>)
    ensures All([Some(a), Some(b), Some(c)]) == Some(a + b + c)
  {
    var parts := [Some(a), Some(b), Some(c)];
    assert parts[1..] == [Some(b), Some(c)];
    AllTwo(b, c);
    assert a + (b + c) == a + b + c;
  }

  lemma AllSome(parts: seq<Items>)
    requires All(parts).Some?
    ensures NoneMissing(parts)
  {
    if parts != [] {
      AllSome(parts[1..]);
      forall j | 0 <= j < |parts| ensures parts[j].Some? { assert j > 0 ==> parts[j] == parts[1..][j - 1]; }
    }
  }

  /** Two parts and where they stand. */
  lemma TwoParts(items: seq<Item>, a: Items, b: Items)
    requires All([a, b]) == Some(items)
    ensures a.Some? && b.Some? && From(items, 0, a.value) && From(items, |a.value|, b.value) && |items| == |a.value| + |b.value|
  {
    var parts := [a, b];
    AllSome(parts);
    assert parts[0].Some? && parts[1].Some?;
    AllTwo(a.value, b.value);
  }

  lemma ThreeParts(items: seq<Item>, a: Items, b: Items, c: Items)
    requires All([a, b, c]) == Some(items)
    ensures a.Some? && b.Some? && c.Some? && From(items, 0, a.value) && From(items, |a.value|, b.value)
    ensures From(items, |a.value| + |b.value|, c.value) && |items| == |a.value| + |b.value| + |c.value|
  {
    var parts := [a, b, c];
    AllSome(parts);
    assert parts[0].Some? && parts[1].Some? && parts[2].Some?;
    AllThree(a.value, b.value, c.value);
  }

  lemma FourParts(items: seq<Item>, a: Items, b: Items, c: Items, d: Items)
    requires All([a, b, c, d]) == Some(items)
    ensures a.Some? && b.Some? && c.Some? && d.Some? && From(items, 0, a.value) && From(items, |a.value|, b.value)
    ensures From(items, |a.value| + |b.value|, c.value) && From(items, |a.value| + |b.value| + |c.value|, d.value)
    ensures |items| == |a.value| + |b.value| + |c.value| + |d.value|
  {
    var parts := [a, b, c, d];
    AllSome(parts);
    assert parts[0].Some? && parts[1].Some? && parts[2].Some? && parts[3].Some?;
    assert parts[1..] == [b, c, d];
    AllThree(b.value, c.value, d.value);
    assert a.value + (b.value + c.value + d.value) == a.value + b.value + c.value + d.value;
  }
}
