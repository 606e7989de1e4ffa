/**
  The two passes of `compile` (libinterp/comp-386.c).  Pass 0 measures the code of each instruction and macro in a scratch
  buffer; pass 1 writes it in place, using the offsets of pass 0.  Nothing checks at run time that the two agree.
 */
module JitLayout {
  import opened Wrappers
  import opened Words
  import opened Jit

  // ----- what the emitters write

  /** The bytes of a word, low byte first. */
  function Le(w: Word): (b: seq<Byte>)
    ensures |b| == 4
  {
    [w % 256, w / 256 % 256, w / 65536 % 256, w / 16777216]
  }

  lemma UnleLe(w: Word)
    ensures Unle(Le(w)) == w
  {
    assert w / 256 / 256 == w / 65536 && w / 65536 / 256 == w / 16777216;
  }

  function ModBytes(inst: Byte, disp: Word, rm: nat, r: nat): seq<Byte> {
    if disp == 0 then [inst, (8 * r + rm) % 256]
    else if Bc(disp) then [inst, (64 + 8 * r + rm) % 256, disp % 256]
    else [inst, (128 + 8 * r + rm) % 256] + Le(disp)
  }

  /** An instruction with a memory operand, as the processor reads it: instruction, displacement, base register and
      register, where the base is none that means something else. */
  datatype MemOp = MemOp(inst: Byte, disp: Word, rm: nat, r: nat)

  /** Decode the bytes of such an instruction: the mod field says whether there is no displacement, a sign-extended byte
      or a word. */
  function ReadMod(b: seq<Byte>): Option<MemOp> {
    if |b| < 2 then None
    else
      var mode, r, rm := b[1] / 64, b[1] / 8 % 8, b[1] % 8;
      if mode == 0 && |b| == 2 then Some(MemOp(b[0], 0, rm, r))
      else if mode == 1 && |b| == 3 then Some(MemOp(b[0], Extended(b[2]), rm, r))
      else if mode == 2 && |b| == 6 then Some(MemOp(b[0], Unle(b[2..6]), rm, r))
      else None
  }

  lemma ModFields(mode: nat, r: Reg, rm: Reg)
    requires mode < 3
    ensures var x := 64 * mode + 8 * r + rm; x < 256 && x / 64 == mode && x / 8 % 8 == r && x % 8 == rm
  {
    var x := 64 * mode + 8 * r + rm;
    assert x / 8 == 8 * mode + r;
  }

  lemma SignExtended(disp: Word)
    requires Bc(disp)
    ensures Extended(disp % 256) == disp
  {
    if disp > M32 - 128 {
      assert disp == 256 * (M32 / 256 - 1) + (disp - (M32 - 256));
    }
  }

  lemma ReadNone(inst: Byte, rm: Reg, r: Reg)
    ensures ReadMod([inst, (8 * r + rm) % 256]) == Some(MemOp(inst, 0, rm, r))
  {
    ModFields(0, r, rm);
  }

  lemma ReadByte(inst: Byte, d: Byte, rm: Reg, r: Reg)
    ensures ReadMod([inst, (64 + 8 * r + rm) % 256, d]) == Some(MemOp(inst, Extended(d), rm, r))
  {
    ModFields(1, r, rm);
  }

  lemma ReadWord(inst: Byte, disp: Word, rm: Reg, r: Reg)
    ensures ReadMod([inst, (128 + 8 * r + rm) % 256] + Le(disp)) == Some(MemOp(inst, disp, rm, r))
  {
    hide Le;
    hide Unle;
    ModFields(2, r, rm);
    var b := [inst, (128 + 8 * r + rm) % 256] + Le(disp);
    assert b[2..6] == Le(disp);
    UnleLe(disp);
  }

  /** Whichever form modrm picks, the processor reads its arguments back. */
  lemma ModReadsBack(inst: Byte, disp: Word, rm: Base, r: Reg)
    ensures ReadMod(ModBytes(inst, disp, rm, r)) == Some(MemOp(inst, disp, rm, r))
  {
    hide ReadMod;
    hide Le;
    hide Bc;
    if disp == 0 {
      ReadNone(inst, rm, r);
    } else if Bc(disp) {
      ReadByte(inst, disp % 256, rm, r);
      SignExtended(disp);
    } else {
      ReadWord(inst, disp, rm, r);
    }
  }

  function ConBytes(o: Word, r: nat): seq<Byte> {
    if o == 0 then [Oxor, RR(r, r)] else [(Omovimm + r) % 256] + Le(o)
  }

  /** What differs between the passes: where the code will be, and the offsets of instructions and macros. */
  datatype Env = Env(base: Word, patch: seq<Word>, macro: seq<Word>)

  function Offset(env: Env, t: Target): Word {
    match t
    case Dis(i) => if i < |env.patch| then env.patch[i] else 0
    case Macro(m) => if m < |env.macro| then env.macro[m] else 0
  }

  /** The length of an item. */
  function Len(it: Item): nat {
    match it
    case Raw1(_) => 1
    case Raw2(_, _) => 2
    case GenW(_) => 4
    case Mod(_, disp, _, _) => if disp == 0 then 2 else if Bc(disp) then 3 else 6
    case Con(o, _) => if o == 0 then 2 else 5
    case ConHere(_) => 5
    case Bra(_, _) => 5
    case Branch(_, _) => 5
    case PcWord(_) => 4
    case Literal(_, roff) => 5 + (if roff == 0 then 2 else if Bc(roff) then 3 else 6)
    case LiteralPc(_, roff) => 5 + (if roff == 0 then 2 else if Bc(roff) then 3 else 6)
    case Short(_, _) => 2
  }

  function Sum(items: seq<Item>): nat {
    if items == [] then 0 else Sum(items[..|items| - 1]) + Len(items[|items| - 1])
  }

  predicate IsLit(it: Item) { it.Literal? || it.LiteralPc? }

  /** The number of literals. */
  function Lits(items: seq<Item>): nat {
    if items == [] then 0 else Lits(items[..|items| - 1]) + if IsLit(items[|items| - 1]) then 1 else 0
  }

  /** The displacement from the end of item `k` to item `k + 1 + n`. */
  function Distance(items: seq<Item>, k: nat, n: int): int
    requires k < |items|
  {
    if 0 <= k + 1 + n <= |items| then Sum(items[..k + 1 + n]) - Sum(items[..k + 1]) else 0
  }

  /** What item `k` writes at address `addr`, the next literal going to `lit`. */
  function ItemBytes(env: Env, items: seq<Item>, k: nat, addr: Word, lit: Word): seq<Byte>
    requires k < |items|
  {
    match items[k]
    case Raw1(b) => [b]
    case Raw2(b1, b2) => [b1, b2]
    case GenW(w) => Le(w)
    case Mod(inst, disp, rm, r) => ModBytes(inst, disp, rm, r)
    case Con(o, r) => ConBytes(o, r)
    case ConHere(r) => ConBytes((addr - 4) % M32, r)
    case Bra(fn, op) => [op] + Le((fn - (addr + 5)) % M32)
    case Branch(t, op) => [op] + Le((Offset(env, t) + env.base - (addr + 5)) % M32)
    case PcWord(i) => Le((env.base + Offset(env, Dis(i))) % M32)
    case Literal(_, roff) => [Omovimm] + Le(lit) + ModBytes(Ostw, roff, RTMP, RAX)
    case LiteralPc(_, roff) => [Omovimm] + Le(lit) + ModBytes(Ostw, roff, RTMP, RAX)
    case Short(op, n) => [op, Distance(items, k, n) % 256]
  }

  /** The value a literal puts into the pool. */
  function LitValue(env: Env, it: Item): Word {
    match it
    case Literal(imm, _) => imm
    case LiteralPc(i, _) => (env.base + Offset(env, Dis(i))) % M32
    case _ => 0
  }

  /** An item's length does not depend on base, offsets, literal pool or address; with one exception, the constant that is
      its own address less 4, which is shorter if that is 0. */
  lemma LengthFixed(env: Env, items: seq<Item>, k: nat, addr: Word, lit: Word)
    requires k < |items|
    ensures |ItemBytes(env, items, k, addr, lit)| == Len(items[k]) <==> !(items[k].ConHere? && addr == 4)
  {
    hide Distance;
    hide Offset;
    if items[k].ConHere? {
      ConHereLength(items[k].r, addr);
    }
    hide ConBytes;
  }

  lemma ConHereLength(r: Reg, addr: Word)
    ensures |ConBytes((addr - 4) % M32, r)| == 5 <==> addr != 4
  {
  }

  /** The code of the first `k` items, from address `addr`; in pass 0 the literal pool does not advance (`step` is 0). */
  function Code(env: Env, items: seq<Item>, k: nat, addr: nat, lit: nat, step: nat): seq<Byte>
    requires k <= |items|
  {
    if k == 0 then []
    else
      var c := Code(env, items, k - 1, addr, lit, step);
      c + ItemBytes(env, items, k - 1, (addr + |c|) % M32, (lit + step * Lits(items[..k - 1])) % M32)
  }

  lemma SumStep(items: seq<Item>, k: nat)
    requires k < |items|
    ensures Sum(items[..k + 1]) == Sum(items[..k]) + Len(items[k])
    ensures Lits(items[..k + 1]) == Lits(items[..k]) + if IsLit(items[k]) then 1 else 0
  {
    assert items[..k + 1][..k] == items[..k];
  }

  lemma {:induction false} SumMonotone(items: seq<Item>, j: nat, k: nat)
    requires j <= k <= |items|
    ensures Sum(items[..j]) <= Sum(items[..k]) && Lits(items[..j]) <= Lits(items[..k])
  {
    if j < k {
      SumMonotone(items, j, k - 1);
      SumStep(items, k - 1);
    }
  }

  /** The place of code in memory: above address 4, and below the end of the address space. */
  predicate Placed(addr: nat, items: seq<Item>) {
    4 < addr && addr + Sum(items) <= M32
  }

  lemma CodeStep(env: Env, items: seq<Item>, k: nat, addr: nat, lit: nat, step: nat)
    requires k < |items|
    ensures var c := Code(env, items, k, addr, lit, step);
      Code(env, items, k + 1, addr, lit, step) == c + ItemBytes(env, items, k, (addr + |c|) % M32, (lit + step * Lits(items[..k])) % M32)
  {
    hide ItemBytes;
    hide Lits;
  }

  /** The measured length is the length, in either pass and wherever the code is. */
  lemma {:induction false} CodeLength(env: Env, items: seq<Item>, k: nat, addr: nat, lit: nat, step: nat)
    requires k <= |items| && Placed(addr, items)
    ensures |Code(env, items, k, addr, lit, step)| == Sum(items[..k])
  {
    hide ItemBytes;
    hide Lits;
    if k == 0 {
      assert items[..0] == [];
    } else {
      CodeLength(env, items, k - 1, addr, lit, step);
      CodeStep(env, items, k - 1, addr, lit, step);
      SumStep(items, k - 1);
      SumMonotone(items, k, |items|);
      assert items[..|items|] == items;
      hide Code;
      hide Sum;
      LengthFixed(env, items, k - 1, (addr + Sum(items[..k - 1])) % M32, (lit + step * Lits(items[..k - 1])) % M32);
    }
  }

  // ----- the whole program

  /** The calls for all instructions and then the macros; None if some instruction cannot be compiled. */
  function Instructions(g: Config, prog: seq<Inst>, n: nat): Option<seq<seq<Item>>>
    requires n <= |prog|
  {
    if n == 0 then Some([])
    else
      var before, last := Instructions(g, prog, n - 1), Comp(g, prog[n - 1], n - 1);
      if before.None? || last.None? then None else Some(before.value + [last.value])
  }

  /** The offset of chunk `i`, and the number of literals before it. */
  function Off(chunks: seq<seq<Item>>, i: nat): nat
    requires i <= |chunks|
  {
    if i == 0 then 0 else Off(chunks, i - 1) + Sum(chunks[i - 1])
  }

  function LitsBefore(chunks: seq<seq<Item>>, i: nat): nat
    requires i <= |chunks|
  {
    if i == 0 then 0 else LitsBefore(chunks, i - 1) + Lits(chunks[i - 1])
  }

  function Round4(n: nat): nat { (n + 3) / 4 * 4 }

  /** The finished code, from `base` on, with the literal pool at `lit`. */
  function Image(env: Env, chunks: seq<seq<Item>>, i: nat, lit: nat): seq<Byte>
    requires i <= |chunks|
  {
    if i == 0 then []
    else
      Image(env, chunks, i - 1, lit)
      + Code(env, chunks[i - 1], |chunks[i - 1]|, env.base + Off(chunks, i - 1), lit + 4 * LitsBefore(chunks, i - 1), 4)
  }

  function ChunkPool(env: Env, items: seq<Item>, k: nat): seq<Word>
    requires k <= |items|
  {
    if k == 0 then [] else ChunkPool(env, items, k - 1) + if IsLit(items[k - 1]) then [LitValue(env, items[k - 1])] else []
  }

  /** The literals, in order. */
  function Pool(env: Env, chunks: seq<seq<Item>>, i: nat): seq<Word>
    requires i <= |chunks|
  {
    if i == 0 then [] else Pool(env, chunks, i - 1) + ChunkPool(env, chunks[i - 1], |chunks[i - 1]|)
  }

  predicate Fits(base: nat, chunks: seq<seq<Item>>) {
    4 < base && base + Round4(Off(chunks, |chunks|)) + 4 * LitsBefore(chunks, |chunks|) <= M32
  }

  lemma {:induction false} OffMonotone(chunks: seq<seq<Item>>, i: nat, j: nat)
    requires i <= j <= |chunks|
    ensures Off(chunks, i) <= Off(chunks, j) && LitsBefore(chunks, i) <= LitsBefore(chunks, j)
  {
    if i < j {
      OffMonotone(chunks, i, j - 1);
    }
  }

  lemma ChunkPlaced(base: nat, chunks: seq<seq<Item>>, i: nat)
    requires Fits(base, chunks) && i < |chunks|
    ensures Placed(base + Off(chunks, i), chunks[i])
  {
    OffMonotone(chunks, i + 1, |chunks|);
  }

  lemma ImageStep(env: Env, chunks: seq<seq<Item>>, i: nat, lit: nat)
    requires i < |chunks|
    ensures Image(env, chunks, i + 1, lit)
            == Image(env, chunks, i, lit)
               + Code(env, chunks[i], |chunks[i]|, env.base + Off(chunks, i), lit + 4 * LitsBefore(chunks, i), 4)
  {
    hide Code;
    hide Off;
    hide LitsBefore;
  }

  lemma ImageNone(env: Env, chunks: seq<seq<Item>>, lit: nat)
    ensures Image(env, chunks, 0, lit) == [] && Off(chunks, 0) == 0
  {
  }

  lemma OffStep(chunks: seq<seq<Item>>, i: nat)
    requires i < |chunks|
    ensures Off(chunks, i + 1) == Off(chunks, i) + Sum(chunks[i])
  {
    hide Sum;
  }

  lemma {:induction false} ImageLength(env: Env, chunks: seq<seq<Item>>, i: nat, lit: nat)
    requires i <= |chunks| && Fits(env.base, chunks)
    ensures |Image(env, chunks, i, lit)| == Off(chunks, i)
  {
    hide *;
    if i == 0 {
      ImageNone(env, chunks, lit);
    } else {
      ImageLength(env, chunks, i - 1, lit);
      ImageStep(env, chunks, i - 1, lit);
      OffStep(chunks, i - 1);
      ChunkPlaced(env.base, chunks, i - 1);
      var c := chunks[i - 1];
      assert c[..|c|] == c;
      CodeLength(env, c, |c|, env.base + Off(chunks, i - 1), lit + 4 * LitsBefore(chunks, i - 1), 4);
    }
  }

  lemma {:induction false} ChunkPoolLength(env: Env, items: seq<Item>, k: nat)
    requires k <= |items|
    ensures |ChunkPool(env, items, k)| == Lits(items[..k])
  {
    if k > 0 {
      ChunkPoolLength(env, items, k - 1);
      SumStep(items, k - 1);
    }
  }

  lemma {:induction false} PoolLength(env: Env, chunks: seq<seq<Item>>, i: nat)
    requires i <= |chunks|
    ensures |Pool(env, chunks, i)| == LitsBefore(chunks, i)
  {
    if i > 0 {
      PoolLength(env, chunks, i - 1);
      var c := chunks[i - 1];
      assert c[..|c|] == c;
      ChunkPoolLength(env, c, |c|);
    }
  }

  // ----- finding an item in the finished code

  lemma {:induction false} CodePrefix(env: Env, items: seq<Item>, j: nat, k: nat, addr: nat, lit: nat, step: nat)
    requires j <= k <= |items|
    ensures Code(env, items, j, addr, lit, step) <= Code(env, items, k, addr, lit, step)
  {
    hide ItemBytes;
    hide Lits;
    if j < k {
      CodePrefix(env, items, j, k - 1, addr, lit, step);
    }
  }

  lemma {:induction false} ImagePrefix(env: Env, chunks: seq<seq<Item>>, i: nat, j: nat, lit: nat)
    requires i <= j <= |chunks|
    ensures Image(env, chunks, i, lit) <= Image(env, chunks, j, lit)
  {
    hide Code;
    if i < j {
      ImagePrefix(env, chunks, i, j - 1, lit);
    }
  }

  lemma Slice(a: seq<Byte>, b: seq<Byte>, c: seq<Byte>)
    requires a + b <= c
    ensures c[|a|..|a| + |b|] == b
  {
    assert c[..|a| + |b|] == a + b;
    assert c[|a|..|a| + |b|] == c[..|a| + |b|][|a|..];
  }

  /** The offset of item `k` of chunk `i`. */
  function At(chunks: seq<seq<Item>>, i: nat, k: nat): nat
    requires i < |chunks| && k <= |chunks[i]|
  {
    Off(chunks, i) + Sum(chunks[i][..k])
  }

  lemma WithinChunk(env: Env, items: seq<Item>, k: nat, addr: nat, lit: nat)
    requires k < |items| && Placed(addr, items)
    ensures Sum(items[..k]) + Len(items[k]) <= Sum(items)
    ensures |Code(env, items, |items|, addr, lit, 4)| == Sum(items)
    ensures Code(env, items, |items|, addr, lit, 4)[Sum(items[..k])..Sum(items[..k]) + Len(items[k])]
            == ItemBytes(env, items, k, (addr + Sum(items[..k])) % M32, (lit + 4 * Lits(items[..k])) % M32)
  {
    hide ItemBytes;
    hide Sum;
    hide Len;
    hide Lits;
    SumStep(items, k);
    SumMonotone(items, k + 1, |items|);
    assert items[..|items|] == items;
    CodeLength(env, items, k, addr, lit, 4);
    CodeLength(env, items, k + 1, addr, lit, 4);
    CodeLength(env, items, |items|, addr, lit, 4);
    CodePrefix(env, items, k + 1, |items|, addr, lit, 4);
    var bs := ItemBytes(env, items, k, (addr + Sum(items[..k])) % M32, (lit + 4 * Lits(items[..k])) % M32);
    assert Code(env, items, k + 1, addr, lit, 4) == Code(env, items, k, addr, lit, 4) + bs;
    hide Code;
    Slice(Code(env, items, k, addr, lit, 4), bs, Code(env, items, |items|, addr, lit, 4));
  }

  lemma SliceAt(image: seq<Byte>, c: seq<Byte>, o: nat, s: nat, n: nat)
    requires o + |c| <= |image| && image[o..o + |c|] == c && s + n <= |c|
    ensures image[o + s..o + s + n] == c[s..s + n]
  {
    var t, u := image[o + s..o + s + n], c[s..s + n];
    forall j | 0 <= j < n ensures t[j] == u[j] {
      assert image[o..o + |c|][s + j] == c[s + j];
    }
  }

  lemma ChunkFound(env: Env, chunks: seq<seq<Item>>, i: nat, lit: nat)
    requires Fits(env.base, chunks) && i < |chunks|
    ensures Off(chunks, i) + Sum(chunks[i]) <= |Image(env, chunks, |chunks|, lit)|
    ensures Image(env, chunks, |chunks|, lit)[Off(chunks, i)..Off(chunks, i) + Sum(chunks[i])]
            == Code(env, chunks[i], |chunks[i]|, env.base + Off(chunks, i), lit + 4 * LitsBefore(chunks, i), 4)
  {
    hide Fits;
    hide Placed;
    hide Code;
    hide Sum;
    hide Image;
    hide Off;
    hide LitsBefore;
    var c, code := chunks[i], Code(env, chunks[i], |chunks[i]|, env.base + Off(chunks, i), lit + 4 * LitsBefore(chunks, i), 4);
    ImageStep(env, chunks, i, lit);
    ChunkPlaced(env.base, chunks, i);
    assert c[..|c|] == c;
    CodeLength(env, c, |c|, env.base + Off(chunks, i), lit + 4 * LitsBefore(chunks, i), 4);
    ImageLength(env, chunks, i, lit);
    ImagePrefix(env, chunks, i + 1, |chunks|, lit);
    Slice(Image(env, chunks, i, lit), code, Image(env, chunks, |chunks|, lit));
  }

  /** Every item is in the finished code, at its offset, written for its own address. */
  lemma ItemFound(env: Env, chunks: seq<seq<Item>>, i: nat, k: nat, lit: nat)
    requires Fits(env.base, chunks) && i < |chunks| && k < |chunks[i]|
    ensures At(chunks, i, k) + Len(chunks[i][k]) <= |Image(env, chunks, |chunks|, lit)|
    ensures Image(env, chunks, |chunks|, lit)[At(chunks, i, k)..At(chunks, i, k) + Len(chunks[i][k])]
            == ItemBytes(env, chunks[i], k, (env.base + At(chunks, i, k)) % M32, (lit + 4 * (LitsBefore(chunks, i) + Lits(chunks[i][..k]))) % M32)
  {
    hide ItemBytes;
    hide Fits;
    hide Code;
    hide Image;
    hide Sum;
    hide Len;
    hide Lits;
    hide Off;
    hide LitsBefore;
    hide Placed;
    var items, addr, l := chunks[i], env.base + Off(chunks, i), lit + 4 * LitsBefore(chunks, i);
    ChunkPlaced(env.base, chunks, i);
    WithinChunk(env, items, k, addr, l);
    ChunkFound(env, chunks, i, lit);
    SliceAt(Image(env, chunks, |chunks|, lit), Code(env, items, |items|, addr, l, 4), Off(chunks, i), Sum(items[..k]), Len(items[k]));
  }

  // ----- how long the code of one instruction can be

  lemma {:induction false} SumBound(items: seq<Item>)
    ensures Sum(items) <= 11 * |items|
  {
    if items != [] {
      SumBound(items[..|items| - 1]);
    }
  }

  lemma {:induction false} AllBrief(parts: seq<Items>)
    requires forall i :: 0 <= i < |parts| ==> Brief(parts[i])
    ensures All(parts).Some? ==> |All(parts).value| <= 24 * |parts|
  {
    if parts != [] {
      AllBrief(parts[1..]);
    }
  }

  // Each function unfolds on its own, so that the cases stay few.

  lemma MoreModest(g: Config, i: Inst, pc: nat)
    ensures Modest(CompMore(g, i, pc))
  {
  }

  lemma DivideModest(g: Config, i: Inst, pc: nat)
    ensures Modest(CompDivide(g, i, pc))
  {
    hide CompMore;
    hide IndX;
    hide Index;
    hide IndC;
    hide MulDiv;
    hide Access;
    hide ArithF;
    MoreModest(g, i, pc);
  }

  lemma CallModest(g: Config, i: Inst, pc: nat)
    requires i.op.ICALL? || i.op.IJMP?
    ensures Modest(CompIndex(g, i, pc))
  {
    hide CompDivide;
    hide Access;
  }

  lemma IndexModest(g: Config, i: Inst, pc: nat)
    ensures Modest(CompIndex(g, i, pc))
  {
    hide CompDivide;
    hide Access;
    hide SchedCheck;
    if i.op.ICALL? || i.op.IJMP? {
      CallModest(g, i, pc);
    } else {
      DivideModest(g, i, pc);
    }
  }

  lemma ArithModest(g: Config, i: Inst, pc: nat)
    ensures Modest(CompArith(g, i, pc))
  {
    hide CompIndex;
    hide Arith;
    hide ArithB;
    hide ArithF;
    hide CBra;
    hide CBraB;
    hide CBraF;
    hide ShiftOp;
    IndexModest(g, i, pc);
  }

  lemma HeadModest(g: Config, i: Inst, pc: nat)
    ensures Modest(CompHead(g, i, pc))
  {
    hide CompArith;
    hide Access;
    ArithModest(g, i, pc);
  }

  lemma MoveModest(g: Config, i: Inst, pc: nat)
    ensures Modest(CompMove(g, i, pc))
  {
    hide CompHead;
    hide Punt;
    hide Access;
    HeadModest(g, i, pc);
  }

  lemma PartsModest(g: Config, i: Inst, pc: nat)
    ensures Modest(CompParts(g, i, pc))
  {
    hide CompMove;
    hide Punt;
    hide CommCall;
    hide CommFrame;
    MoveModest(g, i, pc);
  }

  /** The code of any one instruction fits the scratch buffer. */
  lemma ScratchFits(g: Config, i: Inst, pc: nat)
    ensures Comp(g, i, pc).Some? ==> Sum(Comp(g, i, pc).value) <= 4096
  {
    hide CompParts;
    PartsModest(g, i, pc);
    AllBrief(CompParts(g, i, pc));
    if Comp(g, i, pc).Some? {
      SumBound(Comp(g, i, pc).value);
    }
  }

  /** So does that of any macro. */
  lemma MacroFits(g: Config, m: nat)
    requires m < NMACRO
    ensures Sum(Macros(g)[m]) <= 4096
  {
    assert |Macros(g)[m]| <= 80;
    SumBound(Macros(g)[m]);
  }
}
