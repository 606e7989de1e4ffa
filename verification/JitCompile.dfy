/** `compile` itself (libinterp/comp-386.c): the emitters, and the two passes over instructions and macros. */
module JitCompile {
  import opened Wrappers
  import opened Words
  import opened Jit
  import opened JitLayout

  /** The emitter's variables.  `out` is what has been written since `code` was last set. */
  class Assembler {
    var code: nat
    var out: seq<Byte>
    var pass: nat
    var nlit: nat
    var litpool: nat
    var pool: seq<Word>
    var base: Word
    var patch: seq<Word>
    var macro: seq<Word>

    ghost function Now(): Env
      reads this
    {
      Env(base, patch, macro)
    }

    /** genb and gen2. */
    method GenBytes(bs: seq<Byte>)
      modifies this`code, this`out
      ensures out == old(out) + bs && code == old(code) + |bs|
    {
      out, code := out + bs, code + |bs|;
    }

    method GenWord(w: Word)
      modifies this`code, this`out
      ensures out == old(out) + Le(w) && code == old(code) + 4
    {
      GenBytes(Le(w));
    }

    /** modrm: the bytes written are read by the processor as the arguments given. */
    method ModRM(inst: Byte, disp: Word, rm: Base, r: Reg)
      modifies this`code, this`out
      ensures out == old(out) + ModBytes(inst, disp, rm, r) && code == old(code) + |ModBytes(inst, disp, rm, r)|
      ensures ReadMod(out[|old(out)|..]) == Some(MemOp(inst, disp, rm, r))
    {
      ModReadsBack(inst, disp, rm, r);
      hide ReadMod;
      assert (out + ModBytes(inst, disp, rm, r))[|out|..] == ModBytes(inst, disp, rm, r);
      GenBytes([inst]);
      if disp == 0 {
        GenBytes([(8 * r + rm) % 256]);
        return;
      }
      if Bc(disp) {
        GenBytes([(64 + 8 * r + rm) % 256, disp % 256]);
        return;
      }
      GenBytes([(128 + 8 * r + rm) % 256]);
      GenWord(disp);
    }

    method Constant(o: Word, r: nat)
      modifies this`code, this`out
      ensures out == old(out) + ConBytes(o, r) && code == old(code) + |ConBytes(o, r)|
    {
      if o == 0 {
        GenBytes([Oxor, RR(r, r)]);
        return;
      }
      GenBytes([(Omovimm + r) % 256]);
      GenWord(o);
    }

    /** bra. */
    method BraTo(dst: Word, op: Byte)
      modifies this`code, this`out
      ensures out == old(out) + ([op] + Le((dst - (old(code) % M32 + 5)) % M32)) && code == old(code) + 5
    {
      var d := (dst - (code % M32 + 5)) % M32;
      GenBytes([op]);
      GenWord(d);
    }

    /** rbra. */
    method RBra(dst: Word, op: Byte)
      modifies this`code, this`out
      ensures out == old(out) + ([op] + Le((dst + base - (old(code) % M32 + 5)) % M32)) && code == old(code) + 5
    {
      var d := (dst + base - (code % M32 + 5)) % M32;
      GenBytes([op]);
      GenWord(d);
    }

    /** literal: load the address of the next place in the pool; in pass 1 fill that place. */
    method PutLiteral(imm: Word, roff: Word)
      modifies this`code, this`out, this`nlit, this`litpool, this`pool
      ensures out == old(out) + ([Omovimm] + Le(old(litpool) % M32) + ModBytes(Ostw, roff, RTMP, RAX))
      ensures code == old(code) + 5 + |ModBytes(Ostw, roff, RTMP, RAX)| && nlit == old(nlit) + 1
      ensures litpool == old(litpool) + if pass == 0 then 0 else 4
      ensures pool == if pass == 0 then old(pool) else old(pool) + [imm]
    {
      hide ModBytes;
      nlit := nlit + 1;
      GenBytes([Omovimm]);
      GenWord(litpool % M32);
      ModRM(Ostw, roff, RTMP, RAX);
      if pass == 0 {
        return;
      }
      pool, litpool := pool + [imm], litpool + 4;
    }

    /** What one call of an emitter leaves behind. */
    method EmitItem(items: seq<Item>, k: nat)
      requires k < |items| && !items[k].Short?
      modifies this`code, this`out, this`nlit, this`litpool, this`pool
      ensures out == old(out) + ItemBytes(Now(), items, k, old(code) % M32, old(litpool) % M32)
      ensures code == old(code) + |ItemBytes(Now(), items, k, old(code) % M32, old(litpool) % M32)|
      ensures nlit == old(nlit) + if IsLit(items[k]) then 1 else 0
      ensures litpool == old(litpool) + if IsLit(items[k]) && pass != 0 then 4 else 0
      ensures pool == if IsLit(items[k]) && pass != 0 then old(pool) + [LitValue(Now(), items[k])] else old(pool)
    {
      hide ModBytes;
      hide ConBytes;
      hide Le;
      hide Distance;
      if IsLit(items[k]) {
        match items[k] {
          case Literal(imm, roff) => PutLiteral(imm, roff);
          case LiteralPc(i, roff) => PutLiteral((base + Lookup(patch, i)) % M32, roff);
        }
      } else {
        EmitPlain(items, k);
      }
    }

    /** One emitter call that is not a literal. */
    method EmitPlain(items: seq<Item>, k: nat)
      requires k < |items| && !items[k].Short? && !IsLit(items[k])
      modifies this`code, this`out
      ensures out == old(out) + ItemBytes(Now(), items, k, old(code) % M32, litpool % M32)
      ensures code == old(code) + |ItemBytes(Now(), items, k, old(code) % M32, litpool % M32)|
    {
      hide ModBytes;
      hide ConBytes;
      hide Le;
      hide Distance;
      match items[k] {
        case Raw1(b) => GenBytes([b]);
        case Raw2(b1, b2) => GenBytes([b1, b2]);
        case GenW(w) => GenWord(w);
        case Mod(inst, disp, rm, r) => ModRM(inst, disp, rm, r);
        case Con(o, r) => Constant(o, r);
        case ConHere(r) => Constant((code % M32 - 4) % M32, r);
        case Bra(fn, op) => BraTo(fn, op);
        case Branch(t, op) => RBra(if t.Dis? then Lookup(patch, t.i) else Lookup(macro, t.m), op);
        case PcWord(i) => GenWord((base + Lookup(patch, i)) % M32);
      }
    }

    /** All the calls for one instruction or macro.  Short jumps are written without their displacements first. */
    method EmitBlank(items: seq<Item>) returns (marks: seq<int>)
      requires Placed(code, items)
      modifies this`code, this`out, this`nlit, this`litpool, this`pool
      ensures Emitted(Now(), Blank(items, 0), |items|, pass, old(code), old(out), old(nlit), old(litpool), old(pool), code, out, nlit, litpool, pool)
      ensures Marked(items, marks, old(code))
    {
      hide Emitted;
      hide Blank;
      hide Placed;
      hide Sum;
      hide ItemBytes;
      hide IsLit;
      hide LitValue;
      hide Marked;
      hide MarkedTo;
      ghost var c0, o0, n0, l0, p0 := code, out, nlit, litpool, pool;
      var blank := Blank(items, 0);
      marks := [code];
      BlankPlaced(items, 0, code);
      EmittedNone(Now(), blank, pass, code, out, nlit, litpool, pool);
      MarksStart(items, code);
      for k := 0 to |items|
        invariant Emitted(Now(), blank, k, pass, c0, o0, n0, l0, p0, code, out, nlit, litpool, pool)
        invariant MarkedTo(items, marks, c0, k)
      {
        EmittedStep(Now(), blank, k, pass, c0, o0, n0, l0, p0, code, out, nlit, litpool, pool);
        NoShortLeft(items, k);
        EmitItem(blank, k);
        EmittedAt(Now(), blank, k + 1, pass, c0, o0, n0, l0, p0, code, out, nlit, litpool, pool);
        BlankSums(items, 0, k + 1);
        MarksMore(items, marks, c0, k);
        marks := marks + [code];
      }
      AllMarked(items, marks, c0);
    }

    /** All the calls for one instruction or macro, and then the displacements of its short jumps, from the addresses of
        the jump and of its label. */
    method Emit(items: seq<Item>)
      requires Placed(code, items)
      modifies this`code, this`out, this`nlit, this`litpool, this`pool
      ensures Emitted(Now(), items, |items|, pass, old(code), old(out), old(nlit), old(litpool), old(pool), code, out, nlit, litpool, pool)
    {
      hide Emitted;
      hide Placed;
      hide Blank;
      hide Marked;
      hide Sum;
      hide Distance;
      ghost var c0, o0, n0, l0, p0 := code, out, nlit, litpool, pool;
      var at := |out|;
      var marks := EmitBlank(items);
      for j := 0 to |items|
        invariant Emitted(Now(), Blank(items, j), |items|, pass, c0, o0, n0, l0, p0, code, out, nlit, litpool, pool)
      {
        if items[j].Short? {
          MarkedDistance(items, marks, c0, j);
          Patched(Now(), items, j, pass, c0, o0, n0, l0, p0, code, out, nlit, litpool, pool);
          var t, pos := j + 1 + items[j].n, at + (marks[j] - marks[0]) + 1;
          if 0 <= t <= |items| {
            // *label = code-label-1
            out := out[pos := (marks[t] - (marks[j] + 1) - 1) % 256];
          }
        } else {
          BlankSame(items, j);
        }
      }
      BlankDone(items);
    }

    /** The code of one instruction or macro, written to the scratch buffer `tmp` to see how long it is. */
    method Measure(items: seq<Item>, tmp: nat) returns (n: nat)
      requires pass == 0 && Placed(tmp, items)
      modifies this`code, this`out, this`nlit, this`litpool, this`pool
      ensures n == Sum(items) && nlit == old(nlit) + Lits(items) && litpool == old(litpool) && pool == old(pool)
    {
      code, out := tmp, [];
      ghost var l := litpool;
      Emit(items);
      assert items[..|items|] == items;
      hide Lits;
      hide Sum;
      hide Placed;
      CodeLength(Now(), items, |items|, tmp, l, 0);
      n := code - tmp;
    }

    /** Pass 0 over the instructions; `patch` has any values to begin with. */
    method MeasureInstructions(g: Config, prog: seq<Inst>, tmp: nat) returns (ok: bool, n: nat)
      requires pass == 0 && nlit == 0 && |patch| == |prog| && 4 < tmp && tmp + 4096 <= M32
      modifies this`code, this`out, this`nlit, this`litpool, this`pool, this`patch
      ensures ok <==> Instructions(g, prog, |prog|).Some?
      ensures |patch| == |prog| && litpool == old(litpool) && pool == old(pool)
      ensures ok ==> Measured(Instructions(g, prog, |prog|).value, patch, n, nlit)
    {
      hide Comp;
      hide Instructions;
      hide Placed;
      hide Measured;
      n, ok := 0, true;
      NoneYet(g, prog, patch);
      for i := 0 to |prog|
        invariant Instructions(g, prog, i).Some? && |patch| == |prog| && litpool == old(litpool) && pool == old(pool)
        invariant Measured(Instructions(g, prog, i).value, patch, n, nlit)
      {
        ghost var before := Instructions(g, prog, i).value;
        var items := Comp(g, prog[i], i);
        InstructionsStep(g, prog, i);
        if items.None? {
          NoInstructions(g, prog, i + 1, |prog|);
          return false, n;
        }
        PlacedScratch(g, prog[i], i, tmp);
        MeasuredMore(before, items.value, patch, n, nlit);
        var len := Measure(items.value, tmp);
        patch := patch[i := n % M32];
        n := n + len;
      }
    }

    /** Pass 0 over the macros. */
    method MeasureMacros(g: Config, tmp: nat, n0: nat, ghost chunks: seq<seq<Item>>, ghost offs: seq<Word>) returns (n: nat, ghost all: seq<Word>)
      requires pass == 0 && |macro| == NMACRO && 4 < tmp && tmp + 4096 <= M32 && |offs| == |chunks| && Measured(chunks, offs, n0, nlit)
      modifies this`code, this`out, this`nlit, this`litpool, this`pool, this`macro
      ensures litpool == old(litpool) && pool == old(pool) && |macro| == NMACRO
      ensures Measured(chunks + Macros(g), offs + macro, n, nlit)
    {
      hide Macros;
      hide Measured;
      n := n0;
      var ms := Macros(g);
      assert chunks + ms[..0] == chunks;
      MeasuredTail(chunks, offs, macro, n0, nlit);
      for j := 0 to NMACRO
        invariant litpool == old(litpool) && pool == old(pool) && |macro| == NMACRO
        invariant Measured(chunks + ms[..j], offs + macro, n, nlit)
      {
        PlacedMacro(g, j, tmp);
        MeasuredMacro(chunks, ms, j, offs, macro, n, nlit);
        hide Placed;
        var len := Measure(ms[j], tmp);
        macro := macro[j := n % M32];
        n := n + len;
      }
      assert ms[..NMACRO] == ms;
      all := offs + macro;
    }

    /** Pass 1 over one instruction or macro. */
    method Place(items: seq<Item>, ghost chunks: seq<seq<Item>>, ghost i: nat, ghost lit: nat)
      requires pass != 0 && i < |chunks| && items == chunks[i] && Fits(base, chunks) && Laid(Now(), chunks, i, lit, code, out, litpool, pool)
      modifies this`code, this`out, this`nlit, this`litpool, this`pool
      ensures Laid(Now(), chunks, i + 1, lit, code, out, litpool, pool)
    {
      hide Laid;
      hide Emitted;
      hide Fits;
      ghost var c0, o0, n0, l0, p0 := code, out, nlit, litpool, pool;
      LaidPlaced(Now(), chunks, i, lit, c0, o0, l0, p0);
      Emit(items);
      LaidMore(Now(), chunks, i, lit, pass, c0, o0, n0, l0, p0, code, out, nlit, litpool, pool);
    }

    /** Pass 1: the code is written from `base` on, the literals after it, at `lit`. */
    method PlaceAll(g: Config, prog: seq<Inst>, ghost chunks: seq<seq<Item>>, lit: nat)
      requires Instructions(g, prog, |prog|).Some? && chunks == Instructions(g, prog, |prog|).value + Macros(g) && Fits(base, chunks)
      modifies this`code, this`out, this`nlit, this`litpool, this`pool, this`pass
      ensures Laid(Now(), chunks, |chunks|, lit, code, out, litpool, pool)
    {
      hide Comp;
      hide Instructions;
      hide Macros;
      hide Fits;
      hide Laid;
      pass, code, out, nlit, litpool, pool := 1, base, [], 0, lit, [];
      InstructionCount(g, prog, |prog|);
      LaidNone(Now(), chunks, lit);
      for i := 0 to |prog|
        invariant pass != 0 && Laid(Now(), chunks, i, lit, code, out, litpool, pool)
      {
        var items := Comp(g, prog[i], i);
        assert items == Some(chunks[i]);
        Place(items.value, chunks, i, lit);
      }
      var ms := Macros(g);
      for j := 0 to NMACRO
        invariant pass != 0 && Laid(Now(), chunks, |prog| + j, lit, code, out, litpool, pool)
      {
        assert ms[j] == chunks[|prog| + j];
        Place(ms[j], chunks, |prog| + j, lit);
      }
    }

    /** compile: `tmp` is the scratch buffer, `where` the memory allocated for the code.  `patch`, `macro` and `litpool`
        have any values to begin with. */
    method Compile(g: Config, prog: seq<Inst>, tmp: nat, where: Word) returns (ok: bool, n: nat)
      requires |patch| == |prog| && |macro| == NMACRO && 4 < tmp && tmp + 4096 <= M32
      requires Instructions(g, prog, |prog|).Some? ==> Fits(where, Instructions(g, prog, |prog|).value + Macros(g))
      modifies this
      ensures ok <==> Instructions(g, prog, |prog|).Some?
      ensures ok ==> Compiled(Now(), Instructions(g, prog, |prog|).value + Macros(g), |prog|, where, n, out, pool)
    {
      hide Comp;
      hide Instructions;
      hide Macros;
      hide Fits;
      hide Measured;
      hide Laid;
      hide Compiled;
      base, pass, nlit := 0, 0, 0;
      ok, n := MeasureInstructions(g, prog, tmp);
      if !ok {
        return;
      }
      ghost var chunks := Instructions(g, prog, |prog|).value + Macros(g);
      InstructionCount(g, prog, |prog|);
      ghost var all;
      n, all := MeasureMacros(g, tmp, n, Instructions(g, prog, |prog|).value, patch);
      ghost var count := nlit;
      base := where;
      ghost var total := n;
      n := Round4(n);
      PlaceAll(g, prog, chunks, base + n);
      IsCompiled(Now(), chunks, patch + macro, total, count, |prog|, n, code, out, litpool, pool);
    }
  }

  lemma NoneYet(g: Config, prog: seq<Inst>, offs: seq<Word>)
    ensures Instructions(g, prog, 0) == Some([]) && Measured([], offs, 0, 0)
  {
  }

  lemma InstructionsStep(g: Config, prog: seq<Inst>, i: nat)
    requires i < |prog| && Instructions(g, prog, i).Some?
    ensures |Instructions(g, prog, i).value| == i
    ensures var items := Comp(g, prog[i], i);
      Instructions(g, prog, i + 1) == if items.None? then None else Some(Instructions(g, prog, i).value + [items.value])
  {
    hide Comp;
    InstructionCount(g, prog, i);
  }

  lemma PlacedScratch(g: Config, i: Inst, pc: nat, tmp: nat)
    requires 4 < tmp && tmp + 4096 <= M32 && Comp(g, i, pc).Some?
    ensures Placed(tmp, Comp(g, i, pc).value)
  {
    ScratchFits(g, i, pc);
  }

  lemma PlacedMacro(g: Config, m: nat, tmp: nat)
    requires 4 < tmp && tmp + 4096 <= M32 && m < NMACRO
    ensures Placed(tmp, Macros(g)[m])
  {
    MacroFits(g, m);
  }

  lemma MeasuredTail(chunks: seq<seq<Item>>, offs: seq<Word>, more: seq<Word>, n: nat, nlit: nat)
    requires Measured(chunks, offs, n, nlit)
    ensures Measured(chunks, offs + more, n, nlit)
  {
    hide Off;
    hide LitsBefore;
  }

  lemma MeasuredMacro(chunks: seq<seq<Item>>, ms: seq<seq<Item>>, j: nat, offs: seq<Word>, macro: seq<Word>, n: nat, nlit: nat)
    requires j < |ms| == |macro| && |offs| == |chunks| && Measured(chunks + ms[..j], offs + macro, n, nlit)
    ensures Measured(chunks + ms[..j + 1], offs + macro[j := n % M32], n + Sum(ms[j]), nlit + Lits(ms[j]))
  {
    hide Measured;
    MeasuredMore(chunks + ms[..j], ms[j], offs + macro, n, nlit);
    assert chunks + ms[..j] + [ms[j]] == chunks + ms[..j + 1];
    assert (offs + macro)[|chunks| + j := n % M32] == offs + macro[j := n % M32];
  }

  /** The first `i` chunks are in place. */
  ghost predicate Laid(env: Env, chunks: seq<seq<Item>>, i: nat, lit: nat, code: nat, out: seq<Byte>, litpool: nat, pool: seq<Word>) {
    && i <= |chunks| && out == Image(env, chunks, i, lit) && code == env.base + Off(chunks, i)
    && litpool == lit + 4 * LitsBefore(chunks, i) && pool == Pool(env, chunks, i)
  }

  lemma LaidNone(env: Env, chunks: seq<seq<Item>>, lit: nat)
    ensures Laid(env, chunks, 0, lit, env.base, [], lit, [])
  {
  }

  lemma LaidPlaced(env: Env, chunks: seq<seq<Item>>, i: nat, lit: nat, code: nat, out: seq<Byte>, litpool: nat, pool: seq<Word>)
    requires i < |chunks| && Fits(env.base, chunks) && Laid(env, chunks, i, lit, code, out, litpool, pool)
    ensures Placed(code, chunks[i])
  {
    ChunkPlaced(env.base, chunks, i);
  }

  lemma LaidMore(env: Env, chunks: seq<seq<Item>>, i: nat, lit: nat, pass: nat, c0: nat, o0: seq<Byte>, n0: nat, l0: nat, p0: seq<Word>,
                 code: nat, out: seq<Byte>, nlit: nat, litpool: nat, pool: seq<Word>)
    requires i < |chunks| && Fits(env.base, chunks) && Laid(env, chunks, i, lit, c0, o0, l0, p0)
    requires pass != 0 && Emitted(env, chunks[i], |chunks[i]|, pass, c0, o0, n0, l0, p0, code, out, nlit, litpool, pool)
    ensures Laid(env, chunks, i + 1, lit, code, out, litpool, pool)
  {
    hide Code;
    hide Sum;
    hide Lits;
    hide ChunkPool;
    hide Fits;
    hide Placed;
    hide Image;
    var items := chunks[i];
    assert items[..|items|] == items;
    ChunkPlaced(env.base, chunks, i);
    CodeLength(env, items, |items|, c0, l0, 4);
    ImageStep(env, chunks, i, lit);
    assert LitsBefore(chunks, i + 1) == LitsBefore(chunks, i) + Lits(items) && Off(chunks, i + 1) == Off(chunks, i) + Sum(items);
    hide LitsBefore;
    hide Off;
  }

  /** What compile leaves: the offsets of all instructions and macros, the code, and the literals behind it. */
  ghost predicate Compiled(env: Env, chunks: seq<seq<Item>>, size: nat, base: Word, n: nat, image: seq<Byte>, pool: seq<Word>) {
    && |env.patch| == size && |chunks| == size + NMACRO && |env.macro| == NMACRO && env.base == base && Fits(base, chunks)
    && (forall i :: 0 <= i < size ==> env.patch[i] == Off(chunks, i))
    && (forall j :: 0 <= j < NMACRO ==> env.macro[j] == Off(chunks, size + j))
    && n == Round4(Off(chunks, |chunks|)) && |image| == Off(chunks, |chunks|) && |pool| == LitsBefore(chunks, |chunks|)
    && image == Image(env, chunks, |chunks|, base + n) && pool == Pool(env, chunks, |chunks|)
  }

  lemma OffSmall(base: nat, chunks: seq<seq<Item>>, i: nat)
    requires Fits(base, chunks) && i <= |chunks|
    ensures Off(chunks, i) % M32 == Off(chunks, i)
  {
    OffMonotone(chunks, i, |chunks|);
  }

  lemma IsCompiled(env: Env, chunks: seq<seq<Item>>, offs: seq<Word>, total: nat, count: nat, size: nat, n: nat, code: nat, out: seq<Byte>, litpool: nat, pool: seq<Word>)
    requires |env.patch| == size && |env.macro| == NMACRO && offs == env.patch + env.macro && |chunks| == size + NMACRO
    requires Fits(env.base, chunks) && n == Round4(total) && Measured(chunks, offs, total, count)
    requires Laid(env, chunks, |chunks|, env.base + n, code, out, litpool, pool)
    ensures Compiled(env, chunks, size, env.base, n, out, pool)
  {
    hide Image;
    hide Pool;
    hide LitsBefore;
    hide Fits;
    hide Off;
    ImageLength(env, chunks, |chunks|, env.base + n);
    PoolLength(env, chunks, |chunks|);
    forall i | 0 <= i < |chunks| ensures offs[i] == Off(chunks, i) {
      OffSmall(env.base, chunks, i);
    }
    forall i | 0 <= i < size ensures env.patch[i] == Off(chunks, i) {
      assert offs[i] == env.patch[i];
    }
    forall j | 0 <= j < NMACRO ensures env.macro[j] == Off(chunks, size + j) {
      assert offs[size + j] == env.macro[j];
    }
  }

  /** The chunks measured so far: their offsets, total length and number of literals. */
  ghost predicate Measured(chunks: seq<seq<Item>>, offs: seq<Word>, n: nat, nlit: nat) {
    && |chunks| <= |offs| && n == Off(chunks, |chunks|) && nlit == LitsBefore(chunks, |chunks|)
    && forall i :: 0 <= i < |chunks| ==> offs[i] == Off(chunks, i) % M32
  }

  lemma {:induction false} OffExtend(chunks: seq<seq<Item>>, more: seq<seq<Item>>, i: nat)
    requires i <= |chunks|
    ensures Off(chunks + more, i) == Off(chunks, i) && LitsBefore(chunks + more, i) == LitsBefore(chunks, i)
  {
    hide Sum;
    hide Lits;
    if i > 0 {
      OffExtend(chunks, more, i - 1);
    }
  }

  lemma MeasuredMore(chunks: seq<seq<Item>>, items: seq<Item>, offs: seq<Word>, n: nat, nlit: nat)
    requires Measured(chunks, offs, n, nlit) && |chunks| < |offs|
    ensures Measured(chunks + [items], offs[|chunks| := n % M32], n + Sum(items), nlit + Lits(items))
  {
    hide Sum;
    hide Lits;
    var more := chunks + [items];
    forall i | 0 <= i <= |chunks| ensures Off(more, i) == Off(chunks, i) && LitsBefore(more, i) == LitsBefore(chunks, i) {
      OffExtend(chunks, [items], i);
    }
    assert Off(more, |more|) == Off(more, |chunks|) + Sum(items);
    assert LitsBefore(more, |more|) == LitsBefore(more, |chunks|) + Lits(items);
    hide Off;
    hide LitsBefore;
  }

  lemma {:induction false} NoInstructions(g: Config, prog: seq<Inst>, i: nat, j: nat)
    requires i <= j <= |prog| && Instructions(g, prog, i).None?
    ensures Instructions(g, prog, j).None?
  {
    hide Comp;
    if i < j {
      NoInstructions(g, prog, i, j - 1);
    }
  }

  lemma {:induction false} InstructionCount(g: Config, prog: seq<Inst>, n: nat)
    requires n <= |prog| && Instructions(g, prog, n).Some?
    ensures |Instructions(g, prog, n).value| == n
    ensures forall i :: 0 <= i < n ==> Comp(g, prog[i], i) == Some(Instructions(g, prog, n).value[i])
  {
    hide Comp;
    if n > 0 {
      InstructionCount(g, prog, n - 1);
    }
  }

  function Lookup(a: seq<Word>, i: nat): Word {
    if i < |a| then a[i] else 0
  }

  /** The first `k` items have been emitted, starting from the values with index 0. */
  ghost predicate Emitted(env: Env, items: seq<Item>, k: nat, pass: nat, c0: nat, o0: seq<Byte>, n0: nat, l0: nat, p0: seq<Word>,
                          code: nat, out: seq<Byte>, nlit: nat, litpool: nat, pool: seq<Word>) {
    && k <= |items|
    && var step := if pass == 0 then 0 else 4;
       var c := Code(env, items, k, c0, l0, step);
       && out == o0 + c && code == c0 + |c| && nlit == n0 + Lits(items[..k]) && litpool == l0 + step * Lits(items[..k])
       && pool == if pass == 0 then p0 else p0 + ChunkPool(env, items, k)
  }

  // ----- filling in short jumps

  /** The calls with the displacements of short jumps from number `j` on still missing. */
  function Blank(items: seq<Item>, j: nat): (r: seq<Item>)
    ensures |r| == |items|
  {
    seq(|items|, i requires 0 <= i < |items| => if i >= j && items[i].Short? then Raw2(items[i].op, 0) else items[i])
  }

  lemma {:induction false} BlankSums(items: seq<Item>, j: nat, k: nat)
    requires k <= |items|
    ensures Sum(Blank(items, j)[..k]) == Sum(items[..k]) && Lits(Blank(items, j)[..k]) == Lits(items[..k])
  {
    if k > 0 {
      BlankSums(items, j, k - 1);
      SumStep(items, k - 1);
      SumStep(Blank(items, j), k - 1);
    }
  }

  lemma BlankPlaced(items: seq<Item>, j: nat, addr: nat)
    requires Placed(addr, items)
    ensures Placed(addr, Blank(items, j))
  {
    BlankSums(items, j, |items|);
    assert items[..|items|] == items && Blank(items, j)[..|items|] == Blank(items, j);
  }

  lemma {:induction false} BlankPool(env: Env, items: seq<Item>, j: nat, k: nat)
    requires k <= |items|
    ensures ChunkPool(env, Blank(items, j), k) == ChunkPool(env, items, k)
  {
    if k > 0 {
      BlankPool(env, items, j, k - 1);
    }
  }

  lemma BlankDistance(items: seq<Item>, j: nat, k: nat, n: int)
    requires k < |items|
    ensures Distance(Blank(items, j), k, n) == Distance(items, k, n)
  {
    BlankSums(items, j, k + 1);
    if 0 <= k + 1 + n <= |items| {
      BlankSums(items, j, k + 1 + n);
    }
  }

  /** The other calls write the same. */
  lemma BlankOther(env: Env, items: seq<Item>, j: nat, i: nat, addr: Word, lit: Word)
    requires i < |items| && i != j
    ensures ItemBytes(env, Blank(items, j + 1), i, addr, lit) == ItemBytes(env, Blank(items, j), i, addr, lit)
  {
    if items[i].Short? {
      BlankDistance(items, j, i, items[i].n);
      BlankDistance(items, j + 1, i, items[i].n);
    }
    hide Distance;
    hide Le;
    hide ModBytes;
    hide ConBytes;
  }

  lemma BlankThis(env: Env, items: seq<Item>, j: nat, addr: Word, lit: Word)
    requires j < |items| && items[j].Short?
    ensures ItemBytes(env, Blank(items, j), j, addr, lit) == [items[j].op, 0]
    ensures ItemBytes(env, Blank(items, j + 1), j, addr, lit) == [items[j].op, Distance(items, j, items[j].n) % 256]
  {
    BlankDistance(items, j + 1, j, items[j].n);
    hide Distance;
  }

  /** Before jump `j` nothing changes when it is filled in. */
  lemma {:induction false} CodeBefore(env: Env, items: seq<Item>, j: nat, k: nat, addr: nat, lit: nat, step: nat)
    requires k <= j < |items|
    ensures Code(env, Blank(items, j + 1), k, addr, lit, step) == Code(env, Blank(items, j), k, addr, lit, step)
  {
    hide ItemBytes;
    hide Blank;
    hide Lits;
    if k > 0 {
      CodeBefore(env, items, j, k - 1, addr, lit, step);
      CodeStep(env, Blank(items, j), k - 1, addr, lit, step);
      CodeStep(env, Blank(items, j + 1), k - 1, addr, lit, step);
      BlankSums(items, j, k - 1);
      BlankSums(items, j + 1, k - 1);
      hide Code;
      var c := Code(env, Blank(items, j), k - 1, addr, lit, step);
      BlankOther(env, items, j, k - 1, (addr + |c|) % M32, (lit + step * Lits(items[..k - 1])) % M32);
    }
  }

  /** Filling in jump `j` is storing its displacement. */
  lemma {:induction false} CodePatched(env: Env, items: seq<Item>, j: nat, k: nat, addr: nat, lit: nat, step: nat)
    requires j < k <= |items| && items[j].Short? && Placed(addr, items)
    ensures var c, pos := Code(env, Blank(items, j), k, addr, lit, step), Sum(items[..j]) + 1;
      pos < |c| && Code(env, Blank(items, j + 1), k, addr, lit, step) == c[pos := Distance(items, j, items[j].n) % 256]
    decreases k
  {
    hide ItemBytes;
    hide Lits;
    hide Distance;
    hide Blank;
    hide Placed;
    hide Sum;
    hide Code;
    var x, y := Blank(items, j), Blank(items, j + 1);
    BlankSums(items, j, k - 1);
    BlankSums(items, j + 1, k - 1);
    BlankPlaced(items, j, addr);
    CodeLength(env, x, k - 1, addr, lit, step);
    CodeStep(env, x, k - 1, addr, lit, step);
    CodeStep(env, y, k - 1, addr, lit, step);
    var a, l := (addr + Sum(items[..k - 1])) % M32, (lit + step * Lits(items[..k - 1])) % M32;
    var c, v := Code(env, x, k - 1, addr, lit, step), Distance(items, j, items[j].n) % 256;
    if k - 1 == j {
      CodeBefore(env, items, j, j, addr, lit, step);
      BlankThis(env, items, j, a, l);
      StoreLast(c, items[j].op, v);
    } else {
      CodePatched(env, items, j, k - 1, addr, lit, step);
      BlankOther(env, items, j, k - 1, a, l);
      StoreFirst(c, ItemBytes(env, x, k - 1, a, l), Sum(items[..j]) + 1, v);
    }
  }

  lemma StoreLast(c: seq<Byte>, op: Byte, v: Byte)
    ensures (c + [op, 0])[|c| + 1 := v] == c + [op, v]
  {
  }

  lemma StoreFirst(c: seq<Byte>, e: seq<Byte>, pos: nat, v: Byte)
    requires pos < |c|
    ensures (c + e)[pos := v] == c[pos := v] + e
  {
  }

  lemma NoShortLeft(items: seq<Item>, k: nat)
    requires k < |items|
    ensures !Blank(items, 0)[k].Short?
  {
  }

  lemma BlankSame(items: seq<Item>, j: nat)
    requires j < |items| && !items[j].Short?
    ensures Blank(items, j) == Blank(items, j + 1)
  {
  }

  lemma BlankDone(items: seq<Item>)
    ensures Blank(items, |items|) == items
  {
  }

  lemma EmittedNone(env: Env, items: seq<Item>, pass: nat, code: nat, out: seq<Byte>, nlit: nat, litpool: nat, pool: seq<Word>)
    ensures Emitted(env, items, 0, pass, code, out, nlit, litpool, pool, code, out, nlit, litpool, pool)
  {
    assert items[..0] == [];
  }

  /** The addresses of the first `k` calls, and of what comes after. */
  ghost predicate MarkedTo(items: seq<Item>, marks: seq<int>, addr: nat, k: nat) {
    k <= |items| && |marks| == k + 1 && forall i :: 0 <= i <= k ==> marks[i] == addr + Sum(items[..i])
  }

  lemma MarksStart(items: seq<Item>, addr: nat)
    ensures MarkedTo(items, [addr], addr, 0)
  {
    assert items[..0] == [];
  }

  lemma MarksMore(items: seq<Item>, marks: seq<int>, addr: nat, k: nat)
    requires MarkedTo(items, marks, addr, k) && k < |items|
    ensures MarkedTo(items, marks + [addr + Sum(items[..k + 1])], addr, k + 1)
  {
    hide Sum;
  }

  lemma AllMarked(items: seq<Item>, marks: seq<int>, addr: nat)
    requires MarkedTo(items, marks, addr, |items|)
    ensures Marked(items, marks, addr)
  {
  }

  /** The addresses of the calls, and of the end. */
  ghost predicate Marked(items: seq<Item>, marks: seq<int>, addr: nat) {
    |marks| == |items| + 1 && forall i :: 0 <= i <= |items| ==> marks[i] == addr + Sum(items[..i])
  }

  lemma MarkedDistance(items: seq<Item>, marks: seq<int>, addr: nat, j: nat)
    requires Marked(items, marks, addr) && j < |items| && items[j].Short?
    ensures |marks| == |items| + 1 && marks[j] - marks[0] == Sum(items[..j])
    ensures var t := j + 1 + items[j].n;
      Distance(items, j, items[j].n) == if 0 <= t <= |items| then marks[t] - (marks[j] + 1) - 1 else 0
  {
    SumStep(items, j);
    assert items[..0] == [];
  }

  lemma EmittedAt(env: Env, items: seq<Item>, k: nat, pass: nat, c0: nat, o0: seq<Byte>, n0: nat, l0: nat, p0: seq<Word>,
                  code: nat, out: seq<Byte>, nlit: nat, litpool: nat, pool: seq<Word>)
    requires Emitted(env, items, k, pass, c0, o0, n0, l0, p0, code, out, nlit, litpool, pool) && Placed(c0, items)
    ensures k <= |items| && code == c0 + Sum(items[..k])
  {
    hide Placed;
    hide Code;
    hide Sum;
    hide ChunkPool;
    hide Lits;
    CodeLength(env, items, k, c0, l0, if pass == 0 then 0 else 4);
  }

  /** Storing the displacement of jump `j` turns what was emitted without it into what is emitted with it. */
  lemma Patched(env: Env, items: seq<Item>, j: nat, pass: nat, c0: nat, o0: seq<Byte>, n0: nat, l0: nat, p0: seq<Word>,
                code: nat, out: seq<Byte>, nlit: nat, litpool: nat, pool: seq<Word>)
    requires j < |items| && items[j].Short? && Placed(c0, items)
    requires Emitted(env, Blank(items, j), |items|, pass, c0, o0, n0, l0, p0, code, out, nlit, litpool, pool)
    ensures var pos := |o0| + Sum(items[..j]) + 1;
      && pos < |out|
      && Emitted(env, Blank(items, j + 1), |items|, pass, c0, o0, n0, l0, p0, code, out[pos := Distance(items, j, items[j].n) % 256], nlit, litpool, pool)
      && (Distance(items, j, items[j].n) == 0 ==>
            Emitted(env, Blank(items, j + 1), |items|, pass, c0, o0, n0, l0, p0, code, out, nlit, litpool, pool))
  {
    hide Code;
    hide Distance;
    hide Blank;
    hide Sum;
    hide Lits;
    hide ChunkPool;
    hide Placed;
    var step, n := if pass == 0 then 0 else 4, |items|;
    CodePatched(env, items, j, n, c0, l0, step);
    BlankSums(items, j, n);
    BlankSums(items, j + 1, n);
    BlankPool(env, items, j, n);
    BlankPool(env, items, j + 1, n);
    BlankZero(env, items, j, c0, l0, step);
    var c, pos := Code(env, Blank(items, j), n, c0, l0, step), Sum(items[..j]) + 1;
    Store(o0, c, pos, Distance(items, j, items[j].n) % 256);
  }

  lemma Store(o: seq<Byte>, c: seq<Byte>, pos: nat, v: Byte)
    requires pos < |c|
    ensures (o + c)[|o| + pos := v] == o + c[pos := v]
    ensures v == c[pos] ==> c[pos := v] == c
  {
  }

  /** The byte to be filled in is 0 before. */
  lemma BlankZero(env: Env, items: seq<Item>, j: nat, addr: nat, lit: nat, step: nat)
    requires j < |items| && items[j].Short? && Placed(addr, items)
    ensures var c, pos := Code(env, Blank(items, j), |items|, addr, lit, step), Sum(items[..j]) + 1;
      pos < |c| && c[pos] == 0
  {
    hide ItemBytes;
    hide Blank;
    hide Lits;
    var x := Blank(items, j);
    BlankPlaced(items, j, addr);
    hide Placed;
    BlankSums(items, j, j);
    CodeLength(env, x, j, addr, lit, step);
    CodeStep(env, x, j, addr, lit, step);
    CodePrefix(env, x, j + 1, |items|, addr, lit, step);
    hide Sum;
    hide Code;
    BlankThis(env, items, j, (addr + Sum(items[..j])) % M32, (lit + step * Lits(x[..j])) % M32);
    var d := Code(env, x, j + 1, addr, lit, step);
    assert d[Sum(items[..j]) + 1] == 0;
  }

  lemma PoolStep(env: Env, items: seq<Item>, k: nat)
    requires k < |items|
    ensures ChunkPool(env, items, k + 1) == ChunkPool(env, items, k) + if IsLit(items[k]) then [LitValue(env, items[k])] else []
  {
  }

  lemma EmittedStep(env: Env, items: seq<Item>, k: nat, pass: nat, c0: nat, o0: seq<Byte>, n0: nat, l0: nat, p0: seq<Word>,
                    code: nat, out: seq<Byte>, nlit: nat, litpool: nat, pool: seq<Word>)
    requires k < |items| && Emitted(env, items, k, pass, c0, o0, n0, l0, p0, code, out, nlit, litpool, pool)
    ensures var bs, lit := ItemBytes(env, items, k, code % M32, litpool % M32), IsLit(items[k]);
      Emitted(env, items, k + 1, pass, c0, o0, n0, l0, p0, code + |bs|, out + bs, nlit + (if lit then 1 else 0),
        litpool + (if lit && pass != 0 then 4 else 0), if lit && pass != 0 then pool + [LitValue(env, items[k])] else pool)
  {
    hide ItemBytes;
    hide IsLit;
    hide LitValue;
    hide Lits;
    SumStep(items, k);
    var step := if pass == 0 then 0 else 4;
    CodeStep(env, items, k, c0, l0, step);
    hide Code;
    var c, bs := Code(env, items, k, c0, l0, step), ItemBytes(env, items, k, code % M32, litpool % M32);
    assert o0 + c + bs == o0 + (c + bs);
    hide ChunkPool;
    PoolStep(env, items, k);
    if IsLit(items[k]) {
      assert p0 + ChunkPool(env, items, k) + [LitValue(env, items[k])] == p0 + (ChunkPool(env, items, k) + [LitValue(env, items[k])]);
    }
  }

  // ----- what the finished code does

  /** The offset, in the chunks, of what a branch goes to. */
  ghost predicate Exists(t: Target, size: nat) {
    match t
    case Dis(i) => i < size
    case Macro(m) => m < NMACRO
  }

  function TargetOff(chunks: seq<seq<Item>>, size: nat, t: Target): nat
    requires |chunks| == size + NMACRO && Exists(t, size)
  {
    match t
    case Dis(i) => Off(chunks, i)
    case Macro(m) => Off(chunks, size + m)
  }

  lemma OffsetIs(env: Env, chunks: seq<seq<Item>>, size: nat, base: Word, n: nat, image: seq<Byte>, pool: seq<Word>, t: Target)
    requires Compiled(env, chunks, size, base, n, image, pool) && Exists(t, size)
    ensures |chunks| == size + NMACRO && Offset(env, t) == TargetOff(chunks, size, t)
  {
    hide Image;
    hide Pool;
    hide Off;
    hide Fits;
  }

  /** Item `k` of chunk `i`, in the finished code. */
  lemma CompiledItem(env: Env, chunks: seq<seq<Item>>, size: nat, base: Word, n: nat, image: seq<Byte>, pool: seq<Word>, i: nat, k: nat)
    requires Compiled(env, chunks, size, base, n, image, pool) && i < |chunks| && k < |chunks[i]|
    ensures env.base == base && |chunks| == size + NMACRO && At(chunks, i, k) + Len(chunks[i][k]) <= |image| <= n
    ensures base + n + 4 * |pool| <= M32 && pool == Pool(env, chunks, |chunks|) && |pool| == LitsBefore(chunks, |chunks|)
    ensures image[At(chunks, i, k)..At(chunks, i, k) + Len(chunks[i][k])]
            == ItemBytes(env, chunks[i], k, (base + At(chunks, i, k)) % M32, (base + n + 4 * (LitsBefore(chunks, i) + Lits(chunks[i][..k]))) % M32)
  {
    hide ItemBytes;
    hide Image;
    hide Pool;
    hide Off;
    hide Sum;
    hide Len;
    hide Lits;
    hide LitsBefore;
    hide At;
    ItemFound(env, chunks, i, k, base + n);
  }

  lemma Wraps(t: int, a: int)
    ensures (a + 5 + (t - (a + 5)) % M32) % M32 == t % M32
  {
    var d := t - (a + 5);
    assert d % M32 == d - M32 * (d / M32);
    assert a + 5 + d % M32 == t + M32 * (0 - d / M32);
    ModAdds(t, 0 - d / M32);
  }

  lemma ModAdds(t: int, k: int)
    ensures (t + M32 * k) % M32 == t % M32
  {
  }

  lemma BranchBytes(env: Env, items: seq<Item>, k: nat, addr: Word, lit: Word)
    requires k < |items| && items[k].Branch?
    ensures Len(items[k]) == 5 && ItemBytes(env, items, k, addr, lit) == [items[k].op] + Le((Offset(env, items[k].t) + env.base - (addr + 5)) % M32)
  {
  }

  /** Every branch to a Dis instruction or a macro lands on its first byte, whatever the program and wherever the code is. */
  lemma BranchLands(env: Env, chunks: seq<seq<Item>>, size: nat, base: Word, n: nat, image: seq<Byte>, pool: seq<Word>, i: nat, k: nat)
    requires Compiled(env, chunks, size, base, n, image, pool) && i < |chunks| && k < |chunks[i]| && |chunks| == size + NMACRO
    requires chunks[i][k].Branch? && Exists(chunks[i][k].t, size)
    ensures var p, t := At(chunks, i, k), TargetOff(chunks, size, chunks[i][k].t);
      p + 5 <= |image| && image[p] == chunks[i][k].op && (base + p + 5 + Unle(image[p + 1..p + 5])) % M32 == (base + t) % M32
  {
    hide Compiled;
    hide At;
    hide Off;
    hide LitsBefore;
    hide Sum;
    hide Lits;
    hide Pool;
    hide ItemBytes;
    hide Le;
    hide Unle;
    hide Len;
    hide Offset;
    hide TargetOff;
    var p, it := At(chunks, i, k), chunks[i][k];
    OffsetIs(env, chunks, size, base, n, image, pool, it.t);
    CompiledItem(env, chunks, size, base, n, image, pool, i, k);
    BranchBytes(env, chunks[i], k, (base + p) % M32, (base + n + 4 * (LitsBefore(chunks, i) + Lits(chunks[i][..k]))) % M32);
    var w := (Offset(env, it.t) + base - ((base + p) % M32 + 5)) % M32;
    Split5(image, p, it.op, Le(w));
    UnleLe(w);
    Wraps(Offset(env, it.t) + base, (base + p) % M32);
    Wraps2(base + p, 5 + w);
  }

  lemma Split5(image: seq<Byte>, p: nat, op: Byte, w: seq<Byte>)
    requires p + 5 <= |image| && |w| == 4 && image[p..p + 5] == [op] + w
    ensures image[p] == op && image[p + 1..p + 5] == w
  {
    assert image[p] == image[p..p + 5][0];
    assert image[p + 1..p + 5] == image[p..p + 5][1..];
  }

  lemma Wraps2(a: nat, b: nat)
    ensures (a % M32 + b) % M32 == (a + b) % M32
  {
    assert a % M32 + b == a + b + M32 * (0 - a / M32);
    ModAdds(a + b, 0 - a / M32);
  }

  lemma PcBytes(env: Env, items: seq<Item>, k: nat, addr: Word, lit: Word)
    requires k < |items| && items[k].PcWord?
    ensures Len(items[k]) == 4 && ItemBytes(env, items, k, addr, lit) == Le((env.base + Offset(env, Dis(items[k].i))) % M32)
  {
  }

  /** A word that is to hold the address of an instruction does. */
  lemma PcFound(env: Env, chunks: seq<seq<Item>>, size: nat, base: Word, n: nat, image: seq<Byte>, pool: seq<Word>, i: nat, k: nat)
    requires Compiled(env, chunks, size, base, n, image, pool) && i < |chunks| && k < |chunks[i]| && |chunks| == size + NMACRO
    requires chunks[i][k].PcWord? && chunks[i][k].i < size
    ensures var p := At(chunks, i, k); p + 4 <= |image| && Unle(image[p..p + 4]) == (base + Off(chunks, chunks[i][k].i)) % M32
  {
    hide Compiled;
    hide At;
    hide Off;
    hide LitsBefore;
    hide Sum;
    hide Lits;
    hide Pool;
    hide ItemBytes;
    hide Len;
    hide Le;
    hide Unle;
    hide Offset;
    var p, t := At(chunks, i, k), Dis(chunks[i][k].i);
    OffsetIs(env, chunks, size, base, n, image, pool, t);
    CompiledItem(env, chunks, size, base, n, image, pool, i, k);
    PcBytes(env, chunks[i], k, (base + p) % M32, (base + n + 4 * (LitsBefore(chunks, i) + Lits(chunks[i][..k]))) % M32);
    UnleLe((base + Offset(env, t)) % M32);
  }

  /** The instructions that leave the interpreter a program counter by way of `punt`. */
  predicate StoresNext(op: Op) {
    match op
    case ISEND | IRECV | IALT | IBNEC | IBEQC | IBLTC | IBLEC | IBGTC | IBGEC | IRAISE => true
    case _ => false
  }

  lemma {:induction false} InAll(parts: seq<Items>, j: nat, x: Item)
    requires j < |parts| && All(parts).Some?
    ensures parts[j].Some? && (x in parts[j].value ==> x in All(parts).value)
  {
    if j > 0 { InAll(parts[1..], j - 1, x); }
  }

  /** They store the counter of the instruction after them.  After the last instruction of a program there is none, and no
      offset for it: that is where the array of offsets ends. */
  lemma NextPcStored(g: Config, i: Inst, pc: nat)
    requires StoresNext(i.op) && Comp(g, i, pc).Some?
    ensures PcWord(pc + 1) in Comp(g, i, pc).value
  {
    var parts := CompParts(g, i, pc);
    NextPcPart(g, i, pc);
    hide CompParts;
    InAll(parts, 3, PcWord(pc + 1));
  }

  lemma NextPcPart(g: Config, i: Inst, pc: nat)
    requires StoresNext(i.op)
    ensures |CompParts(g, i, pc)| == 9 && (CompParts(g, i, pc)[3].Some? ==> PcWord(pc + 1) in CompParts(g, i, pc)[3].value)
  {
    hide Punt;
    hide CompMove;
    var fl := NextPcFlags(i);
    NextPcPunt(g, i, pc, fl);
    assert CompParts(g, i, pc) == Punt(g, i, pc, fl);
  }

  function NextPcFlags(i: Inst): (fl: set<Flag>)
    requires StoresNext(i.op)
    ensures WRTPC in fl
  {
    match i.op
    case ISEND | IRECV | IALT => {SRCOP, DSTOP, TCHECK, WRTPC}
    case IRAISE => {SRCOP, WRTPC, NEWPC}
    case _ => {SRCOP, DBRAN, NEWPC, WRTPC}
  }

  lemma NextPcPunt(g: Config, i: Inst, pc: nat, fl: set<Flag>)
    requires WRTPC in fl
    ensures |Punt(g, i, pc, fl)| == 9 && (Punt(g, i, pc, fl)[3].Some? ==> PcWord(pc + 1) in Punt(g, i, pc, fl)[3].value)
  {
    var x: seq<Item> := [Mod(Omov, g.off(RegPC), RTMP, 0), PcWord(pc + 1)];
    assert x[1] == PcWord(pc + 1);
  }

  lemma {:induction false} ChunkPoolAt(env: Env, items: seq<Item>, k: nat, j: nat)
    requires k < j <= |items| && IsLit(items[k])
    ensures Lits(items[..k]) < |ChunkPool(env, items, j)| && ChunkPool(env, items, j)[Lits(items[..k])] == LitValue(env, items[k])
  {
    hide LitValue;
    hide IsLit;
    hide Lits;
    ChunkPoolLength(env, items, k);
    if j > k + 1 {
      ChunkPoolAt(env, items, k, j - 1);
    }
  }

  lemma {:induction false} PoolPrefix(env: Env, chunks: seq<seq<Item>>, i: nat, j: nat)
    requires i <= j <= |chunks|
    ensures Pool(env, chunks, i) <= Pool(env, chunks, j)
  {
    hide ChunkPool;
    if i < j {
      PoolPrefix(env, chunks, i, j - 1);
    }
  }

  lemma PoolAt(env: Env, chunks: seq<seq<Item>>, i: nat, k: nat)
    requires i < |chunks| && k < |chunks[i]| && IsLit(chunks[i][k])
    ensures var idx := LitsBefore(chunks, i) + Lits(chunks[i][..k]);
      idx < LitsBefore(chunks, |chunks|) && |Pool(env, chunks, |chunks|)| == LitsBefore(chunks, |chunks|)
      && Pool(env, chunks, |chunks|)[idx] == LitValue(env, chunks[i][k])
  {
    hide LitValue;
    hide IsLit;
    hide Lits;
    var items := chunks[i];
    ChunkPoolAt(env, items, k, |items|);
    PoolLength(env, chunks, i);
    PoolLength(env, chunks, |chunks|);
    PoolPrefix(env, chunks, i + 1, |chunks|);
    assert Pool(env, chunks, i + 1) == Pool(env, chunks, i) + ChunkPool(env, items, |items|);
    hide Pool;
    hide ChunkPool;
  }

  lemma LiteralBytes(env: Env, items: seq<Item>, k: nat, addr: Word, lit: Word)
    requires k < |items| && IsLit(items[k])
    ensures Len(items[k]) >= 5
    ensures |ItemBytes(env, items, k, addr, lit)| == Len(items[k]) && ItemBytes(env, items, k, addr, lit)[..5] == [Omovimm] + Le(lit)
  {
    hide Le;
  }

  /** Every literal is loaded from a place of its own in the pool, behind the code, and is what is stored there. */
  lemma LiteralFound(env: Env, chunks: seq<seq<Item>>, size: nat, base: Word, n: nat, image: seq<Byte>, pool: seq<Word>, i: nat, k: nat)
    requires Compiled(env, chunks, size, base, n, image, pool) && i < |chunks| && k < |chunks[i]| && IsLit(chunks[i][k])
    ensures var p, idx := At(chunks, i, k), LitsBefore(chunks, i) + Lits(chunks[i][..k]);
      && p + 5 <= |image| <= n && idx < |pool| && image[p] == Omovimm
      && Unle(image[p + 1..p + 5]) == base + n + 4 * idx && pool[idx] == LitValue(env, chunks[i][k])
  {
    hide Compiled;
    hide At;
    hide Off;
    hide LitsBefore;
    hide Sum;
    hide Lits;
    hide Pool;
    hide ItemBytes;
    hide Len;
    hide Le;
    hide Unle;
    hide LitValue;
    hide IsLit;
    var p, idx := At(chunks, i, k), LitsBefore(chunks, i) + Lits(chunks[i][..k]);
    CompiledItem(env, chunks, size, base, n, image, pool, i, k);
    PoolAt(env, chunks, i, k);
    var w := (base + n + 4 * idx) % M32;
    assert w == base + n + 4 * idx;
    LiteralBytes(env, chunks[i], k, (base + p) % M32, w);
    SliceAt(image, image[p..p + Len(chunks[i][k])], p, 0, 5);
    Split5(image, p, Omovimm, Le(w));
    UnleLe(w);
  }

  // ----- short jumps

  lemma {:induction false} AllInside(parts: seq<Items>)
    requires forall i :: 0 <= i < |parts| ==> Brief(parts[i])
    ensures All(parts).Some? ==> Inside(All(parts).value)
  {
    if parts != [] {
      AllInside(parts[1..]);
    }
  }

  /** The short jumps of an instruction go forward, within its code. */
  lemma CompInside(g: Config, i: Inst, pc: nat)
    ensures Comp(g, i, pc).Some? ==> Inside(Comp(g, i, pc).value)
  {
    hide CompParts;
    PartsModest(g, i, pc);
    AllInside(CompParts(g, i, pc));
  }

  lemma {:induction false} DistanceBound(items: seq<Item>, j: nat, k: nat)
    requires j <= k <= |items|
    ensures 0 <= Sum(items[..k]) - Sum(items[..j]) <= 11 * (k - j)
  {
    if j < k {
      DistanceBound(items, j, k - 1);
      SumStep(items, k - 1);
    }
  }

  lemma ShortBytes(env: Env, items: seq<Item>, k: nat, addr: Word, lit: Word)
    requires k < |items| && items[k].Short?
    ensures Len(items[k]) == 2 && ItemBytes(env, items, k, addr, lit) == [items[k].op, Distance(items, k, items[k].n) % 256]
  {
  }

  /** If call `k` is a short jump, it goes to a call of the same list, or to the end, and not too far. */
  predicate Reaches(items: seq<Item>, k: nat)
    requires k < |items|
  {
    items[k].Short? ==> 0 <= k + 1 + items[k].n <= |items| && -128 <= Distance(items, k, items[k].n) < 128
  }

  predicate AllReach(items: seq<Item>) {
    forall k :: 0 <= k < |items| ==> Reaches(items, k)
  }

  lemma InsideReaches(items: seq<Item>)
    requires Inside(items)
    ensures AllReach(items)
  {
    forall k | 0 <= k < |items| ensures Reaches(items, k) {
      if items[k].Short? {
        DistanceBound(items, k + 1, k + 1 + items[k].n);
      }
    }
  }

  /** The short jumps of every instruction reach their labels. */
  lemma CompReaches(g: Config, i: Inst, pc: nat)
    ensures Comp(g, i, pc).Some? ==> AllReach(Comp(g, i, pc).value)
  {
    hide Comp;
    CompInside(g, i, pc);
    if Comp(g, i, pc).Some? {
      InsideReaches(Comp(g, i, pc).value);
    }
  }

  /** A short jump lands on the call it is meant for exactly if it is not too far. */
  lemma ShortLands(env: Env, chunks: seq<seq<Item>>, size: nat, base: Word, n: nat, image: seq<Byte>, pool: seq<Word>, i: nat, k: nat)
    requires Compiled(env, chunks, size, base, n, image, pool) && i < |chunks| && k < |chunks[i]|
    requires chunks[i][k].Short? && 0 <= k + 1 + chunks[i][k].n <= |chunks[i]|
    ensures var p, d := At(chunks, i, k), chunks[i][k].n;
      && p + 2 <= |image| && image[p] == chunks[i][k].op
      && (p + 2 + SignedByte(image[p + 1]) == At(chunks, i, k + 1 + d) <==> Reaches(chunks[i], k))
  {
    hide Compiled;
    hide Off;
    hide LitsBefore;
    hide Sum;
    hide Lits;
    hide Pool;
    hide ItemBytes;
    hide Len;
    var p, items := At(chunks, i, k), chunks[i];
    CompiledItem(env, chunks, size, base, n, image, pool, i, k);
    ShortBytes(env, items, k, (base + p) % M32, (base + n + 4 * (LitsBefore(chunks, i) + Lits(chunks[i][..k]))) % M32);
    assert image[p] == image[p..p + 2][0] && image[p + 1] == image[p..p + 2][1];
    SumStep(items, k);
    ShortLength(items, k);
  }

  lemma ShortLength(items: seq<Item>, k: nat)
    requires k < |items| && items[k].Short?
    ensures Len(items[k]) == 2
  {
  }

  // ----- the short jumps of the macros

  lemma {:induction false} SumAppend(a: seq<Item>, b: seq<Item>)
    ensures Sum(a + b) == Sum(a) + Sum(b)
  {
    if b == [] {
      assert a + b == a;
    } else {
      var k := |b| - 1;
      SumAppend(a, b[..k]);
      assert (a + b)[..|a + b| - 1] == a + b[..k] && (a + b)[|a + b| - 1] == b[k];
    }
  }

  lemma {:induction false} DistanceWithin(items: seq<Item>, j: nat, k: nat, w: nat)
    requires j <= k <= |items| && forall i :: 0 <= i < |items| ==> Len(items[i]) <= w
    ensures 0 <= Sum(items[..k]) - Sum(items[..j]) <= w * (k - j)
  {
    hide *;
    if j < k {
      DistanceWithin(items, j, k - 1, w);
      SumStep(items, k - 1);
      assert items[..k - 1 + 1] == items[..k];
      TimesStep(w, k - 1 - j);
    }
  }

  lemma TimesStep(w: nat, n: nat)
    ensures w * (n + 1) == w * n + w
  {
  }

  lemma CaseItems(k: nat)
    requires k < |MacCase()|
    ensures |MacCase()| == 36 && Len(MacCase()[k]) <= 3
    ensures var it := MacCase()[k]; it.Short? ==> -21 <= it.n <= 23 && 0 <= k + 1 + it.n <= 36
  {
  }

  /** The case macro depends on no address or offset, and its jumps, two of them backward, reach their labels. */
  lemma CaseReaches()
    ensures AllReach(MacCase())
  {
    hide Len;
    hide MacCase;
    hide Distance;
    var items := MacCase();
    forall k | 0 <= k < |items| ensures Len(items[k]) <= 3 {
      CaseItems(k);
    }
    forall k | 0 <= k < |items| ensures Reaches(items, k) {
      CaseItems(k);
      if items[k].Short? {
        Within(items, k, items[k].n, 3);
      }
    }
  }

  lemma Within(items: seq<Item>, k: nat, n: int, w: nat)
    requires k < |items| && 0 <= k + 1 + n <= |items| && forall i :: 0 <= i < |items| ==> Len(items[i]) <= w
    ensures if n >= 0 then 0 <= Distance(items, k, n) <= w * n else 0 <= 0 - Distance(items, k, n) <= w * (0 - n)
  {
    hide Len;
    if n >= 0 {
      DistanceWithin(items, k + 1, k + 1 + n, w);
    } else {
      DistanceWithin(items, k + 1 + n, k + 1, w);
    }
  }

  /** The number of bytes between the first short jump of macret and the label lpunt. */
  function RetSpan(g: Config): nat {
    Sum(RetBetween(g))
  }

  lemma RetParts(g: Config)
    ensures |RetBetween(g)| == 40 && |MacRet(g)| == 61 && MacRet(g)[3] == Short(Ojeqb, 40) && MacRet(g)[4..44] == RetBetween(g)
  {
    assert |RetHead(g)| == 7 && |RetRelease(g)| == 3 && |RetMiddle(g)| == 3 && |RetModule(g)| == 6 && |RetCompiled(g)| == 7
           && |RetInterp(g)| == 13 && |RetPunt(g)| == 17;
    hide RetHead;
    hide RetRelease;
    hide RetMiddle;
    hide RetModule;
    hide RetCompiled;
    hide RetInterp;
    hide RetPunt;
    assert |RetBetween(g)| == 40;
    hide RetBetween;
  }

  lemma RetShort(g: Config, k: nat)
    requires k < 61
    ensures |MacRet(g)| == 61
    ensures MacRet(g)[k].Short? ==> k >= 3 && MacRet(g)[k].n >= 0 && k + 1 + MacRet(g)[k].n <= 44
  {
  }

  lemma SumParts(items: seq<Item>, j: nat, k: nat)
    requires j <= k <= |items|
    ensures Sum(items[..k]) == Sum(items[..j]) + Sum(items[j..k])
  {
    assert items[..k] == items[..j] + items[j..k];
    SumAppend(items[..j], items[j..k]);
  }

  lemma SpanIs(g: Config)
    ensures |MacRet(g)| == 61 && MacRet(g)[3] == Short(Ojeqb, 40) && Distance(MacRet(g), 3, 40) == RetSpan(g)
  {
    RetParts(g);
    hide MacRet;
    hide RetBetween;
    hide Sum;
    SumParts(MacRet(g), 4, 44);
  }

  /** The short jumps of macret all reach their labels if and only if its code up to lpunt is short enough. */
  lemma RetReaches(g: Config)
    ensures AllReach(MacRet(g)) <==> RetSpan(g) < 128
  {
    hide MacRet;
    hide RetSpan;
    SpanIs(g);
    var items := MacRet(g);
    if RetSpan(g) < 128 {
      forall k | 0 <= k < |items| ensures Reaches(items, k) {
        RetShort(g, k);
        if items[k].Short? {
          SumMonotone(items, 4, k + 1);
          SumMonotone(items, k + 1, k + 1 + items[k].n);
          SumMonotone(items, k + 1 + items[k].n, 44);
        }
      }
    } else {
      assert !Reaches(items, 3);
    }
  }

  /** A list of calls of at most three bytes each, but for one of at most five. */
  lemma {:induction false} PartBound(s: seq<Item>, x: nat)
    requires forall i :: 0 <= i < |s| ==> Len(s[i]) <= if i == x then 5 else 3
    ensures Sum(s) <= 3 * |s| + if x < |s| then 2 else 0
  {
    hide Len;
    if s != [] {
      PartBound(s[..|s| - 1], x);
    }
  }

  /** It is, if the offsets of all structure fields fit a byte. */
  lemma SmallOffsets(g: Config)
    requires forall s :: Bc(g.off(s))
    ensures RetSpan(g) < 128
  {
    var j: seq<Item> := [Short(Ojeqb, |RetCompiled(g)|)];
    PartBound(RetHead(g), 7);
    PartBound(RetRelease(g), 0);
    PartBound(RetMiddle(g), 3);
    PartBound(RetModule(g), 6);
    PartBound(j, 1);
    PartBound(RetCompiled(g), 1);
    PartBound(RetInterp(g), 1);
    assert |RetHead(g)| == 7 && |RetRelease(g)| == 3 && |RetMiddle(g)| == 3 && |RetModule(g)| == 6 && |RetCompiled(g)| == 7 && |RetInterp(g)| == 13;
    hide RetHead;
    hide RetRelease;
    hide RetMiddle;
    hide RetModule;
    hide RetCompiled;
    hide RetInterp;
    hide Sum;
    var a, b, c, d, e, f, h := RetHead(g), RetRelease(g), RetMiddle(g), RetModule(g), j, RetCompiled(g), RetInterp(g);
    SumAppend(a, b);
    SumAppend(a + b, c);
    SumAppend(a + b + c, d);
    SumAppend(a + b + c + d, e);
    SumAppend(a + b + c + d + e, f);
    SumAppend(a + b + c + d + e + f, h);
  }

  /** The short jumps of all macros reach their labels if and only if those of macret do. */
  lemma MacrosReach(g: Config, j: nat)
    requires j < NMACRO
    ensures AllReach(Macros(g)[j]) <==> (j == 1 ==> RetSpan(g) < 128)
  {
    if j == 1 {
      RetReaches(g);
    } else if j == 2 {
      CaseReaches();
    } else {
      hide Distance;
      hide Sum;
      OthersInside(g, j);
      InsideReaches(Macros(g)[j]);
    }
  }

  lemma OthersInside(g: Config, j: nat)
    requires j < NMACRO && j != 1 && j != 2
    ensures Inside(Macros(g)[j])
  {
    MacFrpInside(g);
    MacColrInside(g);
    MacCallsInside(g);
    MacFramesInside(g);
    hide Inside;
    hide MacFrp;
    hide MacColr;
    hide MacMcal;
    hide MacFram;
    hide MacMfra;
    hide MacRelq;
  }

  lemma MacFrpInside(g: Config)
    ensures Inside(MacFrp(g))
  {
  }

  lemma MacColrInside(g: Config)
    ensures Inside(MacColr(g))
  {
  }

  lemma MacCallsInside(g: Config)
    ensures Inside(MacMcal(g)) && Inside(MacRelq(g))
  {
  }

  lemma MacFramesInside(g: Config)
    ensures Inside(MacFram(g)) && Inside(MacMfra(g))
  {
  }
}
