/**
  A case statement from end to end: the code that compile writes for a case instruction, run on the processor, goes through
  the macro to the code of the arm that the source table gives.
 */
module JitCases {
  import opened Wrappers
  import opened Words
  import opened Jit
  import opened JitLayout
  import opened JitCompile
  import opened JitRun
  import opened CaseTable
  import CaseSearch
  import Processor

  // ----- the bytes of the macro

  /** Call `k` of the macro, and how long it is. */
  lemma CallText(k: nat)
    requires k < 36
    ensures |MacCase()| == 36 && Len(MacCase()[k]) == |CaseSearch.Text(k)|
  {
  }

  lemma {:induction false} CallPlace(k: nat)
    requires k <= 36
    ensures |MacCase()| == 36 && Sum(MacCase()[..k]) == CaseSearch.Place(k)
  {
    hide MacCase;
    hide CaseSearch.Text;
    hide Len;
    if k == 0 {
      CallText(0);
      assert MacCase()[..0] == [];
    } else {
      hide CaseSearch.Place;
      CallPlace(k - 1);
      CallText(k - 1);
      hide Sum;
      SumStep(MacCase(), k - 1);
      CaseSearch.PlaceNext(k - 1);
    }
  }

  lemma ShortText(k: nat)
    requires k < 36
    ensures |MacCase()| == 36
    ensures MacCase()[k].Short? ==> 0 <= k + 1 + MacCase()[k].n <= 36
    ensures MacCase()[k].Short? ==>
              CaseSearch.Text(k) == [MacCase()[k].op, (CaseSearch.Place(k + 1 + MacCase()[k].n) - CaseSearch.Place(k + 1)) % 256]
  {
  }

  lemma PlainText(k: nat)
    requires k < 36
    ensures |MacCase()| == 36
    ensures !MacCase()[k].Short? ==> Plain(MacCase()[k], CaseSearch.Text(k))
  {
    hide Plain;
    hide CaseSearch.Text;
    LateText(18);
    hide MacCase;
    if k < 2 {
      FirstText(k);
    } else if k < 18 {
      EarlyText(k);
    } else {
      LateText(k);
    }
  }

  lemma FirstText(k: nat)
    requires k < 2
    ensures |MacCase()| == 36 && Plain(MacCase()[k], CaseSearch.Text(k))
  {
    FirstMod();
  }

  lemma EarlyText(k: nat)
    requires 2 <= k < 18
    ensures |MacCase()| == 36
    ensures !MacCase()[k].Short? ==> Plain(MacCase()[k], CaseSearch.Text(k))
  {
    hide ModBytes;
  }

  lemma LateText(k: nat)
    requires 18 <= k < 36
    ensures |MacCase()| == 36
    ensures !MacCase()[k].Short? ==> Plain(MacCase()[k], CaseSearch.Text(k))
  {
    hide ModBytes;
  }

  lemma FirstMod()
    ensures ModBytes(Oldw, 0, RSI, RDX) == CaseSearch.Text(0) && ModBytes(Olea, 4, RSI, RSI) == CaseSearch.Text(1)
  {
  }

  /** Whatever the environment, the macro writes the bytes listed in module CaseSearch. */
  lemma MacroBytes(env: Env, k: nat, addr: Word, lit: Word)
    requires k < 36
    ensures |MacCase()| == 36 && ItemBytes(env, MacCase(), k, addr, lit) == CaseSearch.Text(k)
  {
    hide *;
    var items := MacCase();
    PlainText(k);
    if items[k].Short? {
      var n := items[k].n;
      ShortText(k);
      CallPlace(k + 1);
      CallPlace(k + 1 + n);
      ShortBytes(env, items, k, addr, lit);
      DistanceIs(items, k, n);
    } else {
      PlainBytes(env, items, k, addr, lit, CaseSearch.Text(k));
    }
  }

  lemma DistanceIs(items: seq<Item>, k: nat, n: int)
    requires k < |items| && 0 <= k + 1 + n <= |items|
    ensures Distance(items, k, n) == Sum(items[..k + 1 + n]) - Sum(items[..k + 1])
  {
  }

  /** The macro for case instructions is among the chunks. */
  predicate HasMacro(b: Build) {
    |b.chunks| == b.size + NMACRO && b.chunks[b.size + MacCASE.m] == MacCase()
  }

  lemma MacroInPlace(b: Build, m: Memory)
    requires InMemory(b, m) && HasMacro(b)
    ensures CaseSearch.InPlace(m, b.base + Off(b.chunks, b.size + MacCASE.m))
  {
    hide ItemBytes;
    hide InMemory;
    hide Len;
    hide Off;
    hide Sum;
    hide MacCase;
    hide CaseSearch.Text;
    hide CaseSearch.Place;
    hide Processor.Written;
    var i := b.size + MacCASE.m;
    var a := b.base + Off(b.chunks, i);
    CallText(0);
    forall k | 0 <= k < 36
      ensures a + CaseSearch.Place(k) + |CaseSearch.Text(k)| <= M32
      ensures Processor.Written(m, a + CaseSearch.Place(k), CaseSearch.Text(k))
    {
      CallText(k);
      CallPlace(k);
      var addr, lit := ItemWritten(b, m, i, k);
      MacroBytes(b.env, k, addr, lit);
    }
    assert CaseSearch.Place(35) + |CaseSearch.Text(35)| == 66 by { LastPlace(); }
  }

  lemma LastPlace()
    ensures CaseSearch.Place(35) + |CaseSearch.Text(35)| == 66
  {
  }

  // ----- the case instruction

  /** A case instruction loads the value, saves the frame pointer, and goes to the macro with the address of the table. */
  lemma CaseParts(g: Config, i: Inst, pc: nat)
    requires i.op.ICASE? && i.dst.InMP? && !i.src.NoOperand?
    ensures Access(i.src, Oldw, RAX).Some?
    ensures CompParts(g, i, pc) == [Access(i.src, Oldw, RAX), Some([Raw1(0x56)]),
                                    Some([Mod(Olea, i.dst.ind, RMP, RSI)]), Some([Branch(MacCASE, Ojmp)])]
  {
  }

  lemma ValueNone(o: Operand, s: Cpu)
    requires ValueOf(o, s).Some?
    ensures !o.NoOperand?
  {
  }

  /** The instruction: the value in AX, the frame pointer saved, the table in SI, and on to the macro. */
  lemma RunToMacro(b: Build, m: Memory, g: Config, inst: Inst, i: nat, s0: Cpu) returns (s: Cpu)
    requires InMemory(b, m) && CodeOf(b, g, inst, i) && inst.op.ICASE? && inst.dst.InMP?
    requires s0.pc == Here(b, i, 0) && ValueOf(inst.src, s0).Some?
    ensures Processor.Runs(m, s0, s) && s.pc == TargetAt(b, MacCASE) % M32
    ensures s.r.ax == ValueOf(inst.src, s0).value && s.r.si == (s0.r.di + inst.dst.ind) % M32 && s.r.di == s0.r.di && s.r.bp == s0.r.bp
    ensures s.stack == s0.stack + [s0.r.si] && s.data == s0.data
  {
    hide InMemory;
    hide Here;
    hide IsAt;
    hide Comp;
    hide TargetAt;
    hide Processor.Runs;
    hide CompParts;
    ValueNone(inst.src, s0);
    CaseParts(g, inst, i);
    CodeIs(b, g, inst, i, CompParts(g, inst, i));
    hide CodeOf;
    hide ValueOf;
    var items := b.chunks[i];
    FourParts(items, Access(inst.src, Oldw, RAX), Some([Raw1(0x56)]), Some([Mod(Olea, inst.dst.ind, RMP, RSI)]), Some([Branch(MacCASE, Ojmp)]));
    hide All;
    var k := |Access(inst.src, Oldw, RAX).value|;
    FromAt(items, k, [Raw1(0x56)], 0);
    FromAt(items, k + 1, [Mod(Olea, inst.dst.ind, RMP, RSI)], 0);
    FromAt(items, k + 2, [Branch(MacCASE, Ojmp)], 0);
    hide Access;
    hide From;
    Processor.RunsNone(m, s0);
    s := RunLoad(b, m, i, 0, inst.src, RAX, s0, s0);
    HereSmall(b, m, i, k);
    PushIsAt(b, m, i, k);
    s := Run(b, m, i, k, 1, Processor.Push(Processor.Register(RSI)), s0, s);
    HereSmall(b, m, i, k + 1);
    ModIsAt(b, m, i, k + 1, Olea, inst.dst.ind, RMP, RSI);
    s := Run(b, m, i, k + 1, 1, Processor.Address(RSI, Processor.Operand.At(RMP, None, inst.dst.ind)), s0, s);
    HereSmall(b, m, i, k + 2);
    var disp := JumpIsAt(b, m, i, k + 2, MacCASE);
    s := Run(b, m, i, k + 2, 1, Processor.Branch(disp), s0, s);
  }

  lemma PatchIs(b: Build, m: Memory)
    requires InMemory(b, m)
    ensures |b.env.patch| == b.size && |b.chunks| == b.size + NMACRO
  {
  }

  lemma FirstByte(b: Build, i: nat)
    requires i < |b.chunks|
    ensures Here(b, i, 0) == b.base + Off(b.chunks, i)
  {
    assert b.chunks[i][..0] == [];
  }

  lemma InPlaceSmall(m: Memory, a: nat)
    requires CaseSearch.InPlace(m, a)
    ensures a < M32
  {
  }

  /** The word in a relocated table, taken as an address, is where the code of the arm begins. */
  lemma ArmAddress(b: Build, m: Memory, arm: nat)
    requires InMemory(b, m) && arm < b.size && HasMacro(b) && b.base + Off(b.chunks, b.size + MacCASE.m) < M32
    ensures |b.env.patch| == b.size && arm < |b.chunks|
    ensures Reloc(b.base, b.env.patch, arm) % M32 == b.base + Off(b.chunks, arm)
  {
    hide Off;
    assert b.env.patch[arm] == Off(b.chunks, arm);
    OffMonotone(b.chunks, arm, b.size + MacCASE.m);
    Unwrapped(b.base + Off(b.chunks, arm));
  }

  lemma Unwrapped(x: nat)
    requires x < M32
    ensures Wrap32(x) % M32 == x
  {
  }

  /** The code of instruction `i` begins here. */
  predicate AtCode(b: Build, pc: nat, i: int) {
    0 <= i < b.size && b.size <= |b.chunks| && pc == b.base + Off(b.chunks, i)
  }

  /** Module data `was`, with a sorted table at `d`, has become `mp` in the two passes, and is in memory. */
  ghost predicate TableReady(b: Build, s: Cpu, mp: seq<int>, was: seq<int>, cases: seq<nat>, d: nat) {
    && Tables(was, cases, b.size) && State(mp, was, {}, TableSet(cases), b.base, b.env.patch)
    && d in cases && HasTable(was, d) && Sorted(was, d) && CaseSearch.TableIn(s.data, s.r.di, mp, d)
  }

  /** The code of the arm for `v` begins here. */
  predicate AtArm(b: Build, pc: nat, was: seq<int>, d: nat, v: int) {
    HasTable(was, d) && AtCode(b, pc, Scan(was, d, 0, v))
  }

  /** Where the code of instruction `i` begins, its calls have written it. */
  lemma CodeStands(b: Build, m: Memory, pc: nat, i: int)
    requires InMemory(b, m) && AtCode(b, pc, i)
    ensures Processor.Written(m, pc, Code(b.env, b.chunks[i], |b.chunks[i]|, pc, b.base + b.n + 4 * LitsBefore(b.chunks, i), 4))
  {
    hide Code;
    hide Image;
    hide Pool;
    hide Sum;
    hide LitsBefore;
    hide Fits;
    hide Off;
    var items := b.chunks[i];
    ChunkFound(b.env, b.chunks, i, b.base + b.n);
    ChunkPlaced(b.base, b.chunks, i);
    CodeLength(b.env, items, |items|, pc, b.base + b.n + 4 * LitsBefore(b.chunks, i), 4);
    assert items[..|items|] == items;
  }

  /** Dispatch, from end to end: wherever the code is, and whatever the source operand, the code written for a case
      instruction runs, for every value, to the first byte of the code of the arm that the table of the Dis program gives;
      data, stack, frame pointer and module pointer are as they were. */
  lemma DispatchLands(b: Build, m: Memory, g: Config, inst: Inst, i: nat, s0: Cpu, v: int,
                      mp: seq<int>, was: seq<int>, cases: seq<nat>, d: nat)
    returns (s: Cpu)
    requires InMemory(b, m) && HasMacro(b)
    requires CodeOf(b, g, inst, i) && inst.op.ICASE? && inst.dst.InMP? && inst.dst.ind == 4 * d
    requires TableReady(b, s0, mp, was, cases, d)
    requires AtCode(b, s0.pc, i) && CaseSearch.Int32(v) && ValueOf(inst.src, s0) == Some(v % M32)
    ensures Processor.Runs(m, s0, s) && AtArm(b, s.pc, was, d, v)
    ensures s.data == s0.data && s.stack == s0.stack && s.r.si == s0.r.si && s.r.di == s0.r.di && s.r.bp == s0.r.bp
  {
    hide InMemory;
    hide Off;
    hide Comp;
    hide State;
    hide Tables;
    hide Scan;
    hide Sorted;
    hide ValueOf;
    hide CaseSearch.TableIn;
    hide CaseSearch.InPlace;
    hide Processor.Runs;
    PatchIs(b, m);
    CompiledCaseIsCorrect(mp, was, cases, b.base, b.env.patch, d, v);
    FirstByte(b, i);
    s := RunToMacro(b, m, g, inst, i, s0);
    MacroInPlace(b, m);
    var a := b.base + Off(b.chunks, b.size + MacCASE.m);
    InPlaceSmall(m, a);
    CaseSearch.TableHas(s.data, s0.r.di, mp, d);
    var t := CaseSearch.SearchReachesArm(m, s, a, s0.r.di, mp, d, v);
    Processor.RunsOn(m, s0, s, t);
    ArmAddress(b, m, Scan(was, d, 0, v));
    s := t;
  }
}
