/** The short jumps of libinterp/comp-386.c whose displacements are constants: when they land where they are meant to. */
module JitJumps {
  import opened Wrappers
  import opened Words
  import opened Jit
  import opened JitLayout
  import opened JitCompile

  /** The displacement of the jump at call `k` is the length of the next `n` calls; of those before it, if `n` is
      negative. */
  predicate Hops(items: seq<Item>, k: nat, n: int) {
    k < |items| && items[k].Raw2? && 0 <= k + 1 + n <= |items| && Distance(items, k, n) == SignedByte(items[k].b2)
  }

  lemma RawBytes(env: Env, items: seq<Item>, k: nat, addr: Word, lit: Word)
    requires k < |items| && items[k].Raw2?
    ensures Len(items[k]) == 2 && ItemBytes(env, items, k, addr, lit) == [items[k].b1, items[k].b2]
  {
  }

  /** In the finished code such a jump lands on the first byte of the call it is meant for if and only if that is so. */
  lemma HopLands(env: Env, chunks: seq<seq<Item>>, size: nat, base: Word, n: nat, image: seq<Byte>, pool: seq<Word>, i: nat, k: nat, d: int)
    requires Compiled(env, chunks, size, base, n, image, pool) && i < |chunks| && k < |chunks[i]|
    requires chunks[i][k].Raw2? && 0 <= k + 1 + d <= |chunks[i]|
    ensures var p := At(chunks, i, k);
      && p + 2 <= |image| && image[p] == chunks[i][k].b1
      && (p + 2 + SignedByte(image[p + 1]) == At(chunks, i, k + 1 + d) <==> Hops(chunks[i], k, d))
  {
    hide Compiled;
    hide Off;
    hide LitsBefore;
    hide Sum;
    hide Lits;
    hide Pool;
    hide ItemBytes;
    hide Len;
    var p, items := At(chunks, i, k), chunks[i];
    CompiledItem(env, chunks, size, base, n, image, pool, i, k);
    RawBytes(env, items, k, (base + p) % M32, (base + n + 4 * (LitsBefore(chunks, i) + Lits(chunks[i][..k]))) % M32);
    assert image[p] == image[p..p + 2][0] && image[p + 1] == image[p..p + 2][1];
    SumStep(items, k);
  }

  /** It does not matter what is before and after. */
  lemma HopsWithin(pre: seq<Item>, items: seq<Item>, post: seq<Item>, k: nat, n: int)
    requires k < |items| && 0 <= k + 1 + n <= |items|
    ensures Hops(pre + items + post, |pre| + k, n) <==> Hops(items, k, n)
  {
    var all := pre + items + post;
    assert all[..|pre| + k + 1] == pre + items[..k + 1] && all[..|pre| + k + 1 + n] == pre + items[..k + 1 + n];
    SumAppend(pre, items[..k + 1]);
    SumAppend(pre, items[..k + 1 + n]);
    hide Sum;
  }

  lemma AllCons(x: Items, rest: seq<Items>)
    ensures All([x] + rest) == if x.None? || All(rest).None? then None else Some(x.value + All(rest).value)
  {
    assert ([x] + rest)[1..] == rest;
  }

  lemma AllThree(x: Items, y: Items, z: Items)
    ensures All([x, y, z]) == if x.None? || y.None? || z.None? then None else Some(x.value + y.value + z.value)
  {
    assert [x, y, z] == [x] + ([y] + ([z] + []));
    AllCons(x, [y] + ([z] + []));
    AllCons(y, [z] + []);
    AllCons(z, []);
    assert All([]) == Some([]);
    hide All;
    if x.Some? && y.Some? && z.Some? {
      assert z.value + [] == z.value && x.value + (y.value + z.value) == x.value + y.value + z.value;
    }
  }

  // ----- the lengths of strings, arrays and lists

  lemma ArrayLengthHops(g: Config)
    ensures Hops(ArrayLength(g), 3, 1) <==> g.off(ArrayLen) == 0
  {
    hide Sum;
    var items := ArrayLength(g);
    assert |items| == 5 && items[3] == Raw2(Ojeqb, 2) && items[4] == Mod(Oldw, g.off(ArrayLen), RBX, RAX);
    SumStep(items, 4);
  }

  lemma StringLengthHops(g: Config)
    ensures Hops(StringLength(g), 3, 5) <==> g.off(StringLen) == 0
    ensures Hops(StringLength(g), 7, 1)
  {
    hide Sum;
    var items := StringLength(g);
    assert |items| == 9 && items[3] == Raw2(Ojeqb, 9) && items[4] == Mod(Oldw, g.off(StringLen), RBX, RAX)
           && items[5].Raw2? && items[6].Raw1? && items[7] == Raw2(Ojgeb, 2) && items[8].Raw2?;
    SumStep(items, 4);
    SumStep(items, 5);
    SumStep(items, 6);
    SumStep(items, 7);
    SumStep(items, 8);
  }

  lemma ListLengthHops(g: Config)
    ensures Hops(ListLength(g), 2, 3) <==> g.off(ListTail) == 0
    ensures Hops(ListLength(g), 5, -6) <==> g.off(ListTail) == 0
  {
    hide Sum;
    var items := ListLength(g);
    assert |items| == 6 && items[0].Raw2? && items[1].Raw1? && items[2] == Raw2(Ojeqb, 5) && items[3] == Mod(Oldw, g.off(ListTail), RBX, RBX)
           && items[4].Raw1? && items[5] == Raw2(Ojmpb, 0xf6);
    SumStep(items, 0);
    SumStep(items, 1);
    SumStep(items, 2);
    SumStep(items, 3);
    SumStep(items, 4);
    SumStep(items, 5);
  }

  /** In the code of lena, lenc and lenl: the jumps over the load of a length or of a tail, and the loop of lenl, are
      right if and only if that field comes first in its structure. */
  lemma LengthJumps(g: Config, i: Inst, pc: nat)
    requires Comp(g, i, pc).Some? && (i.op == ILENA || i.op == ILENC || i.op == ILENL)
    ensures var items := Comp(g, i, pc).value;
      && OpWld(i, Oldw, RBX).Some?
      && var k := |OpWld(i, Oldw, RBX).value|;
         && (i.op == ILENA ==> (Hops(items, k + 3, 1) <==> g.off(ArrayLen) == 0))
         && (i.op == ILENC ==> (Hops(items, k + 3, 5) <==> g.off(StringLen) == 0) && Hops(items, k + 7, 1))
         && (i.op == ILENL ==> (Hops(items, k + 3, 3) <==> g.off(ListTail) == 0) && (Hops(items, k + 6, -6) <==> g.off(ListTail) == 0))
  {
    LengthParts(g, i, pc);
    hide *;
    var pre, post := OpWld(i, Oldw, RBX).value, OpWst(i, Ostw, RAX).value;
    if i.op == ILENA {
      ArrayJumps(g, pre, post);
    } else if i.op == ILENC {
      StringJumps(g, pre, post);
    } else {
      ListJumps(g, [Con(0, RAX)] + pre, post);
    }
  }

  lemma ArrayJumps(g: Config, pre: seq<Item>, post: seq<Item>)
    ensures Hops(pre + ArrayLength(g) + post, |pre| + 3, 1) <==> g.off(ArrayLen) == 0
  {
    LengthSizes(g);
    hide *;
    ArrayLengthHops(g);
    HopsWithin(pre, ArrayLength(g), post, 3, 1);
  }

  lemma StringJumps(g: Config, pre: seq<Item>, post: seq<Item>)
    ensures Hops(pre + StringLength(g) + post, |pre| + 3, 5) <==> g.off(StringLen) == 0
    ensures Hops(pre + StringLength(g) + post, |pre| + 7, 1)
  {
    LengthSizes(g);
    hide *;
    StringLengthHops(g);
    HopsWithin(pre, StringLength(g), post, 3, 5);
    HopsWithin(pre, StringLength(g), post, 7, 1);
  }

  lemma ListJumps(g: Config, pre: seq<Item>, post: seq<Item>)
    ensures Hops(pre + ListLength(g) + post, |pre| + 2, 3) <==> g.off(ListTail) == 0
    ensures Hops(pre + ListLength(g) + post, |pre| + 5, -6) <==> g.off(ListTail) == 0
  {
    LengthSizes(g);
    hide *;
    ListLengthHops(g);
    HopsWithin(pre, ListLength(g), post, 2, 3);
    HopsWithin(pre, ListLength(g), post, 5, -6);
  }

  lemma LengthIsHead(g: Config, i: Inst, pc: nat)
    requires i.op == ILENA || i.op == ILENC || i.op == ILENL
    ensures CompParts(g, i, pc) == CompHead(g, i, pc)
  {
    hide CompHead;
  }

  lemma LengthOpen(g: Config, i: Inst, pc: nat)
    ensures i.op == ILENA ==> CompHead(g, i, pc) == [OpWld(i, Oldw, RBX), Some(ArrayLength(g)), OpWst(i, Ostw, RAX)]
    ensures i.op == ILENC ==> CompHead(g, i, pc) == [OpWld(i, Oldw, RBX), Some(StringLength(g)), OpWst(i, Ostw, RAX)]
    ensures i.op == ILENL ==> CompHead(g, i, pc) == [Some([Con(0, RAX)])] + [OpWld(i, Oldw, RBX), Some(ListLength(g)), OpWst(i, Ostw, RAX)]
  {
    hide CompArith;
    hide MovP;
    hide ArrayLength;
    hide StringLength;
    hide ListLength;
    hide OpWld;
    hide OpWst;
  }

  lemma LengthSizes(g: Config)
    ensures |ArrayLength(g)| == 5 && |StringLength(g)| == 9 && |ListLength(g)| == 6
  {
  }

  lemma LengthParts(g: Config, i: Inst, pc: nat)
    requires Comp(g, i, pc).Some? && (i.op == ILENA || i.op == ILENC || i.op == ILENL)
    ensures OpWld(i, Oldw, RBX).Some? && OpWst(i, Ostw, RAX).Some?
    ensures |ArrayLength(g)| == 5 && |StringLength(g)| == 9 && |ListLength(g)| == 6
    ensures var pre, post := OpWld(i, Oldw, RBX).value, OpWst(i, Ostw, RAX).value;
      Comp(g, i, pc).value == (if i.op == ILENL then [Con(0, RAX)] + pre else pre)
                              + (if i.op == ILENA then ArrayLength(g) else if i.op == ILENC then StringLength(g) else ListLength(g)) + post
  {
    LengthSizes(g);
    LengthIsHead(g, i, pc);
    LengthOpen(g, i, pc);
    hide CompParts;
    hide CompHead;
    hide All;
    hide OpWld;
    hide OpWst;
    hide ArrayLength;
    hide StringLength;
    hide ListLength;
    var ld, st := OpWld(i, Oldw, RBX), OpWst(i, Ostw, RAX);
    if i.op == ILENA {
      AllThree(ld, Some(ArrayLength(g)), st);
    } else if i.op == ILENC {
      AllThree(ld, Some(StringLength(g)), st);
    } else {
      AllThree(ld, Some(ListLength(g)), st);
      AllCons(Some([Con(0, RAX)]), [ld, Some(ListLength(g)), st]);
      if ld.Some? && st.Some? { FourParts([Con(0, RAX)], ld.value, ListLength(g), st.value); }
    }
  }

  lemma FourParts(a: seq<Item>, b: seq<Item>, c: seq<Item>, d: seq<Item>)
    ensures a + (b + c + d) == a + b + c + d
  {
  }

  // ----- the other instructions

  /** In the code of indc, the jumps from the bytes of a string to its runes and over them are right whatever the
      offsets; the backward one goes to the call of the bounds error. */
  lemma CharHops(g: Config)
    ensures Hops(CharChecked(g), 3, 7) && Hops(CharChecked(g), 5, 1) && Hops(CharChecked(g), 13, -8) && CharChecked(g)[6] == Bra(g.bounds, Ocall)
    ensures Hops(CharChecked(g), 10, |CharChecked(g)| - 11)
    ensures Hops(CharUnchecked(g), 2, 4) && Hops(CharUnchecked(g), 6, |CharUnchecked(g)| - 7)
  {
    hide *;
    CharForward(g);
    CharBackward(g);
    CharLast(g);
    CharUncheckedHops(g);
  }

  /** The calls of the checked form. */
  lemma CharCheckedIs(g: Config)
    ensures var items := CharChecked(g);
      && |items| == 14 + |StringRune(g)| && items[3] == Raw2(Ojltb, 16) && items[4].Raw2? && items[5] == Raw2(0x72, 5)
      && items[6] == Bra(g.bounds, Ocall) && items[7].Raw1? && items[8].Raw2? && items[9].Raw2?
      && items[10] == Raw2(Ojmpb, if g.rune4 then 10 else 11) && items[11].Raw2? && items[12].Raw2? && items[13] == Raw2(0x73, 0xee)
      && items[14..] == StringRune(g)
  {
  }

  lemma RuneSum(g: Config)
    ensures Sum(StringRune(g)) == if g.rune4 then 4 else 5
  {
    var items := StringRune(g);
    assert items[..0] == [] && items[..|items|] == items;
    SumStep(items, 0);
    SumStep(items, 1);
    if !g.rune4 { SumStep(items, 2); }
  }

  lemma CharForward(g: Config)
    ensures Hops(CharChecked(g), 3, 7) && Hops(CharChecked(g), 5, 1)
  {
    hide Sum;
    var items := CharChecked(g);
    CharCheckedIs(g);
    hide CharChecked;
    hide StringRune;
    SumStep(items, 4);
    SumStep(items, 5);
    SumStep(items, 6);
    SumStep(items, 7);
    SumStep(items, 8);
    SumStep(items, 9);
    SumStep(items, 10);
  }

  lemma CharBackward(g: Config)
    ensures Hops(CharChecked(g), 13, -8) && CharChecked(g)[6] == Bra(g.bounds, Ocall)
  {
    hide Sum;
    var items := CharChecked(g);
    CharCheckedIs(g);
    hide CharChecked;
    hide StringRune;
    SumStep(items, 6);
    SumStep(items, 7);
    SumStep(items, 8);
    SumStep(items, 9);
    SumStep(items, 10);
    SumStep(items, 11);
    SumStep(items, 12);
    SumStep(items, 13);
  }

  lemma CharLast(g: Config)
    ensures Hops(CharChecked(g), 10, |CharChecked(g)| - 11)
  {
    hide Sum;
    var items := CharChecked(g);
    CharCheckedIs(g);
    RuneSum(g);
    SumParts(items, 14, |items|);
    assert items[14..|items|] == items[14..];
    hide CharChecked;
    hide StringRune;
    SumStep(items, 11);
    SumStep(items, 12);
    SumStep(items, 13);
  }

  lemma CharUncheckedHops(g: Config)
    ensures Hops(CharUnchecked(g), 2, 4) && Hops(CharUnchecked(g), 6, |CharUnchecked(g)| - 7)
  {
    hide Sum;
    var items := CharUnchecked(g);
    assert |items| == 7 + |StringRune(g)| && items[2] == Raw2(Ojltb, 7) && items[3].Raw1? && items[4].Raw2? && items[5].Raw2?
           && items[6] == Raw2(Ojmpb, if g.rune4 then 4 else 5) && items[7..] == StringRune(g);
    RuneSum(g);
    SumParts(items, 7, |items|);
    assert items[7..|items|] == items[7..];
    hide CharUnchecked;
    hide StringRune;
    SumStep(items, 3);
    SumStep(items, 4);
    SumStep(items, 5);
    SumStep(items, 6);
  }

  lemma HopsOne(items: seq<Item>, k: nat)
    requires k + 1 < |items| && items[k].Raw2?
    ensures Hops(items, k, 1) <==> Len(items[k + 1]) == SignedByte(items[k].b2)
  {
    SumStep(items, k + 1);
    hide Sum;
    hide Len;
  }

  /** The jumps over one call of five bytes and over a constant in the code. */
  lemma PlainHops(g: Config, i: Inst, pc: nat, w: Word)
    ensures i.target <= pc ==> Hops(SchedCheck(g, i, pc), 3, 1)
    ensures Hops(Bounds(g), 0, 1)
    ensures Hops(CmpL(RBX, H) + [Gen2(Ojeqb, 5), Branch(MacCOLR, Ocall)], 2, 1)
    ensures Hops([Gen2(Ojmpb, 4), GenW(w), ConHere(RAX)], 0, 1)
  {
    hide Hops;
    hide Sum;
    if i.target <= pc { HopsOne(SchedCheck(g, i, pc), 3); }
    HopsOne(Bounds(g), 0);
    HopsOne(CmpL(RBX, H) + [Gen2(Ojeqb, 5), Branch(MacCOLR, Ocall)], 2);
    HopsOne([Gen2(Ojmpb, 4), GenW(w), ConHere(RAX)], 0);
  }

  lemma {:induction false} ByteRun(items: seq<Item>, j: nat, k: nat)
    requires j <= k <= |items| && forall i :: j <= i < k ==> items[i].Raw1?
    ensures Sum(items[..k]) == Sum(items[..j]) + k - j
  {
    hide Sum;
    if j < k {
      ByteRun(items, j, k - 1);
      SumStep(items, k - 1);
      assert Len(items[k - 1]) == 1;
    }
  }

  /** The jump over the six bytes that leave the compiled code. */
  lemma TrapHops(g: Config)
    ensures Hops(TrapCheck(g), 2, 6)
  {
    hide Sum;
    var items := TrapCheck(g);
    assert |items| == 9 && items[2] == Raw2(Ojeqb, 6) && forall j :: 3 <= j < 9 ==> items[j].Raw1?;
    hide TrapCheck;
    ByteRun(items, 3, 9);
  }

  // ----- macros

  /** macfrp decides in two jumps whether to return early; the second is right if and only if the offset of the reference
      count is a short displacement and not 0. */
  lemma FrpHops(g: Config)
    ensures Hops(MacFrp(g), 2, 1)
    ensures Hops(MacFrp(g), 6, 2) <==> g.off(HeapRef) != 0 && Bc(g.off(HeapRef))
  {
    hide Sum;
    var items := MacFrp(g);
    assert |items| == 17 && items[2] == Raw2(Ojneb, 1) && items[3].Raw1? && items[6] == Raw2(Ojeqb, 4)
           && items[7] == Mod(Odecrm, g.off(HeapRef), RAX, 1) && items[8].Raw1?;
    hide MacFrp;
    SumStep(items, 3);
    SumStep(items, 7);
    SumStep(items, 8);
  }

  lemma ColrHops(g: Config)
    ensures Hops(MacColr(g), 4, 1)
  {
    hide Sum;
    var items := MacColr(g);
    assert |items| == 11 && items[4] == Raw2(Ojneb, 1) && items[5].Raw1?;
    hide MacColr;
    SumStep(items, 5);
  }
}
