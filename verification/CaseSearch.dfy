/**
  The code of the macro for case instructions (maccase, libinterp/comp-386.c), run on a processor: a binary search in a
  relocated table, which ends at the arm.
 */
module CaseSearch {
  import opened Wrappers
  import opened Words
  import opened Processor
  import opened CaseTable

  const AX := 0
  const CX := 1
  const DX := 2
  const BX := 3
  const SI := 6
  const DI := 7

  /** The bytes that call `k` of the macro writes. */
  function Text(k: nat): seq<Byte> {
    match k
    case 0 => [0x8b, 0x16]          //           MOVL   0(SI), DX          n
    case 1 => [0x8d, 0x76, 0x04]    //           LEA    4(SI), SI          t
    case 2 => [0x8b, 0xda]          //           MOVL   DX, BX
    case 3 => [0xd1, 0xe3]          //           SHLL   BX
    case 4 => [0x01, 0xd3]          //           ADDL   DX, BX
    case 5 => [0xff, 0x34]          //           PUSHL  0(SI)(BX*4)        the default arm
    case 6 => [0x9e]
    case 7 => [0x83, 0xfa]          // loop:     CMPL   DX, $0
    case 8 => [0x00]
    case 9 => [0x7e, 0x2b]          //           JLE    def
    case 10 => [0x8b, 0xca]         //           MOVL   DX, CX             n2
    case 11 => [0xd1, 0xe9]         //           SHRL   CX
    case 12 => [0x8b, 0xd9]         //           MOVL   CX, BX
    case 13 => [0xd1, 0xe3]         //           SHLL   BX
    case 14 => [0x01, 0xcb]         //           ADDL   CX, BX
    case 15 => [0x3b, 0x04]         //           CMPL   AX, 0(SI)(BX*4)
    case 16 => [0x9e]
    case 17 => [0x7d, 0x04]         //           JGE    high
    case 18 => [0x8b, 0xd1]         //           MOVL   CX, DX
    case 19 => [0xeb, 0xe8]         //           JMP    loop
    case 20 => [0x3b, 0x44]         // high:     CMPL   AX, 4(SI)(BX*4)
    case 21 => [0x9e, 0x04]
    case 22 => [0x7c, 0x0a]         //           JLT    found
    case 23 => [0x8d, 0x74]         //           LEA    12(SI)(BX*4), SI
    case 24 => [0x9e, 0x0c]
    case 25 => [0x2b, 0xd1]         //           SUBL   CX, DX
    case 26 => [0xff, 0xca]         //           DECL   DX
    case 27 => [0xeb, 0xd8]         //           JMP    loop
    case 28 => [0x8b, 0x44]         // found:    MOVL   8(SI)(BX*4), AX
    case 29 => [0x9e, 0x08]
    case 30 => [0x5e]               //           POPL   SI
    case 31 => [0x5e]               //           POPL   SI
    case 32 => [0xff, 0xe0]         //           JMP    AX
    case 33 => [0x58]               // def:      POPL   AX
    case 34 => [0x5e]               //           POPL   SI
    case 35 => [0xff, 0xe0]         //           JMP    AX
    case _ => []
  }

  /** Where it writes them, from the beginning of the macro. */
  function Place(k: nat): nat {
    match k
    case 0 => 0 case 1 => 2 case 2 => 5 case 3 => 7 case 4 => 9 case 5 => 11
    case 6 => 13 case 7 => 14 case 8 => 16 case 9 => 17 case 10 => 19 case 11 => 21
    case 12 => 23 case 13 => 25 case 14 => 27 case 15 => 29 case 16 => 31 case 17 => 32
    case 18 => 34 case 19 => 36 case 20 => 38 case 21 => 40 case 22 => 42 case 23 => 44
    case 24 => 46 case 25 => 48 case 26 => 50 case 27 => 52 case 28 => 54 case 29 => 56
    case 30 => 58 case 31 => 59 case 32 => 60 case 33 => 62 case 34 => 63 case 35 => 64
    case _ => 66
  }

  /** The macro is in memory at `a`. */
  predicate InPlace(m: Memory, a: nat) {
    a + 66 <= M32 && forall k :: 0 <= k < 36 ==> Written(m, a + Place(k), Text(k))
  }

  lemma PlaceNext(k: nat)
    requires k < 36
    ensures Place(k + 1) == Place(k) + |Text(k)|
  {
  }

  function Padded(b: seq<Byte>): seq<Byte>
    requires 1 <= |b| <= 4
  {
    [b[0], if |b| > 1 then b[1] else 0, if |b| > 2 then b[2] else 0, if |b| > 3 then b[3] else 0, 0, 0, 0, 0, 0, 0, 0]
  }

  /** The bytes are those of the instruction. */
  predicate Spells(b: seq<Byte>, i: Instruction) {
    1 <= |b| <= 4 && Decode(Padded(b)) == Some((i, |b|))
  }

  lemma StandsWritten(m: Memory, a: nat, b: seq<Byte>, i: Instruction)
    requires Written(m, a, b) && Spells(b, i)
    ensures Stands(m, a, i, |b|)
  {
    hide Decode;
    FetchWritten(m, a, b);
    DecodePrefix(Padded(b), Fetch(m, a));
    assert Padded(b)[..|b|] == b;
  }

  /** Call `k` writes the instruction `i`. */
  lemma StandsAlone(m: Memory, a: nat, k: nat, i: Instruction)
    requires InPlace(m, a) && k < 36 && Spells(Text(k), i)
    ensures Stands(m, a + Place(k), i, |Text(k)|)
  {
    hide Text;
    hide Place;
    hide Spells;
    hide Stands;
    hide Written;
    StandsWritten(m, a + Place(k), Text(k), i);
  }

  /** Calls `k` and `k + 1` write the instruction `i`. */
  lemma StandsTogether(m: Memory, a: nat, k: nat, i: Instruction)
    requires InPlace(m, a) && k < 35 && Spells(Text(k) + Text(k + 1), i)
    ensures Stands(m, a + Place(k), i, |Text(k) + Text(k + 1)|)
  {
    hide Text;
    hide Place;
    hide Spells;
    hide Stands;
    hide Written;
    PlaceNext(k);
    WrittenTogether(m, a + Place(k), Text(k), Text(k + 1));
    StandsWritten(m, a + Place(k), Text(k) + Text(k + 1), i);
  }

  lemma Room(m: Memory, a: nat)
    requires InPlace(m, a)
    ensures a + 66 <= M32
  {
  }

  lemma PrologueText()
    ensures Text(0) == [0x8b, 0x16]
    ensures Text(1) == [0x8d, 0x76, 0x04]
    ensures Text(2) == [0x8b, 0xda]
  {
  }

  lemma PrologueDecodedA()
    ensures Spells([0x8b, 0x16], Move(Register(DX), At(SI, None, 0)))
  {
  }

  lemma PrologueDecodedB()
    ensures Spells([0x8d, 0x76, 0x04], Address(SI, At(SI, None, 4)))
  {
  }

  lemma PrologueDecodedC()
    ensures Spells([0x8b, 0xda], Move(Register(BX), Register(DX)))
  {
  }

  lemma PrologueSpelled()
    ensures Spells(Text(0), Move(Register(DX), At(SI, None, 0)))
    ensures Spells(Text(1), Address(SI, At(SI, None, 4)))
    ensures Spells(Text(2), Move(Register(BX), Register(DX)))
  {
    hide *;
    PrologueText();
    PrologueDecodedA();
    PrologueDecodedB();
    PrologueDecodedC();
  }

  lemma PrologueText2()
    ensures Text(3) == [0xd1, 0xe3]
    ensures Text(4) == [0x01, 0xd3]
    ensures Text(5) + Text(6) == [0xff, 0x34, 0x9e]
  {
  }

  lemma PrologueDecodedD()
    ensures Spells([0xd1, 0xe3], ShiftLeft(Register(BX)))
  {
  }

  lemma PrologueDecodedE()
    ensures Spells([0x01, 0xd3], Calculate(ADD, Register(BX), Register(DX)))
  {
  }

  lemma PrologueDecodedF()
    ensures Spells([0xff, 0x34, 0x9e], Push(At(SI, Some(BX), 0)))
  {
  }

  lemma PrologueSpelled2()
    ensures Spells(Text(3), ShiftLeft(Register(BX)))
    ensures Spells(Text(4), Calculate(ADD, Register(BX), Register(DX)))
    ensures Spells(Text(5) + Text(6), Push(At(SI, Some(BX), 0)))
  {
    hide *;
    PrologueText2();
    PrologueDecodedD();
    PrologueDecodedE();
    PrologueDecodedF();
  }

  lemma LoopText()
    ensures Text(7) + Text(8) == [0x83, 0xfa, 0x00]
    ensures Text(9) == [0x7e, 0x2b]
  {
  }

  lemma LoopDecodedA()
    ensures Spells([0x83, 0xfa, 0x00], Calculate(CMP, Register(DX), Immediate(0)))
  {
  }

  lemma LoopDecodedB()
    ensures Spells([0x7e, 0x2b], BranchIf(IF_LE, 43))
  {
  }

  lemma LoopSpelled()
    ensures Spells(Text(7) + Text(8), Calculate(CMP, Register(DX), Immediate(0)))
    ensures Spells(Text(9), BranchIf(IF_LE, 43))
  {
    hide *;
    LoopText();
    LoopDecodedA();
    LoopDecodedB();
  }

  lemma MiddleText()
    ensures Text(10) == [0x8b, 0xca]
    ensures Text(11) == [0xd1, 0xe9]
    ensures Text(12) == [0x8b, 0xd9]
  {
  }

  lemma MiddleDecodedA()
    ensures Spells([0x8b, 0xca], Move(Register(CX), Register(DX)))
  {
  }

  lemma MiddleDecodedB()
    ensures Spells([0xd1, 0xe9], ShiftRight(Register(CX)))
  {
  }

  lemma MiddleDecodedC()
    ensures Spells([0x8b, 0xd9], Move(Register(BX), Register(CX)))
  {
  }

  lemma MiddleSpelled()
    ensures Spells(Text(10), Move(Register(CX), Register(DX)))
    ensures Spells(Text(11), ShiftRight(Register(CX)))
    ensures Spells(Text(12), Move(Register(BX), Register(CX)))
  {
    hide *;
    MiddleText();
    MiddleDecodedA();
    MiddleDecodedB();
    MiddleDecodedC();
  }

  lemma MiddleText2()
    ensures Text(13) == [0xd1, 0xe3]
    ensures Text(14) == [0x01, 0xcb]
  {
  }

  lemma MiddleDecodedD()
    ensures Spells([0xd1, 0xe3], ShiftLeft(Register(BX)))
  {
  }

  lemma MiddleDecodedE()
    ensures Spells([0x01, 0xcb], Calculate(ADD, Register(BX), Register(CX)))
  {
  }

  lemma MiddleSpelled2()
    ensures Spells(Text(13), ShiftLeft(Register(BX)))
    ensures Spells(Text(14), Calculate(ADD, Register(BX), Register(CX)))
  {
    hide *;
    MiddleText2();
    MiddleDecodedD();
    MiddleDecodedE();
  }

  lemma LowText()
    ensures Text(15) + Text(16) == [0x3b, 0x04, 0x9e]
    ensures Text(17) == [0x7d, 0x04]
    ensures Text(18) == [0x8b, 0xd1]
  {
  }

  lemma LowDecodedA()
    ensures Spells([0x3b, 0x04, 0x9e], Calculate(CMP, Register(AX), At(SI, Some(BX), 0)))
  {
  }

  lemma LowDecodedB()
    ensures Spells([0x7d, 0x04], BranchIf(IF_GE, 4))
  {
  }

  lemma LowDecodedC()
    ensures Spells([0x8b, 0xd1], Move(Register(DX), Register(CX)))
  {
  }

  lemma LowSpelled()
    ensures Spells(Text(15) + Text(16), Calculate(CMP, Register(AX), At(SI, Some(BX), 0)))
    ensures Spells(Text(17), BranchIf(IF_GE, 4))
    ensures Spells(Text(18), Move(Register(DX), Register(CX)))
  {
    hide *;
    LowText();
    LowDecodedA();
    LowDecodedB();
    LowDecodedC();
  }

  lemma LowText2()
    ensures Text(19) == [0xeb, 0xe8]
  {
  }

  lemma LowDecodedD()
    ensures Spells([0xeb, 0xe8], Branch(-24))
  {
  }

  lemma LowSpelled2()
    ensures Spells(Text(19), Branch(-24))
  {
    hide *;
    LowText2();
    LowDecodedD();
  }

  lemma HighText()
    ensures Text(20) + Text(21) == [0x3b, 0x44, 0x9e, 0x04]
    ensures Text(22) == [0x7c, 0x0a]
    ensures Text(23) + Text(24) == [0x8d, 0x74, 0x9e, 0x0c]
  {
  }

  lemma HighDecodedA()
    ensures Spells([0x3b, 0x44, 0x9e, 0x04], Calculate(CMP, Register(AX), At(SI, Some(BX), 4)))
  {
  }

  lemma HighDecodedB()
    ensures Spells([0x7c, 0x0a], BranchIf(IF_L, 10))
  {
  }

  lemma HighDecodedC()
    ensures Spells([0x8d, 0x74, 0x9e, 0x0c], Address(SI, At(SI, Some(BX), 12)))
  {
  }

  lemma HighSpelled()
    ensures Spells(Text(20) + Text(21), Calculate(CMP, Register(AX), At(SI, Some(BX), 4)))
    ensures Spells(Text(22), BranchIf(IF_L, 10))
    ensures Spells(Text(23) + Text(24), Address(SI, At(SI, Some(BX), 12)))
  {
    hide *;
    HighText();
    HighDecodedA();
    HighDecodedB();
    HighDecodedC();
  }

  lemma HighText2()
    ensures Text(25) == [0x2b, 0xd1]
    ensures Text(26) == [0xff, 0xca]
    ensures Text(27) == [0xeb, 0xd8]
  {
  }

  lemma HighDecodedD()
    ensures Spells([0x2b, 0xd1], Calculate(SUB, Register(DX), Register(CX)))
  {
  }

  lemma HighDecodedE()
    ensures Spells([0xff, 0xca], Decrement(Register(DX)))
  {
  }

  lemma HighDecodedF()
    ensures Spells([0xeb, 0xd8], Branch(-40))
  {
  }

  lemma HighSpelled2()
    ensures Spells(Text(25), Calculate(SUB, Register(DX), Register(CX)))
    ensures Spells(Text(26), Decrement(Register(DX)))
    ensures Spells(Text(27), Branch(-40))
  {
    hide *;
    HighText2();
    HighDecodedD();
    HighDecodedE();
    HighDecodedF();
  }

  lemma FoundText()
    ensures Text(28) + Text(29) == [0x8b, 0x44, 0x9e, 0x08]
    ensures Text(30) == [0x5e]
    ensures Text(31) == [0x5e]
  {
  }

  lemma FoundDecodedA()
    ensures Spells([0x8b, 0x44, 0x9e, 0x08], Move(Register(AX), At(SI, Some(BX), 8)))
  {
  }

  lemma FoundDecodedB()
    ensures Spells([0x5e], Pop(SI))
  {
  }

  lemma FoundDecodedC()
    ensures Spells([0x5e], Pop(SI))
  {
  }

  lemma FoundSpelled()
    ensures Spells(Text(28) + Text(29), Move(Register(AX), At(SI, Some(BX), 8)))
    ensures Spells(Text(30), Pop(SI))
    ensures Spells(Text(31), Pop(SI))
  {
    hide *;
    FoundText();
    FoundDecodedA();
    FoundDecodedB();
    FoundDecodedC();
  }

  lemma FoundText2()
    ensures Text(32) == [0xff, 0xe0]
  {
  }

  lemma FoundDecodedD()
    ensures Spells([0xff, 0xe0], Jump(Register(AX)))
  {
  }

  lemma FoundSpelled2()
    ensures Spells(Text(32), Jump(Register(AX)))
  {
    hide *;
    FoundText2();
    FoundDecodedD();
  }

  lemma DefaultText()
    ensures Text(33) == [0x58]
    ensures Text(34) == [0x5e]
    ensures Text(35) == [0xff, 0xe0]
  {
  }

  lemma DefaultDecodedA()
    ensures Spells([0x58], Pop(AX))
  {
  }

  lemma DefaultDecodedB()
    ensures Spells([0x5e], Pop(SI))
  {
  }

  lemma DefaultDecodedC()
    ensures Spells([0xff, 0xe0], Jump(Register(AX)))
  {
  }

  lemma DefaultSpelled()
    ensures Spells(Text(33), Pop(AX))
    ensures Spells(Text(34), Pop(SI))
    ensures Spells(Text(35), Jump(Register(AX)))
  {
    hide *;
    DefaultText();
    DefaultDecodedA();
    DefaultDecodedB();
    DefaultDecodedC();
  }

  lemma PrologueStands(m: Memory, a: nat)
    requires InPlace(m, a)
    ensures a + 66 <= M32
    ensures Stands(m, a + 0, Move(Register(DX), At(SI, None, 0)), 2)
    ensures Stands(m, a + 2, Address(SI, At(SI, None, 4)), 3)
    ensures Stands(m, a + 5, Move(Register(BX), Register(DX)), 2)
    ensures Stands(m, a + 7, ShiftLeft(Register(BX)), 2)
    ensures Stands(m, a + 9, Calculate(ADD, Register(BX), Register(DX)), 2)
    ensures Stands(m, a + 11, Push(At(SI, Some(BX), 0)), 3)
  {
    hide Spells;
    hide Stands;
    hide InPlace;
    Room(m, a);
    PrologueSpelled();
    PrologueSpelled2();
    StandsAlone(m, a, 0, Move(Register(DX), At(SI, None, 0)));
    StandsAlone(m, a, 1, Address(SI, At(SI, None, 4)));
    StandsAlone(m, a, 2, Move(Register(BX), Register(DX)));
    StandsAlone(m, a, 3, ShiftLeft(Register(BX)));
    StandsAlone(m, a, 4, Calculate(ADD, Register(BX), Register(DX)));
    StandsTogether(m, a, 5, Push(At(SI, Some(BX), 0)));
  }

  lemma LoopStands(m: Memory, a: nat)
    requires InPlace(m, a)
    ensures a + 66 <= M32
    ensures Stands(m, a + 14, Calculate(CMP, Register(DX), Immediate(0)), 3)
    ensures Stands(m, a + 17, BranchIf(IF_LE, 43), 2)
  {
    hide Spells;
    hide Stands;
    hide InPlace;
    Room(m, a);
    LoopSpelled();
    StandsTogether(m, a, 7, Calculate(CMP, Register(DX), Immediate(0)));
    StandsAlone(m, a, 9, BranchIf(IF_LE, 43));
  }

  lemma MiddleStands(m: Memory, a: nat)
    requires InPlace(m, a)
    ensures a + 66 <= M32
    ensures Stands(m, a + 19, Move(Register(CX), Register(DX)), 2)
    ensures Stands(m, a + 21, ShiftRight(Register(CX)), 2)
    ensures Stands(m, a + 23, Move(Register(BX), Register(CX)), 2)
    ensures Stands(m, a + 25, ShiftLeft(Register(BX)), 2)
    ensures Stands(m, a + 27, Calculate(ADD, Register(BX), Register(CX)), 2)
  {
    hide Spells;
    hide Stands;
    hide InPlace;
    Room(m, a);
    MiddleSpelled();
    MiddleSpelled2();
    StandsAlone(m, a, 10, Move(Register(CX), Register(DX)));
    StandsAlone(m, a, 11, ShiftRight(Register(CX)));
    StandsAlone(m, a, 12, Move(Register(BX), Register(CX)));
    StandsAlone(m, a, 13, ShiftLeft(Register(BX)));
    StandsAlone(m, a, 14, Calculate(ADD, Register(BX), Register(CX)));
  }

  lemma LowStands(m: Memory, a: nat)
    requires InPlace(m, a)
    ensures a + 66 <= M32
    ensures Stands(m, a + 29, Calculate(CMP, Register(AX), At(SI, Some(BX), 0)), 3)
    ensures Stands(m, a + 32, BranchIf(IF_GE, 4), 2)
    ensures Stands(m, a + 34, Move(Register(DX), Register(CX)), 2)
    ensures Stands(m, a + 36, Branch(-24), 2)
  {
    hide Spells;
    hide Stands;
    hide InPlace;
    Room(m, a);
    LowSpelled();
    LowSpelled2();
    StandsTogether(m, a, 15, Calculate(CMP, Register(AX), At(SI, Some(BX), 0)));
    StandsAlone(m, a, 17, BranchIf(IF_GE, 4));
    StandsAlone(m, a, 18, Move(Register(DX), Register(CX)));
    StandsAlone(m, a, 19, Branch(-24));
  }

  lemma HighStands(m: Memory, a: nat)
    requires InPlace(m, a)
    ensures a + 66 <= M32
    ensures Stands(m, a + 38, Calculate(CMP, Register(AX), At(SI, Some(BX), 4)), 4)
    ensures Stands(m, a + 42, BranchIf(IF_L, 10), 2)
    ensures Stands(m, a + 44, Address(SI, At(SI, Some(BX), 12)), 4)
    ensures Stands(m, a + 48, Calculate(SUB, Register(DX), Register(CX)), 2)
    ensures Stands(m, a + 50, Decrement(Register(DX)), 2)
    ensures Stands(m, a + 52, Branch(-40), 2)
  {
    hide Spells;
    hide Stands;
    hide InPlace;
    Room(m, a);
    HighSpelled();
    HighSpelled2();
    StandsTogether(m, a, 20, Calculate(CMP, Register(AX), At(SI, Some(BX), 4)));
    StandsAlone(m, a, 22, BranchIf(IF_L, 10));
    StandsTogether(m, a, 23, Address(SI, At(SI, Some(BX), 12)));
    StandsAlone(m, a, 25, Calculate(SUB, Register(DX), Register(CX)));
    StandsAlone(m, a, 26, Decrement(Register(DX)));
    StandsAlone(m, a, 27, Branch(-40));
  }

  lemma FoundStands(m: Memory, a: nat)
    requires InPlace(m, a)
    ensures a + 66 <= M32
    ensures Stands(m, a + 54, Move(Register(AX), At(SI, Some(BX), 8)), 4)
    ensures Stands(m, a + 58, Pop(SI), 1)
    ensures Stands(m, a + 59, Pop(SI), 1)
    ensures Stands(m, a + 60, Jump(Register(AX)), 2)
  {
    hide Spells;
    hide Stands;
    hide InPlace;
    Room(m, a);
    FoundSpelled();
    FoundSpelled2();
    StandsTogether(m, a, 28, Move(Register(AX), At(SI, Some(BX), 8)));
    StandsAlone(m, a, 30, Pop(SI));
    StandsAlone(m, a, 31, Pop(SI));
    StandsAlone(m, a, 32, Jump(Register(AX)));
  }

  lemma DefaultStands(m: Memory, a: nat)
    requires InPlace(m, a)
    ensures a + 66 <= M32
    ensures Stands(m, a + 62, Pop(AX), 1)
    ensures Stands(m, a + 63, Pop(SI), 1)
    ensures Stands(m, a + 64, Jump(Register(AX)), 2)
  {
    hide Spells;
    hide Stands;
    hide InPlace;
    Room(m, a);
    DefaultSpelled();
    StandsAlone(m, a, 33, Pop(AX));
    StandsAlone(m, a, 34, Pop(SI));
    StandsAlone(m, a, 35, Jump(Register(AX)));
  }

  // ----- the search

  predicate Int32(x: int) { -0x8000_0000 <= x < 0x8000_0000 }

  /** The table at word `d` of the module data, which begins at address `org`, is in memory. */
  predicate TableIn(data: map<Word, Word>, org: nat, mp: seq<int>, d: nat) {
    && HasTable(mp, d) && org + 4 * |mp| <= M32
    && forall i :: d <= i <= d + 1 + 3 * mp[d] ==> Int32(mp[i]) && WordIn(data, org + 4 * i, mp[i])
  }

  predicate WordIn(data: map<Word, Word>, at: nat, w: int) {
    at < M32 && at in data && data[at] == w % M32
  }

  /** At the beginning of the macro: the value to look up, the table, and the frame pointer on the stack. */
  predicate Begins(s: Cpu, a: nat, org: nat, d: nat, v: int) {
    s.pc == a && s.r.ax == v % M32 && s.r.si == org + 4 * d && s.stack != [] && Int32(v)
  }

  /** At the label `loop`: the entries from `i` on, `n` of them, are still to be searched. */
  predicate Searching(s: Cpu, s0: Cpu, a: nat, org: nat, mp: seq<int>, d: nat, i: nat, n: nat)
    requires HasTable(mp, d)
  {
    && s.pc == a + 14 && s.r.ax == s0.r.ax && s.r.dx == n && s.r.si == org + 4 * (d + 1 + 3 * i) && s.r.di == s0.r.di
    && s.r.bp == s0.r.bp && s.data == s0.data && s.stack == s0.stack + [mp[d + 1 + 3 * mp[d]] % M32] && i + n <= mp[d]
  }

  /** At the arm, with the frame pointer back. */
  predicate Dispatched(s: Cpu, s0: Cpu, arm: int)
    requires s0.stack != []
  {
    && s.pc == arm % M32 && s.r.si == s0.stack[|s0.stack| - 1] && s.stack == s0.stack[..|s0.stack| - 1]
    && s.r.di == s0.r.di && s.r.bp == s0.r.bp && s.data == s0.data
  }

  lemma TableHas(data: map<Word, Word>, org: nat, mp: seq<int>, d: nat)
    requires TableIn(data, org, mp, d)
    ensures HasTable(mp, d) && org + 4 * |mp| <= M32 && mp[d] < 0x4000_0000
  {
  }

  lemma TableWord(data: map<Word, Word>, org: nat, mp: seq<int>, d: nat, i: nat)
    requires TableIn(data, org, mp, d) && HasTable(mp, d) && d <= i <= d + 1 + 3 * mp[d]
    ensures Int32(mp[i]) && WordIn(data, org + 4 * i, mp[i])
  {
  }

  /** The first two instructions: the length and the first entry. */
  lemma Length(m: Memory, s0: Cpu, a: nat, org: nat, mp: seq<int>, d: nat, v: int) returns (s: Cpu)
    requires InPlace(m, a) && TableIn(s0.data, org, mp, d) && Begins(s0, a, org, d, v)
    ensures Runs(m, s0, s) && s == s0.(pc := (a + 5) % M32, r := s0.r.(dx := mp[d], si := org + 4 * (d + 1)))
  {
    hide Stands;
    hide InPlace;
    hide Runs;
    hide TableIn;
    PrologueStands(m, a);
    TableHas(s0.data, org, mp, d);
    TableWord(s0.data, org, mp, d, d);
    RunsNone(m, s0);
    s := Next(m, s0, s0, Move(Register(DX), At(SI, None, 0)), 2);
    assert s == s0.(pc := a + 2, r := s0.r.(dx := mp[d]));
    s := Next(m, s0, s, Address(SI, At(SI, None, 4)), 3);
  }

  /** The next three: the distance of the default arm, in words. */
  lemma Triple(m: Memory, s0: Cpu, s1: Cpu, a: nat) returns (s: Cpu)
    requires InPlace(m, a) && Runs(m, s0, s1) && s1.pc == (a + 5) % M32 && 3 * s1.r.dx < M32
    ensures Runs(m, s0, s) && s == s1.(pc := (a + 11) % M32, r := s1.r.(bx := 3 * s1.r.dx), flags := s.flags)
  {
    hide Stands;
    hide InPlace;
    hide Runs;
    PrologueStands(m, a);
    s := Next(m, s0, s1, Move(Register(BX), Register(DX)), 2);
    assert s == s1.(pc := a + 7, r := s1.r.(bx := s1.r.dx));
    s := Next(m, s0, s, ShiftLeft(Register(BX)), 2);
    assert s == s1.(pc := a + 9, r := s1.r.(bx := 2 * s1.r.dx), flags := Unknown);
    s := Next(m, s0, s, Calculate(ADD, Register(BX), Register(DX)), 2);
  }

  /** With the default arm on the stack the search begins. */
  lemma Prologue(m: Memory, s0: Cpu, a: nat, org: nat, mp: seq<int>, d: nat, v: int) returns (s: Cpu)
    requires InPlace(m, a) && TableIn(s0.data, org, mp, d) && Begins(s0, a, org, d, v)
    ensures Runs(m, s0, s) && HasTable(mp, d) && Searching(s, s0, a, org, mp, d, 0, mp[d])
  {
    hide Stands;
    hide InPlace;
    hide Runs;
    hide TableIn;
    PrologueStands(m, a);
    TableHas(s0.data, org, mp, d);
    TableWord(s0.data, org, mp, d, d + 1 + 3 * mp[d]);
    s := Length(m, s0, a, org, mp, d, v);
    s := Triple(m, s0, s, a);
    s := Next(m, s0, s, Push(At(SI, Some(BX), 0)), 3);
  }

  /** While entries are left: the middle one. */
  lemma Middle(m: Memory, s0: Cpu, s1: Cpu, a: nat, org: nat, mp: seq<int>, d: nat, i: nat, n: nat) returns (s: Cpu)
    requires InPlace(m, a) && TableIn(s0.data, org, mp, d) && Runs(m, s0, s1)
    requires HasTable(mp, d) && Searching(s1, s0, a, org, mp, d, i, n) && n > 0
    ensures Runs(m, s0, s) && s == s1.(pc := a + 29, r := s1.r.(cx := n / 2, bx := 3 * (n / 2)), flags := s.flags)
  {
    hide Stands;
    hide InPlace;
    hide Runs;
    hide TableIn;
    LoopStands(m, a);
    MiddleStands(m, a);
    TableHas(s0.data, org, mp, d);
    s := Next(m, s0, s1, Calculate(CMP, Register(DX), Immediate(0)), 3);
    assert s == s1.(pc := a + 17, flags := Compared(n, 0));
    s := Next(m, s0, s, BranchIf(IF_LE, 43), 2);
    assert s == s1.(pc := a + 19, flags := Compared(n, 0));
    s := Next(m, s0, s, Move(Register(CX), Register(DX)), 2);
    s := Next(m, s0, s, ShiftRight(Register(CX)), 2);
    assert s == s1.(pc := a + 23, r := s1.r.(cx := n / 2), flags := Unknown);
    s := Next(m, s0, s, Move(Register(BX), Register(CX)), 2);
    s := Next(m, s0, s, ShiftLeft(Register(BX)), 2);
    assert s == s1.(pc := a + 27, r := s1.r.(cx := n / 2, bx := 2 * (n / 2)), flags := Unknown);
    s := Next(m, s0, s, Calculate(ADD, Register(BX), Register(CX)), 2);
  }

  /** At the middle entry, `k`, with its ranges compared. */
  predicate AtEntry(s: Cpu, s0: Cpu, pc: nat, org: nat, mp: seq<int>, d: nat, i: nat, n: nat, v: int, bound: int)
    requires HasTable(mp, d)
  {
    && s.pc == pc && s.r.ax == s0.r.ax == v % M32 && s.r.dx == n && s.r.si == org + 4 * (d + 1 + 3 * i) && s.r.di == s0.r.di
    && s.r.bp == s0.r.bp && s.data == s0.data && s.r.cx == n / 2 && s.r.bx == 3 * (n / 2) && s.stack == s0.stack + [mp[d + 1 + 3 * mp[d]] % M32]
    && i + n <= mp[d] && n > 0 && s.flags == Compared(v % M32, bound % M32)
    && Wrap32(v % M32) == v && Wrap32(bound % M32) == bound
  }

  lemma Wrapped(x: int)
    requires Int32(x)
    ensures Wrap32(x % M32) == x
  {
  }

  lemma CompareLow(m: Memory, s0: Cpu, s1: Cpu, a: nat, org: nat, mp: seq<int>, d: nat, i: nat, n: nat, v: int) returns (s: Cpu)
    requires InPlace(m, a) && TableIn(s0.data, org, mp, d) && Runs(m, s0, s1) && Int32(v) && s0.r.ax == v % M32
    requires HasTable(mp, d) && Searching(s1, s0, a, org, mp, d, i, n) && n > 0
    ensures Runs(m, s0, s) && AtEntry(s, s0, a + 32, org, mp, d, i, n, v, Low(mp, d, i + n / 2))
  {
    hide Stands;
    hide InPlace;
    hide Runs;
    hide TableIn;
    LowStands(m, a);
    TableHas(s0.data, org, mp, d);
    TableWord(s0.data, org, mp, d, d + 1 + 3 * (i + n / 2));
    s := Middle(m, s0, s1, a, org, mp, d, i, n);
    Wrapped(v);
    Wrapped(Low(mp, d, i + n / 2));
    s := Next(m, s0, s, Calculate(CMP, Register(AX), At(SI, Some(BX), 0)), 3);
  }

  /** Below the entry: back to the loop, with the entries before it. */
  lemma Below(m: Memory, s0: Cpu, s1: Cpu, a: nat, org: nat, mp: seq<int>, d: nat, i: nat, n: nat, v: int) returns (s: Cpu)
    requires InPlace(m, a) && HasTable(mp, d) && Runs(m, s0, s1) && i + n / 2 < mp[d]
    requires AtEntry(s1, s0, a + 32, org, mp, d, i, n, v, Low(mp, d, i + n / 2)) && v < Low(mp, d, i + n / 2)
    ensures Runs(m, s0, s) && Searching(s, s0, a, org, mp, d, i, n / 2)
  {
    hide Stands;
    hide InPlace;
    hide Runs;
    LowStands(m, a);
    s := Next(m, s0, s1, BranchIf(IF_GE, 4), 2);
    s := Next(m, s0, s, Move(Register(DX), Register(CX)), 2);
    s := Next(m, s0, s, Branch(-24), 2);
  }

  lemma CompareHigh(m: Memory, s0: Cpu, s1: Cpu, a: nat, org: nat, mp: seq<int>, d: nat, i: nat, n: nat, v: int) returns (s: Cpu)
    requires InPlace(m, a) && TableIn(s0.data, org, mp, d) && HasTable(mp, d) && Runs(m, s0, s1) && Int32(v) && i + n / 2 < mp[d]
    requires AtEntry(s1, s0, a + 32, org, mp, d, i, n, v, Low(mp, d, i + n / 2)) && v >= Low(mp, d, i + n / 2)
    ensures Runs(m, s0, s) && AtEntry(s, s0, a + 42, org, mp, d, i, n, v, High(mp, d, i + n / 2))
  {
    hide Stands;
    hide InPlace;
    hide Runs;
    hide TableIn;
    LowStands(m, a);
    HighStands(m, a);
    TableHas(s0.data, org, mp, d);
    TableWord(s0.data, org, mp, d, d + 2 + 3 * (i + n / 2));
    Wrapped(v);
    Wrapped(High(mp, d, i + n / 2));
    s := Next(m, s0, s1, BranchIf(IF_GE, 4), 2);
    assert s == s1.(pc := a + 38);
    s := Next(m, s0, s, Calculate(CMP, Register(AX), At(SI, Some(BX), 4)), 4);
  }

  /** Above the entry: on to the entries after it. */
  lemma Beyond(m: Memory, s0: Cpu, s1: Cpu, a: nat, org: nat, mp: seq<int>, d: nat, i: nat, n: nat, v: int) returns (s: Cpu)
    requires InPlace(m, a) && TableIn(s0.data, org, mp, d) && HasTable(mp, d) && Runs(m, s0, s1) && i + n / 2 < mp[d]
    requires AtEntry(s1, s0, a + 42, org, mp, d, i, n, v, High(mp, d, i + n / 2)) && v >= High(mp, d, i + n / 2)
    ensures Runs(m, s0, s) && s == s1.(pc := (a + 48) % M32, r := s1.r.(si := s.r.si)) && s.r.si == org + 4 * (d + 1 + 3 * (i + n / 2 + 1))
  {
    hide Stands;
    hide InPlace;
    hide Runs;
    hide TableIn;
    HighStands(m, a);
    TableHas(s0.data, org, mp, d);
    s := Next(m, s0, s1, BranchIf(IF_L, 10), 2);
    assert s == s1.(pc := a + 44);
    s := Next(m, s0, s, Address(SI, At(SI, Some(BX), 12)), 4);
  }

  /** Back to the loop with them. */
  lemma Above(m: Memory, s0: Cpu, s1: Cpu, a: nat, org: nat, mp: seq<int>, d: nat, i: nat, n: nat, v: int) returns (s: Cpu)
    requires InPlace(m, a) && TableIn(s0.data, org, mp, d) && HasTable(mp, d) && Runs(m, s0, s1) && i + n / 2 < mp[d]
    requires AtEntry(s1, s0, a + 42, org, mp, d, i, n, v, High(mp, d, i + n / 2)) && v >= High(mp, d, i + n / 2)
    ensures Runs(m, s0, s) && Searching(s, s0, a, org, mp, d, i + n / 2 + 1, n - n / 2 - 1)
  {
    hide Stands;
    hide InPlace;
    hide Runs;
    hide TableIn;
    HighStands(m, a);
    TableHas(s0.data, org, mp, d);
    s := Beyond(m, s0, s1, a, org, mp, d, i, n, v);
    var t := s;
    s := Next(m, s0, s, Calculate(SUB, Register(DX), Register(CX)), 2);
    assert s == t.(pc := a + 50, flags := s.flags, r := t.r.(dx := n - n / 2));
    s := Next(m, s0, s, Decrement(Register(DX)), 2);
    assert s == t.(pc := a + 52, flags := s.flags, r := t.r.(dx := n - n / 2 - 1));
    s := Next(m, s0, s, Branch(-40), 2);
  }

  /** In the entry: on to its arm. */
  lemma Found(m: Memory, s0: Cpu, s1: Cpu, a: nat, org: nat, mp: seq<int>, d: nat, i: nat, n: nat, v: int) returns (s: Cpu)
    requires InPlace(m, a) && TableIn(s0.data, org, mp, d) && HasTable(mp, d) && Runs(m, s0, s1) && i + n / 2 < mp[d]
    requires AtEntry(s1, s0, a + 42, org, mp, d, i, n, v, High(mp, d, i + n / 2)) && v < High(mp, d, i + n / 2)
    requires s0.stack != []
    ensures Runs(m, s0, s) && Dispatched(s, s0, Arm(mp, d, i + n / 2))
  {
    hide Stands;
    hide InPlace;
    hide Runs;
    hide TableIn;
    HighStands(m, a);
    FoundStands(m, a);
    TableHas(s0.data, org, mp, d);
    TableWord(s0.data, org, mp, d, d + 3 + 3 * (i + n / 2));
    s := Next(m, s0, s1, BranchIf(IF_L, 10), 2);
    assert s == s1.(pc := a + 54);
    s := Next(m, s0, s, Move(Register(AX), At(SI, Some(BX), 8)), 4);
    assert s.r.ax == Arm(mp, d, i + n / 2) % M32;
    s := Next(m, s0, s, Pop(SI), 1);
    assert s.stack == s0.stack;
    s := Next(m, s0, s, Pop(SI), 1);
    s := Next(m, s0, s, Jump(Register(AX)), 2);
  }

  /** No entry is left: on to the default arm. */
  lemma Otherwise(m: Memory, s0: Cpu, s1: Cpu, a: nat, org: nat, mp: seq<int>, d: nat, i: nat) returns (s: Cpu)
    requires InPlace(m, a) && HasTable(mp, d) && Runs(m, s0, s1) && Searching(s1, s0, a, org, mp, d, i, 0) && s0.stack != []
    ensures Runs(m, s0, s) && Dispatched(s, s0, mp[d + 1 + 3 * mp[d]])
  {
    hide Stands;
    hide InPlace;
    hide Runs;
    LoopStands(m, a);
    DefaultStands(m, a);
    s := Next(m, s0, s1, Calculate(CMP, Register(DX), Immediate(0)), 3);
    s := Next(m, s0, s, BranchIf(IF_LE, 43), 2);
    assert s.pc == a + 62;
    s := Next(m, s0, s, Pop(AX), 1);
    assert s.stack == s0.stack;
    s := Next(m, s0, s, Pop(SI), 1);
    s := Next(m, s0, s, Jump(Register(AX)), 2);
  }

  /** What the search has found out: no entry before `i` or from `i + n` on holds `v`. */
  predicate Narrowed(mp: seq<int>, d: nat, i: nat, n: nat, v: int)
    requires HasTable(mp, d)
  {
    && i + n <= mp[d]
    && (forall k :: 0 <= k < i ==> v >= High(mp, d, k))
    && (forall k :: i + n <= k < mp[d] ==> v < Low(mp, d, k))
  }

  lemma Narrower(mp: seq<int>, d: nat, i: nat, n: nat, v: int)
    requires HasTable(mp, d) && Sorted(mp, d) && Narrowed(mp, d, i, n, v) && n > 0
    ensures var k := i + n / 2;
      && (v < Low(mp, d, k) ==> Narrowed(mp, d, i, n / 2, v))
      && (v >= High(mp, d, k) ==> Narrowed(mp, d, k + 1, n - n / 2 - 1, v))
      && (Low(mp, d, k) <= v < High(mp, d, k) ==> Scan(mp, d, 0, v) == Arm(mp, d, k))
  {
    var k := i + n / 2;
    if v < Low(mp, d, k) {
      forall j | i + n / 2 <= j < mp[d] ensures v < Low(mp, d, j) {
        assert Low(mp, d, k) <= High(mp, d, k) && (k < j ==> High(mp, d, k) <= Low(mp, d, j));
      }
    } else {
      forall j | 0 <= j < k ensures High(mp, d, j) <= v {
        assert High(mp, d, j) <= Low(mp, d, k);
      }
      if v < High(mp, d, k) {
        ScanSkips(mp, d, 0, k, v);
      }
    }
  }

  lemma NoneLeft(mp: seq<int>, d: nat, i: nat, v: int)
    requires HasTable(mp, d) && Narrowed(mp, d, i, 0, v)
    ensures Scan(mp, d, 0, v) == mp[d + 1 + 3 * mp[d]]
  {
    ScanSkips(mp, d, 0, mp[d], v);
  }

  lemma {:induction false} Search(m: Memory, s0: Cpu, s1: Cpu, a: nat, org: nat, mp: seq<int>, d: nat, i: nat, n: nat, v: int)
    returns (s: Cpu)
    requires InPlace(m, a) && TableIn(s0.data, org, mp, d) && HasTable(mp, d) && Sorted(mp, d) && Begins(s0, a, org, d, v)
    requires Runs(m, s0, s1) && Searching(s1, s0, a, org, mp, d, i, n) && Narrowed(mp, d, i, n, v)
    ensures Runs(m, s0, s) && Dispatched(s, s0, Scan(mp, d, 0, v))
    decreases n
  {
    hide InPlace;
    hide Runs;
    hide TableIn;
    hide Searching;
    hide AtEntry;
    hide Dispatched;
    hide Scan;
    hide Sorted;
    if n == 0 {
      s := Otherwise(m, s0, s1, a, org, mp, d, i);
      NoneLeft(mp, d, i, v);
    } else {
      var k := i + n / 2;
      Narrower(mp, d, i, n, v);
      s := CompareLow(m, s0, s1, a, org, mp, d, i, n, v);
      if v < Low(mp, d, k) {
        s := Below(m, s0, s, a, org, mp, d, i, n, v);
        s := Search(m, s0, s, a, org, mp, d, i, n / 2, v);
      } else {
        s := CompareHigh(m, s0, s, a, org, mp, d, i, n, v);
        if v < High(mp, d, k) {
          s := Found(m, s0, s, a, org, mp, d, i, n, v);
        } else {
          s := Above(m, s0, s, a, org, mp, d, i, n, v);
          s := Search(m, s0, s, a, org, mp, d, k + 1, n - n / 2 - 1, v);
        }
      }
    }
  }

  /** The macro ends: for every sorted table in memory and every value, its code runs to the arm that a scan of all entries
      gives, with the frame pointer restored from the stack and the stack as it was before. */
  lemma SearchReachesArm(m: Memory, s0: Cpu, a: nat, org: nat, mp: seq<int>, d: nat, v: int) returns (s: Cpu)
    requires InPlace(m, a) && TableIn(s0.data, org, mp, d) && HasTable(mp, d) && Sorted(mp, d) && Begins(s0, a, org, d, v)
    ensures Runs(m, s0, s) && Dispatched(s, s0, Scan(mp, d, 0, v))
  {
    hide InPlace;
    hide Runs;
    hide TableIn;
    hide Searching;
    hide Dispatched;
    hide Scan;
    hide Sorted;
    s := Prologue(m, s0, a, org, mp, d, v);
    s := Search(m, s0, s, a, org, mp, d, 0, mp[d], v);
  }
}
