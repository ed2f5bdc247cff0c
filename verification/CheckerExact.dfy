/** Exactly what the bytecode checker accepts, in terms of what the interpreter does. */
module CheckerExact {
  import opened Opcodes
  import opened CodeChecker

  // ---------- What is asked of one instruction ----------

  /** LOADBOOL with a C that the interpreter takes for true and the checker does not look at. */
  predicate LongSkip(i: Instruction) { i.op == LOADBOOL && i.c > 1 }

  ghost predicate StepsLand(pt: Proto, pc: nat)
    requires pc < |pt.code|
  {
    forall next :: Next(pt, pc, next) && !LongSkip(pt.code[pc]) ==> Executable(pt.code, next)
  }

  /** What the checker asks of fields that the interpreter does not read there: A is a register
      in every instruction, unused fields are zero, and B of TEST is a register. */
  predicate UnusedTidy(pt: Proto, i: Instruction) {
    && i.a < pt.maxStackSize
    && (i.op in {MOVE, LOADNIL, GETUPVAL, SETUPVAL, UNM, NOT, LEN, RETURN, CLOSE, VARARG} ==> i.c == 0)
    && (i.op in {TFORLOOP, CLOSE} ==> i.b == 0)
    && (i.op == TEST ==> i.b < pt.maxStackSize)
  }

  /** Concatenation joins two values at least, a generic loop has a variable, a numeric loop keeps
      a register for its variable, and `...' stands in a vararg function without the table arg. */
  predicate OperandsSense(pt: Proto, i: Instruction) {
    && (i.op == CONCAT ==> i.b < i.c)
    && (i.op == TFORLOOP ==> i.c > 0)
    && (i.op == FORPREP ==> i.a + 3 < pt.maxStackSize)
    && (i.op == VARARG ==> pt.varargIsVararg && !pt.varargNeedsArg)
  }

  ghost predicate OpenTaken(pt: Proto, pc: nat)
    requires pc < |pt.code|
  {
    LeavesOpen(pt.code[pc]) ==> pc + 1 < |pt.code| && OpenOp(pt.code[pc+1])
  }

  ghost predicate Good(pt: Proto, pc: nat)
    requires pc < |pt.code|
  {
    && OperandsInRange(pt, pc) && StepsLand(pt, pc) && OpenTaken(pt, pc)
    && UnusedTidy(pt, pt.code[pc]) && OperandsSense(pt, pt.code[pc])
  }

  // ---------- Such an instruction passes every test ----------

  lemma RegisterIn(pt: Proto, pc: nat, r: int)
    requires pc < |pt.code| && OperandsInRange(pt, pc) && TouchesRegister(pt.code[pc], r)
    ensures 0 <= r < pt.maxStackSize
  {}

  lemma ConstantIn(pt: Proto, pc: nat, n: int)
    requires pc < |pt.code| && OperandsInRange(pt, pc) && TouchesConstant(pt.code[pc], n)
    ensures 0 <= n < |pt.k|
  {}

  lemma NotBad(pt: Proto, pc: nat)
    requires pc < |pt.code| && OperandsInRange(pt, pc)
    ensures pt.code[pc].op != BADOP
  {}

  /** The fields are as the mode table wants them. */
  lemma FormatGood(pt: Proto, pc: nat)
    requires pc < |pt.code| && OperandsInRange(pt, pc) && UnusedTidy(pt, pt.code[pc]) && OperandsSense(pt, pt.code[pc])
    ensures FormatOk(pt, pt.code[pc])
  {
    var i := pt.code[pc];
    FieldB(pt, pc);
    FieldC(pt, pc);
    if i.op == LOADK || i.op == GETGLOBAL || i.op == SETGLOBAL {
      ConstantIn(pt, pc, i.Bx());
    }
    NotBad(pt, pc);
    hide OperandsInRange, OperandsSense, ArgModeOk;
  }

  lemma FieldB(pt: Proto, pc: nat)
    requires pc < |pt.code| && OperandsInRange(pt, pc) && UnusedTidy(pt, pt.code[pc]) && OperandsSense(pt, pt.code[pc])
    ensures var i := pt.code[pc]; GetOpMode(i.op) == ABC ==> ArgModeOk(pt, i.b, GetBMode(i.op))
  {
    var i := pt.code[pc];
    NotBad(pt, pc);
    if TouchesRegister(i, i.b) {
      RegisterIn(pt, pc, i.b);
    }
    if IsK(i.b) && TouchesConstant(i, IndexK(i.b)) {
      ConstantIn(pt, pc, IndexK(i.b));
    }
    hide OperandsInRange;
  }

  lemma FieldC(pt: Proto, pc: nat)
    requires pc < |pt.code| && OperandsInRange(pt, pc) && UnusedTidy(pt, pt.code[pc]) && OperandsSense(pt, pt.code[pc])
    ensures var i := pt.code[pc]; GetOpMode(i.op) == ABC ==> ArgModeOk(pt, i.c, GetCMode(i.op))
  {
    var i := pt.code[pc];
    NotBad(pt, pc);
    if TouchesRegister(i, i.c) {
      RegisterIn(pt, pc, i.c);
    }
    if IsK(i.c) && TouchesConstant(i, IndexK(i.c)) {
      ConstantIn(pt, pc, IndexK(i.c));
    }
    hide OperandsInRange;
  }

  /** Jumps and tests go where the checker wants them to go. */
  lemma StepsGood(pt: Proto, pc: nat)
    requires Executable(pt.code, pc) && OperandsInRange(pt, pc) && StepsLand(pt, pc)
    ensures JumpOk(pt, pc) && SkipOk(pt, pc)
  {
    JumpGood(pt, pc);
    TestGood(pt, pc);
  }

  lemma JumpGood(pt: Proto, pc: nat)
    requires Executable(pt.code, pc) && StepsLand(pt, pc)
    ensures JumpOk(pt, pc)
  {
    var i := pt.code[pc];
    if GetOpMode(i.op) == AsBx {
      assert Next(pt, pc, pc + 1 + i.SBx());
      hide Next, IsCount;
      assert Executable(pt.code, pc + 1 + i.SBx());
    }
  }

  lemma JumpBehind(pt: Proto, pc: nat)
    requires pc < |pt.code| && OperandsInRange(pt, pc) && TakesJump(pt.code[pc].op)
    ensures pc + 1 < |pt.code| && pt.code[pc+1].op == JMP
  {}

  lemma TestGood(pt: Proto, pc: nat)
    requires Executable(pt.code, pc) && OperandsInRange(pt, pc) && StepsLand(pt, pc)
    ensures SkipOk(pt, pc)
  {
    if TestTMode(pt.code[pc].op) {
      JumpBehind(pt, pc);
      assert Next(pt, pc, pc + 2);
      hide Next, OperandsInRange, IsCount;
      assert Executable(pt.code, pc + 2);
    }
  }

  /** A short LOADBOOL lands on an instruction, so what it skips is no open SETLIST. */
  lemma SkipGood(pt: Proto, pc: nat)
    requires Executable(pt.code, pc) && StepsLand(pt, pc) && pt.code[pc].op == LOADBOOL && pt.code[pc].c == 1
    ensures pc + 2 < |pt.code| && !LooksOpen(pt.code[pc+1])
  {
    assert Next(pt, pc, pc + 2);
    assert Executable(pt.code, pc + 2);
    assert IsCount(pt.code, pc + 2) <==> LooksOpen(pt.code[pc+1]) && !IsCount(pt.code, pc + 1);
  }

  /** An open SETLIST has its count and something behind it. */
  lemma ListGood(pt: Proto, pc: nat)
    requires Executable(pt.code, pc) && StepsLand(pt, pc) && pt.code[pc].op == SETLIST && pt.code[pc].c == 0
    ensures pc + 2 < |pt.code|
  {
    assert Next(pt, pc, pc + 2);
    assert Executable(pt.code, pc + 2);
  }

  lemma CapturesGood(pt: Proto, pc: nat)
    requires pc < |pt.code| && OperandsInRange(pt, pc) && pt.code[pc].op == CLOSURE
    ensures ClosureOk(pt, pc)
  {
    assert CapturesInRange(pt, pc);
    hide OperandsInRange;
  }

  /** The last register that an instruction touches is in range. */
  lemma LastRegister(pt: Proto, pc: nat)
    requires pc < |pt.code| && OperandsInRange(pt, pc)
    ensures var i := pt.code[pc];
      && (i.op == SELF ==> i.a + 1 < pt.maxStackSize)
      && (i.op == TFORLOOP ==> i.a + 2 + i.c < pt.maxStackSize)
      && (i.op == FORLOOP ==> i.a + 3 < pt.maxStackSize)
      && (i.op == RETURN || i.op == VARARG ==> i.b > 1 ==> i.a + i.b - 2 < pt.maxStackSize)
      && (i.op == SETLIST ==> i.a + i.b < pt.maxStackSize)
  {
    var i := pt.code[pc];
    var r := match i.op
      case SELF => i.a + 1
      case TFORLOOP => i.a + 2 + i.c
      case FORLOOP => i.a + 3
      case SETLIST => i.a + i.b
      case _ => i.a + i.b - 2;
    if TouchesRegister(i, r) {
      RegisterIn(pt, pc, r);
    }
    hide OperandsInRange;
  }

  lemma CallRegisters(pt: Proto, pc: nat)
    requires pc < |pt.code| && OperandsInRange(pt, pc) && (pt.code[pc].op == CALL || pt.code[pc].op == TAILCALL)
    ensures var i := pt.code[pc];
      (i.b > 0 ==> i.a + i.b - 1 < pt.maxStackSize) && (i.c > 1 ==> i.a + i.c - 2 < pt.maxStackSize)
  {
    var i := pt.code[pc];
    if i.b > 0 {
      assert TouchesRegister(i, i.a + i.b - 1);
    }
    if i.c > 1 {
      assert TouchesRegister(i, i.a + i.c - 2);
    }
    hide CapturesInRange, TouchesRegister, TouchesConstant;
  }

  lemma NamesGood(pt: Proto, pc: nat)
    requires pc < |pt.code| && OperandsInRange(pt, pc)
    ensures var i := pt.code[pc];
      && (i.op == GETUPVAL || i.op == SETUPVAL ==> i.b < pt.nups)
      && (i.op == GETGLOBAL || i.op == SETGLOBAL ==> i.Bx() < |pt.k| && pt.k[i.Bx()] == StringK)
  {}

  lemma SpecificGood(pt: Proto, pc: nat)
    requires Executable(pt.code, pc) && Good(pt, pc)
    ensures SpecificOk(pt, pc)
  {
    NamesGood(pt, pc);
    LastRegister(pt, pc);
    var i := pt.code[pc];
    if i.op == CALL || i.op == TAILCALL {
      CallRegisters(pt, pc);
    }
    if i.op == LOADBOOL && i.c == 1 {
      SkipGood(pt, pc);
    }
    if i.op == SETLIST && i.c == 0 {
      ListGood(pt, pc);
    }
    if i.op == CLOSURE {
      CapturesGood(pt, pc);
    }
    hide OperandsInRange, StepsLand, ClosureOk, Executable;
  }

  /** Whatever is good for the interpreter passes the checks of its position. */
  lemma GoodPasses(pt: Proto, pc: nat)
    requires Executable(pt.code, pc) && Good(pt, pc)
    ensures InstrOk(pt, pc)
  {
    SpecificGood(pt, pc);
    StepsGood(pt, pc);
    FormatGood(pt, pc);
    hide FormatOk, JumpOk, SkipOk, SpecificOk, Good, Executable;
  }

  // ---------- And what passes in accepted code is good ----------

  lemma PassesTidy(pt: Proto, pc: nat)
    requires pc < |pt.code| && FormatOk(pt, pt.code[pc]) && SpecificOk(pt, pc)
    ensures UnusedTidy(pt, pt.code[pc]) && OperandsSense(pt, pt.code[pc]) && OpenTaken(pt, pc)
  {
    hide ClosureOk;
  }

  lemma AcceptedGood(pt: Proto, pc: nat)
    requires Accepts(pt) && Executable(pt.code, pc)
    ensures Good(pt, pc)
  {
    InsideCode(pt, pc);
    OperandsOk(pt, pc);
    InstrParts(pt, pc);
    PassesTidy(pt, pc);
    assert !LongSkip(pt.code[pc]) ==> SkipLands(pt, pc);
    hide Accepts, Executable, OperandsInRange, UnusedTidy, OperandsSense, OpenTaken, Next, FormatOk, JumpOk, SkipOk, SpecificOk, SkipLands;
    forall next | Next(pt, pc, next) && !LongSkip(pt.code[pc])
      ensures Executable(pt.code, next)
    {
      OneStep(pt, pc, next);
    }
  }

  /** The checker accepts exactly the prototypes whose header fits and whose every executable
      instruction is good for the interpreter. */
  lemma AcceptsIff(pt: Proto)
    ensures Accepts(pt) <==>
      && pt.maxStackSize <= 250 && pt.numParams + (if pt.varargHasArg then 1 else 0) <= pt.maxStackSize
      && (pt.varargNeedsArg ==> pt.varargHasArg)
      && pt.sizeUpvalues <= pt.nups && (pt.sizeLineInfo == 0 || pt.sizeLineInfo == |pt.code|)
      && |pt.code| > 0 && pt.code[|pt.code|-1].op == RETURN
      && forall pc :: Executable(pt.code, pc) ==> Good(pt, pc)
  {
    hide InstrOk, Good, IsCount;
    if Accepts(pt) {
      forall pc | Executable(pt.code, pc)
        ensures Good(pt, pc)
      {
        AcceptedGood(pt, pc);
      }
    }
    if forall pc :: Executable(pt.code, pc) ==> Good(pt, pc) {
      forall pc | Executable(pt.code, pc)
        ensures InstrOk(pt, pc)
      {
        GoodPasses(pt, pc);
      }
    }
  }

  // ---------- An ordinary loop ----------

  function Jump(op: OpCode, a: nat, offset: int): Instruction
    requires -MAXARG_SBX <= offset
  {
    Instruction(op, a, (offset + MAXARG_SBX) / 0x200, (offset + MAXARG_SBX) % 0x200)
  }

  /** `for i = 1, 1 do end': three constants, both ends of the loop, and the return. */
  function Loop(): Proto {
    Proto([Instruction(LOADK, 0, 0, 0), Instruction(LOADK, 1, 0, 0), Instruction(LOADK, 2, 0, 0),
           Jump(FORPREP, 0, 0), Jump(FORLOOP, 0, -1), Instruction(RETURN, 0, 1, 0)],
          [OtherK], [], 0, 0, 0, 4, 0, false, false, false)
  }

  /** No position of it holds a count. */
  lemma LoopPositions(k: nat)
    requires k <= 6
    ensures !IsCount(Loop().code, k)
  {
    assert k > 0 ==> !LooksOpen(Loop().code[k-1]);
  }

  lemma LoopLoads(pc: nat)
    requires pc < 3
    ensures InstrOk(Loop(), pc)
  {
    hide ClosureOk, IsCount;
    assert Loop().code[pc] == Instruction(LOADK, pc, 0, 0);
  }

  lemma LoopJumps()
    ensures InstrOk(Loop(), 3) && InstrOk(Loop(), 4)
  {
    LoopPositions(4);
    hide ClosureOk, IsCount;
    assert Loop().code[3].SBx() == 0 && Loop().code[4].SBx() == -1;
  }

  lemma LoopReturn()
    ensures InstrOk(Loop(), 5)
  {
    hide ClosureOk, IsCount;
  }

  lemma LoopSteps(pc: nat)
    requires pc < 6
    ensures InstrOk(Loop(), pc)
  {
    hide InstrOk, Loop;
    if pc < 3 {
      LoopLoads(pc);
    }
    LoopJumps();
    LoopReturn();
  }

  /** It is accepted with the four registers that it uses, and with no fewer. */
  lemma LoopAccepted()
    ensures Accepts(Loop()) && !Accepts(Loop().(maxStackSize := 3))
  {
    forall pc | Executable(Loop().code, pc)
      ensures InstrOk(Loop(), pc)
    {
      LoopSteps(pc);
    }
    LoopPositions(3);
    var small := Loop().(maxStackSize := 3);
    assert Executable(small.code, 3);
    hide IsCount;
    assert !SpecificOk(small, 3);
    assert !InstrOk(small, 3);
  }
}
