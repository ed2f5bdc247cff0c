/** The bytecode checker of the debug interface, and the control flow and
    operand accesses of the interpreter loop that it is meant to guard. */
module CodeChecker {
  import opened Opcodes

  datatype Constant = StringK | OtherK

  /** A function prototype; of each nested prototype only its upvalue count matters. */
  datatype Proto = Proto(
    code: seq<Instruction>,
    k: seq<Constant>,
    nestedUps: seq<nat>,
    nups: nat,
    sizeUpvalues: nat,
    sizeLineInfo: nat,
    maxStackSize: nat,
    numParams: nat,
    varargHasArg: bool, varargIsVararg: bool, varargNeedsArg: bool)
  {
    ghost predicate Fits() { forall i :: 0 <= i < |code| ==> code[i].Fits() }
  }

  // ---------- Executable positions and SETLIST counts ----------

  /** Looks like a SETLIST whose real count is in the next word. */
  predicate LooksOpen(i: Instruction) { i.op == SETLIST && i.c == 0 }

  /** Position k holds the count word of a SETLIST that is itself executable. */
  predicate IsCount(code: seq<Instruction>, k: int)
    requires 0 <= k <= |code|
    decreases k
  {
    k > 0 && LooksOpen(code[k-1]) && !IsCount(code, k-1)
  }

  ghost predicate Executable(code: seq<Instruction>, k: int) {
    0 <= k < |code| && !IsCount(code, k)
  }

  /** Going back from k over a run of j look-alikes that something else stops,
      k is a count exactly when the run is odd. */
  lemma {:induction false} RunParity(code: seq<Instruction>, k: nat, j: nat)
    requires j <= k <= |code|
    requires forall i :: k - j <= i < k ==> LooksOpen(code[i])
    requires j == k || !LooksOpen(code[k-j-1])
    ensures IsCount(code, k) <==> j % 2 == 1
  {
    if j > 0 {
      RunParity(code, k - 1, j - 1);
    }
  }

  // ---------- What the checker accepts ----------

  predicate Precheck(pt: Proto) {
    && pt.maxStackSize <= MAXSTACK
    && pt.numParams + (if pt.varargHasArg then 1 else 0) <= pt.maxStackSize
    && (pt.varargNeedsArg ==> pt.varargHasArg)
    && pt.sizeUpvalues <= pt.nups
    && (pt.sizeLineInfo == |pt.code| || pt.sizeLineInfo == 0)
    && |pt.code| > 0 && pt.code[|pt.code|-1].op == RETURN
  }

  /** An instruction that may follow an open call: it takes all values up to the top. */
  predicate OpenOp(i: Instruction) {
    (i.op == CALL || i.op == TAILCALL || i.op == RETURN || i.op == SETLIST) && i.b == 0
  }

  /** The pseudo-instructions that list the variables a closure captures. */
  predicate Capture(i: Instruction) { i.op == GETUPVAL || i.op == MOVE }

  predicate ArgModeOk(pt: Proto, r: nat, mode: ArgMode) {
    match mode
    case ArgN => r == 0
    case ArgU => true
    case ArgR => r < pt.maxStackSize
    case ArgK => if IsK(r) then IndexK(r) < |pt.k| else r < pt.maxStackSize
  }

  predicate FormatOk(pt: Proto, i: Instruction) {
    && i.op != BADOP
    && i.a < pt.maxStackSize
    && match GetOpMode(i.op)
       case ABC => ArgModeOk(pt, i.b, GetBMode(i.op)) && ArgModeOk(pt, i.c, GetCMode(i.op))
       case ABx => GetBMode(i.op) == ArgK ==> i.Bx() < |pt.k|
       case AsBx => true
  }

  /** Jumps of the sBx format land on an executable position. */
  predicate JumpOk(pt: Proto, pc: nat)
    requires pc < |pt.code|
  {
    var i := pt.code[pc];
    GetOpMode(i.op) == AsBx ==>
      0 <= pc + 1 + i.SBx() < |pt.code| && !IsCount(pt.code, pc + 1 + i.SBx())
  }

  /** Tests are followed by a jump and by something after it. */
  predicate SkipOk(pt: Proto, pc: nat)
    requires pc < |pt.code|
  {
    TestTMode(pt.code[pc].op) ==> pc + 2 < |pt.code| && pt.code[pc+1].op == JMP
  }

  predicate ClosureOk(pt: Proto, pc: nat)
    requires pc < |pt.code|
  {
    var bx := pt.code[pc].Bx();
    && bx < |pt.nestedUps|
    && pc + pt.nestedUps[bx] < |pt.code|
    && forall j :: pc < j <= pc + pt.nestedUps[bx] ==> Capture(pt.code[j])
  }

  /** The checks made on one opcode besides format, jumps and skips. */
  predicate SpecificOk(pt: Proto, pc: nat)
    requires pc < |pt.code|
  {
    var i := pt.code[pc];
    match i.op
    case LOADBOOL => i.c == 1 ==> pc + 2 < |pt.code| && !LooksOpen(pt.code[pc+1])
    case GETUPVAL | SETUPVAL => i.b < pt.nups
    case GETGLOBAL | SETGLOBAL => i.Bx() < |pt.k| && pt.k[i.Bx()] == StringK
    case SELF => i.a + 1 < pt.maxStackSize
    case CONCAT => i.b < i.c
    case TFORLOOP => 1 <= i.c && i.a + 2 + i.c < pt.maxStackSize
    case FORLOOP | FORPREP => i.a + 3 < pt.maxStackSize
    case CALL | TAILCALL =>
      && (i.b != 0 ==> i.a + i.b - 1 < pt.maxStackSize)
      && (i.c == 0 ==> pc + 1 < |pt.code| && OpenOp(pt.code[pc+1]))
      && (i.c > 1 ==> i.a + i.c - 2 < pt.maxStackSize)
    case RETURN => i.b > 1 ==> i.a + i.b - 2 < pt.maxStackSize
    case SETLIST =>
      && (i.b > 0 ==> i.a + i.b < pt.maxStackSize)
      && (i.c == 0 ==> pc + 1 < |pt.code| - 1)
    case CLOSURE => ClosureOk(pt, pc)
    case VARARG =>
      && pt.varargIsVararg && !pt.varargNeedsArg
      && (i.b == 0 ==> pc + 1 < |pt.code| && OpenOp(pt.code[pc+1]))
      && i.a + i.b - 2 < pt.maxStackSize
    case _ => true
  }

  predicate InstrOk(pt: Proto, pc: nat)
    requires pc < |pt.code|
  {
    FormatOk(pt, pt.code[pc]) && JumpOk(pt, pc) && SkipOk(pt, pc) && SpecificOk(pt, pc)
  }

  ghost predicate Accepts(pt: Proto) {
    Precheck(pt) && forall pc :: Executable(pt.code, pc) ==> InstrOk(pt, pc)
  }

  // ---------- The checker itself ----------

  /** The backward walk from a jump target over look-alikes. */
  method JumpsToCount(code: seq<Instruction>, dest: nat) returns (odd: bool)
    requires dest < |code|
    ensures odd <==> IsCount(code, dest)
  {
    var j := 0;
    while j < dest && LooksOpen(code[dest-1-j])
      invariant 0 <= j <= dest
      invariant forall i :: dest - j <= i < dest ==> LooksOpen(code[i])
    {
      j := j + 1;
    }
    RunParity(code, dest, j);
    odd := j % 2 == 1;
  }

  method CheckClosure(pt: Proto, pc: nat) returns (ok: bool)
    requires pc < |pt.code|
    ensures ok <==> ClosureOk(pt, pc)
  {
    var bx := pt.code[pc].Bx();
    if bx >= |pt.nestedUps| || pc + pt.nestedUps[bx] >= |pt.code| {
      return false;
    }
    var nup := pt.nestedUps[bx];
    var j := 1;
    while j <= nup
      invariant 1 <= j <= nup + 1
      invariant forall n :: pc < n < pc + j ==> Capture(pt.code[n])
    {
      if !Capture(pt.code[pc + j]) {
        return false;
      }
      j := j + 1;
    }
    ok := true;
  }

  /** The word a full check hands back: zero is failure, so the word of the last
      instruction recorded must not itself be the zero word (a MOVE 0 0). */
  predicate ZeroWord(i: Instruction) { i == Instruction(MOVE, 0, 0, 0) }

  /** All the checks made while the scan stands at pc. */
  method CheckInstruction(pt: Proto, pc: nat) returns (ok: bool)
    requires pc < |pt.code|
    ensures ok <==> InstrOk(pt, pc)
  {
    var i := pt.code[pc];
    if !FormatOk(pt, i) {
      return false;
    }
    if GetOpMode(i.op) == AsBx {
      var dest := pc + 1 + i.SBx();
      if dest < 0 || dest >= |pt.code| {
        return false;
      }
      var odd := JumpsToCount(pt.code, dest);
      if odd {
        return false;
      }
    }
    if TestTMode(i.op) && (pc + 2 >= |pt.code| || pt.code[pc+1].op != JMP) {
      return false;
    }
    if i.op == CLOSURE {
      ok := CheckClosure(pt, pc);
    } else {
      ok := SpecificOk(pt, pc);
    }
  }

  /** The last instruction that changed the traced register, after looking at pc.
      A full check traces NO_REG, which lies above every register base. */
  function Traced(i: Instruction, pc: nat, last: nat, reg: nat): nat {
    if TestAMode(i.op) && i.a == reg then pc
    else match i.op
      case LOADNIL => if i.a <= reg <= i.b then pc else last
      case SELF => if reg == i.a + 1 then pc else last
      case TFORLOOP => if reg >= i.a + 2 then pc else last
      case CALL | TAILCALL => if reg >= i.a then pc else last
      case _ => last
  }

  lemma TracedOther(pt: Proto, pc: nat, last: nat)
    requires Precheck(pt) && pc < |pt.code| && FormatOk(pt, pt.code[pc])
    ensures var t := Traced(pt.code[pc], pc, last, NO_REG); t == last || (t == pc && pt.code[pc].op != MOVE)
  {}

  /** The scan goes on behind a count word. */
  lemma ScanGoesOn(pt: Proto, pc: nat)
    requires Precheck(pt) && Executable(pt.code, pc) && SpecificOk(pt, pc)
    ensures var next := if LooksOpen(pt.code[pc]) then pc + 2 else pc + 1;
      && next <= |pt.code| && (next < |pt.code| ==> Executable(pt.code, next))
      && (LooksOpen(pt.code[pc]) ==> !Executable(pt.code, pc + 1))
  {
    hide ClosureOk;
    if LooksOpen(pt.code[pc]) {
      assert IsCount(pt.code, pc + 1);
    }
  }

  lemma PrecheckLast(pt: Proto)
    requires Precheck(pt)
    ensures |pt.code| > 0 && pt.code[|pt.code|-1].op == RETURN
  {}

  lemma FirstExecutable(pt: Proto)
    requires |pt.code| > 0
    ensures Executable(pt.code, 0)
  {}

  /** The symbolic execution run over the whole code with no register traced. */
  method SymbExec(pt: Proto) returns (ok: bool, word: Instruction)
    requires pt.Fits()
    ensures ok <==> Accepts(pt)
    ensures ok ==> !ZeroWord(word)
  {
    hide Executable, FormatOk, JumpOk, SkipOk, SpecificOk, Precheck;
    word := Instruction(MOVE, 0, 0, 0);
    if !Precheck(pt) {
      return false, word;
    }
    PrecheckLast(pt);
    FirstExecutable(pt);
    var last := |pt.code| - 1;
    var pc := 0;
    while pc < |pt.code|
      invariant 0 <= pc <= |pt.code|
      invariant pc < |pt.code| ==> Executable(pt.code, pc)
      invariant forall q: nat :: q < pc && Executable(pt.code, q) ==> InstrOk(pt, q)
      invariant 0 <= last < |pt.code| && pt.code[last].op != MOVE
    {
      var i := pt.code[pc];
      var fine := CheckInstruction(pt, pc);
      if !fine {
        return false, word;
      }
      TracedOther(pt, pc, last);
      ScanGoesOn(pt, pc);
      last := Traced(i, pc, last, NO_REG);
      if LooksOpen(i) {
        pc := pc + 1;
      }
      pc := pc + 1;
    }
    ExecutableBelow(pt);
    return true, pt.code[last];
  }

  lemma ExecutableBelow(pt: Proto)
    ensures forall pc :: Executable(pt.code, pc) ==> 0 <= pc < |pt.code|
  {}

  /** The entry point: accepted means the returned word differs from zero. */
  method CheckCode(pt: Proto) returns (accepted: bool)
    requires pt.Fits()
    ensures accepted <==> Accepts(pt)
  {
    var ok, word := SymbExec(pt);
    accepted := ok && !ZeroWord(word);
  }

  // ---------- The interpreter loop ----------

  /** Where the interpreter may go after the instruction at pc: both outcomes of
      a test, a call that comes back, and nothing after RETURN. */
  ghost predicate Next(pt: Proto, pc: nat, next: int)
    requires pc < |pt.code|
  {
    var i := pt.code[pc];
    match i.op
    case LOADBOOL => next == pc + (if i.c != 0 then 2 else 1)
    case JMP | FORPREP => next == pc + 1 + i.SBx()
    case FORLOOP => next == pc + 1 + i.SBx() || next == pc + 1
    case EQ | LT | LE | TEST | TESTSET | TFORLOOP =>
      next == pc + 2 || (pc + 1 < |pt.code| && next == pc + 2 + pt.code[pc+1].SBx())
    case RETURN => false
    case SETLIST => next == pc + (if i.c == 0 then 2 else 1)
    case CLOSURE => i.Bx() < |pt.nestedUps| && next == pc + 1 + pt.nestedUps[i.Bx()]
    case BADOP => false
    case _ => next == pc + 1
  }

  ghost predicate RKTouches(rk: nat, r: int) { !IsK(rk) && r == rk }

  /** Registers the instruction reads or writes, as the interpreter computes them.
      The call temporaries of TFORLOOP (A+3 to A+5) and operands that reach the
      stack top (B or C zero in open instructions) are not fixed registers. */
  ghost predicate TouchesRegister(i: Instruction, r: int) {
    match i.op
    case MOVE | UNM | NOT | LEN => r == i.a || r == i.b
    case LOADK | LOADBOOL | GETUPVAL | GETGLOBAL | SETGLOBAL | SETUPVAL | NEWTABLE
       | TEST | CLOSE | CLOSURE => r == i.a
    case LOADNIL => i.a <= r <= i.b || r == i.b
    case GETTABLE => r == i.a || r == i.b || RKTouches(i.c, r)
    case SETTABLE => r == i.a || RKTouches(i.b, r) || RKTouches(i.c, r)
    case SELF => r == i.a || r == i.a + 1 || r == i.b || RKTouches(i.c, r)
    case ADD | SUB | MUL | DIV | MOD | POW => r == i.a || RKTouches(i.b, r) || RKTouches(i.c, r)
    case CONCAT => r == i.a || i.b <= r <= i.c
    case EQ | LT | LE => RKTouches(i.b, r) || RKTouches(i.c, r)
    case TESTSET => r == i.a || r == i.b
    case CALL | TAILCALL => r == i.a || i.a <= r <= i.a + i.b - 1 || i.a <= r <= i.a + i.c - 2
    case RETURN => i.a <= r <= i.a + i.b - 2
    case FORLOOP => i.a <= r <= i.a + 3
    case FORPREP => i.a <= r <= i.a + 2
    case TFORLOOP => i.a <= r <= i.a + 2 + i.c
    case SETLIST => i.a <= r <= i.a + i.b
    case VARARG => i.a <= r <= i.a + i.b - 2
    case JMP | BADOP => false
  }

  ghost predicate TouchesConstant(i: Instruction, n: int) {
    match i.op
    case LOADK | GETGLOBAL | SETGLOBAL => n == i.Bx()
    case GETTABLE | SELF => IsK(i.c) && n == IndexK(i.c)
    case SETTABLE | ADD | SUB | MUL | DIV | MOD | POW | EQ | LT | LE =>
      (IsK(i.b) && n == IndexK(i.b)) || (IsK(i.c) && n == IndexK(i.c))
    case _ => false
  }

  ghost predicate CaptureInRange(pt: Proto, i: Instruction) {
    if i.op == GETUPVAL then i.b < pt.nups else i.op == MOVE && i.b < pt.maxStackSize
  }

  /** CLOSURE reads the instructions after it as a list of captured variables. */
  ghost predicate CapturesInRange(pt: Proto, pc: nat)
    requires pc < |pt.code|
  {
    pt.code[pc].op == CLOSURE ==>
      var bx := pt.code[pc].Bx();
      && bx < |pt.nestedUps|
      && pc + 1 + pt.nestedUps[bx] < |pt.code|
      && forall j :: pc < j <= pc + pt.nestedUps[bx] ==>
           CaptureInRange(pt, pt.code[j])
  }

  /** The interpreter reads the offset of the instruction behind these. */
  predicate TakesJump(op: OpCode) {
    op == EQ || op == LT || op == LE || op == TEST || op == TESTSET || op == TFORLOOP
  }

  ghost predicate OperandsInRange(pt: Proto, pc: nat)
    requires pc < |pt.code|
  {
    var i := pt.code[pc];
    && i.op != BADOP
    && (forall r :: TouchesRegister(i, r) ==> 0 <= r < pt.maxStackSize)
    && (forall n :: TouchesConstant(i, n) ==> 0 <= n < |pt.k|)
    && (i.op == GETUPVAL || i.op == SETUPVAL ==> i.b < pt.nups)
    && (i.op == GETGLOBAL || i.op == SETGLOBAL ==> i.Bx() < |pt.k| && pt.k[i.Bx()] == StringK)
    && (TakesJump(i.op) ==> pc + 1 < |pt.code| && pt.code[pc+1].op == JMP)
    && (LooksOpen(i) ==> pc + 1 < |pt.code|)
    && CapturesInRange(pt, pc)
  }

  /** Instructions that leave an unknown number of values up to the top. */
  ghost predicate LeavesOpen(i: Instruction) {
    ((i.op == CALL || i.op == TAILCALL) && i.c == 0) || (i.op == VARARG && i.b == 0)
  }

  // ---------- What acceptance guarantees ----------

  /** The interpreter skips on any nonzero C of LOADBOOL, the checker looks at C == 1 only.
      This is the test the checker leaves out. */
  ghost predicate SkipLands(pt: Proto, pc: int)
    requires 0 <= pc < |pt.code|
  {
    pt.code[pc].op == LOADBOOL && pt.code[pc].c > 1 ==> pc + 2 < |pt.code| && !LooksOpen(pt.code[pc+1])
  }

  ghost predicate LongSkipsLand(pt: Proto) { forall pc :: Executable(pt.code, pc) ==> SkipLands(pt, pc) }

  /** One step of the interpreter from an executable position lands on one. */
  ghost predicate StepsStayInside(pt: Proto) {
    forall pc, next :: Executable(pt.code, pc) && Next(pt, pc, next) ==> Executable(pt.code, next)
  }

  /** The position after an instruction that is not an open SETLIST. */
  lemma AfterOrdinary(pt: Proto, pc: nat)
    requires Accepts(pt) && Executable(pt.code, pc)
    requires !LooksOpen(pt.code[pc]) && pt.code[pc].op != RETURN
    ensures Executable(pt.code, pc + 1)
  {
    assert pc != |pt.code| - 1;
  }

  lemma AfterTest(pt: Proto, pc: nat)
    requires Accepts(pt) && Executable(pt.code, pc) && TestTMode(pt.code[pc].op)
    ensures Executable(pt.code, pc + 1) && Executable(pt.code, pc + 2)
    ensures Executable(pt.code, pc + 2 + pt.code[pc+1].SBx())
  {
    InsideCode(pt, pc);
    AfterOrdinary(pt, pc);
    InstrParts(pt, pc);
    InsideCode(pt, pc + 1);
    hide Accepts, Executable, TestTMode;
    AfterOrdinary(pt, pc + 1);
    AfterJump(pt, pc + 1);
  }

  lemma InstrParts(pt: Proto, pc: nat)
    requires Accepts(pt) && Executable(pt.code, pc)
    ensures pc < |pt.code| && FormatOk(pt, pt.code[pc]) && JumpOk(pt, pc) && SkipOk(pt, pc) && SpecificOk(pt, pc)
  {
    hide FormatOk, JumpOk, SkipOk, SpecificOk;
    assert InstrOk(pt, pc);
  }

  lemma ClosureFits(pt: Proto, pc: nat)
    requires Accepts(pt) && Executable(pt.code, pc) && pt.code[pc].op == CLOSURE
    ensures ClosureOk(pt, pc)
  {
    assert InstrOk(pt, pc);
    hide ClosureOk;
  }

  /** A capture list is made of executable positions, and something follows it. */
  lemma {:induction false} CaptureList(pt: Proto, pc: nat, j: nat)
    requires Accepts(pt) && Executable(pt.code, pc) && pt.code[pc].op == CLOSURE && pt.code[pc].Bx() < |pt.nestedUps|
    requires j <= pt.nestedUps[pt.code[pc].Bx()]
    ensures Executable(pt.code, pc + 1 + j)
  {
    hide Accepts, Executable;
    ClosureFits(pt, pc);
    if j == 0 {
      AfterOrdinary(pt, pc);
    } else {
      CaptureList(pt, pc, j - 1);
      assert Capture(pt.code[pc + j]);
      AfterOrdinary(pt, pc + j);
    }
  }

  lemma AfterJump(pt: Proto, pc: nat)
    requires Accepts(pt) && Executable(pt.code, pc) && GetOpMode(pt.code[pc].op) == AsBx
    ensures Executable(pt.code, pc + 1 + pt.code[pc].SBx())
  {
    assert InstrOk(pt, pc);
    hide FormatOk, SkipOk, SpecificOk;
  }

  lemma AfterOpenList(pt: Proto, pc: nat)
    requires Accepts(pt) && Executable(pt.code, pc) && LooksOpen(pt.code[pc])
    ensures Executable(pt.code, pc + 2)
  {
    assert InstrOk(pt, pc);
    hide FormatOk, JumpOk, SkipOk, ClosureOk;
    assert IsCount(pt.code, pc + 1) && !IsCount(pt.code, pc + 2);
  }

  lemma AfterLoadBool(pt: Proto, pc: nat)
    requires Accepts(pt) && Executable(pt.code, pc) && pt.code[pc].op == LOADBOOL && pt.code[pc].c != 0
    requires pt.code[pc].c > 1 ==> pc + 2 < |pt.code| && !LooksOpen(pt.code[pc+1])
    ensures Executable(pt.code, pc + 2)
  {
    assert InstrOk(pt, pc);
    hide FormatOk, JumpOk, SkipOk, ClosureOk;
    assert !IsCount(pt.code, pc + 2);
  }

  lemma CaptureStep(pt: Proto, pc: nat)
    requires Accepts(pt) && Executable(pt.code, pc) && pt.code[pc].op == CLOSURE && pt.code[pc].Bx() < |pt.nestedUps|
    ensures Executable(pt.code, pc + 1 + pt.nestedUps[pt.code[pc].Bx()])
  {
    InsideCode(pt, pc);
    hide Accepts, Executable;
    CaptureList(pt, pc, pt.nestedUps[pt.code[pc].Bx()]);
  }

  /** Where a step goes, by kind of instruction. */
  lemma NextKinds(pt: Proto, pc: nat, next: int)
    requires pc < |pt.code| && Next(pt, pc, next)
    ensures var i := pt.code[pc];
      && i.op != RETURN
      && (TestTMode(i.op) ==> next == pc + 2 || (pc + 1 < |pt.code| && next == pc + 2 + pt.code[pc+1].SBx()))
      && (i.op == CLOSURE ==> i.Bx() < |pt.nestedUps| && next == pc + 1 + pt.nestedUps[i.Bx()])
      && (LooksOpen(i) ==> next == pc + 2)
      && (i.op == LOADBOOL && i.c != 0 ==> next == pc + 2)
      && (i.op == FORLOOP ==> next == pc + 1 || next == pc + 1 + i.SBx())
      && (i.op == JMP || i.op == FORPREP ==> next == pc + 1 + i.SBx())
      && (OrdinaryKind(i) ==> next == pc + 1)
  {}

  /** The instructions that only go on to the next one. */
  ghost predicate OrdinaryKind(i: Instruction) {
    && !TestTMode(i.op) && i.op != CLOSURE && !LooksOpen(i) && !(i.op == LOADBOOL && i.c != 0)
    && i.op != JMP && i.op != FORPREP && i.op != FORLOOP
  }

  /** A test skips the jump behind it or takes it. */
  lemma TestStep(pt: Proto, pc: nat, next: int)
    requires Accepts(pt) && Executable(pt.code, pc) && pc < |pt.code| && TestTMode(pt.code[pc].op) && Next(pt, pc, next)
    ensures Executable(pt.code, next)
  {
    NextKinds(pt, pc, next);
    hide Accepts, Executable, Next, TestTMode, OrdinaryKind, LooksOpen;
    AfterTest(pt, pc);
  }

  lemma JumpStep(pt: Proto, pc: nat, next: int)
    requires Accepts(pt) && Executable(pt.code, pc) && pc < |pt.code| && GetOpMode(pt.code[pc].op) == AsBx && Next(pt, pc, next)
    ensures Executable(pt.code, next)
  {
    NextKinds(pt, pc, next);
    hide Accepts, Executable, Next, OrdinaryKind;
    AfterJump(pt, pc);
    if pt.code[pc].op == FORLOOP {
      AfterOrdinary(pt, pc);
    }
  }

  /** Steps of the other instructions: over captures, counts and skipped instructions. */
  lemma PlainStep(pt: Proto, pc: nat, next: int)
    requires Accepts(pt) && Executable(pt.code, pc) && pc < |pt.code| && Next(pt, pc, next)
    requires !TestTMode(pt.code[pc].op) && GetOpMode(pt.code[pc].op) != AsBx && SkipLands(pt, pc)
    ensures Executable(pt.code, next)
  {
    NextKinds(pt, pc, next);
    hide Accepts, Executable, Next, TestTMode, ClosureOk;
    var i := pt.code[pc];
    if i.op == CLOSURE {
      CaptureStep(pt, pc);
    } else if LooksOpen(i) {
      AfterOpenList(pt, pc);
    } else if i.op == LOADBOOL && i.c != 0 {
      AfterLoadBool(pt, pc);
    } else {
      AfterOrdinary(pt, pc);
    }
  }

  lemma OneStep(pt: Proto, pc: nat, next: int)
    requires Accepts(pt) && Executable(pt.code, pc) && Next(pt, pc, next) && SkipLands(pt, pc)
    ensures Executable(pt.code, next)
  {
    InsideCode(pt, pc);
    hide SkipLands, Accepts, Executable, Next, TestTMode, GetOpMode, LooksOpen;
    if TestTMode(pt.code[pc].op) {
      TestStep(pt, pc, next);
    } else if GetOpMode(pt.code[pc].op) == AsBx {
      JumpStep(pt, pc, next);
    } else {
      PlainStep(pt, pc, next);
    }
  }

  /** Acceptance keeps every step inside the executable code exactly when the
      unchecked long skips happen to land well. */
  lemma StepsStayInsideIff(pt: Proto)
    requires Accepts(pt)
    ensures StepsStayInside(pt) <==> LongSkipsLand(pt)
  {
    if LongSkipsLand(pt) {
      forall pc, next | Executable(pt.code, pc) && Next(pt, pc, next)
        ensures Executable(pt.code, next)
      {
        OneStep(pt, pc, next);
      }
    }
    if StepsStayInside(pt) {
      forall pc | Executable(pt.code, pc)
        ensures SkipLands(pt, pc)
      {
        if pt.code[pc].op == LOADBOOL && pt.code[pc].c > 1 {
          assert Next(pt, pc, pc + 2);
          LandedSkip(pt, pc);
        }
      }
    }
  }

  lemma LandedSkip(pt: Proto, pc: nat)
    requires Accepts(pt) && Executable(pt.code, pc) && pt.code[pc].op == LOADBOOL && Executable(pt.code, pc + 2)
    ensures SkipLands(pt, pc)
  {
    AfterOrdinary(pt, pc);
  }

  lemma RegisterOk(pt: Proto, pc: nat, r: int)
    requires Accepts(pt) && Executable(pt.code, pc) && TouchesRegister(pt.code[pc], r)
    ensures 0 <= r < pt.maxStackSize
  {
    assert FormatOk(pt, pt.code[pc]) && SpecificOk(pt, pc) by { assert InstrOk(pt, pc); }
  }

  lemma ClosureParts(pt: Proto, pc: nat)
    requires pc < |pt.code| && ClosureOk(pt, pc)
    ensures pt.code[pc].Bx() < |pt.nestedUps| && pc + pt.nestedUps[pt.code[pc].Bx()] < |pt.code|
    ensures forall j :: pc < j <= pc + pt.nestedUps[pt.code[pc].Bx()] ==> Capture(pt.code[j])
  {}

  lemma InsideCode(pt: Proto, pc: nat)
    requires Executable(pt.code, pc)
    ensures pc < |pt.code|
  {}

  /** Captured variables are registers or upvalues there are. */
  lemma CaptureFits(pt: Proto, j: nat)
    requires Accepts(pt) && Executable(pt.code, j) && Capture(pt.code[j])
    ensures CaptureInRange(pt, pt.code[j])
  {
    assert InstrOk(pt, j);
    hide JumpOk, SkipOk, ClosureOk;
  }

  lemma CapturesOk(pt: Proto, pc: nat)
    requires Accepts(pt) && Executable(pt.code, pc)
    ensures CapturesInRange(pt, pc)
  {
    InsideCode(pt, pc);
    hide *;
    if pt.code[pc].op == CLOSURE {
      ClosureFits(pt, pc);
      ClosureParts(pt, pc);
      var nup := pt.nestedUps[pt.code[pc].Bx()];
      CaptureList(pt, pc, nup);
      InsideCode(pt, pc + 1 + nup);
      forall j | pc < j <= pc + nup
        ensures CaptureInRange(pt, pt.code[j])
      {
        CaptureAt(pt, pc, j);
      }
    }
    CapturesAre(pt, pc);
  }

  lemma CaptureAt(pt: Proto, pc: nat, j: nat)
    requires Accepts(pt) && Executable(pt.code, pc) && pt.code[pc].op == CLOSURE && pt.code[pc].Bx() < |pt.nestedUps|
    requires pc < j <= pc + pt.nestedUps[pt.code[pc].Bx()] && j < |pt.code| && Capture(pt.code[j])
    ensures CaptureInRange(pt, pt.code[j])
  {
    hide *;
    CaptureList(pt, pc, j - pc - 1);
    CaptureFits(pt, j);
  }

  lemma CapturesAre(pt: Proto, pc: nat)
    requires pc < |pt.code|
    requires pt.code[pc].op == CLOSURE ==>
      var bx := pt.code[pc].Bx();
      && bx < |pt.nestedUps| && pc + 1 + pt.nestedUps[bx] < |pt.code|
      && forall j :: pc < j <= pc + pt.nestedUps[bx] ==> CaptureInRange(pt, pt.code[j])
    ensures CapturesInRange(pt, pc)
  {
    hide CaptureInRange;
  }

  lemma OperandsOk(pt: Proto, pc: nat)
    requires Accepts(pt) && Executable(pt.code, pc)
    ensures OperandsInRange(pt, pc)
  {
    CapturesOk(pt, pc);
    forall r | TouchesRegister(pt.code[pc], r)
      ensures 0 <= r < pt.maxStackSize
    {
      RegisterOk(pt, pc, r);
    }
    assert InstrOk(pt, pc);
    if LooksOpen(pt.code[pc]) {
      assert SpecificOk(pt, pc);
    }
  }

  /** A run of the interpreter inside one activation of the function. */
  ghost predicate IsRun(pt: Proto, trace: seq<int>) {
    && |trace| > 0 && trace[0] == 0
    && forall n :: 0 <= n < |trace| - 1 ==>
         0 <= trace[n] < |pt.code| && Next(pt, trace[n], trace[n+1])
  }

  /** The run stays inside the code, executes no count word and uses no operand out of range. */
  ghost predicate IsSafe(pt: Proto, trace: seq<int>) {
    forall n :: 0 <= n < |trace| ==> Executable(pt.code, trace[n]) && OperandsInRange(pt, trace[n])
  }

  /** The skips that the run makes land where the checker would have asked for it. */
  ghost predicate SkipsLand(pt: Proto, trace: seq<int>) {
    forall n :: 0 <= n < |trace| - 1 && 0 <= trace[n] < |pt.code| ==> SkipLands(pt, trace[n])
  }

  lemma {:induction false} SkipsKeepSafe(pt: Proto, trace: seq<int>)
    requires Accepts(pt) && IsRun(pt, trace) && SkipsLand(pt, trace)
    ensures IsSafe(pt, trace)
    decreases |trace|
  {
    hide Accepts, IsCount, SkipLands, OperandsInRange, Next;
    var last := |trace| - 1;
    if last > 0 {
      SkipsKeepSafe(pt, trace[..last]);
      assert Executable(pt.code, trace[..last][last-1]);
      OneStep(pt, trace[last-1], trace[last]);
    } else {
      StartsInside(pt);
    }
    OperandsOk(pt, trace[last]);
    forall n | 0 <= n < |trace|
      ensures Executable(pt.code, trace[n]) && OperandsInRange(pt, trace[n])
    {
      if n < last {
        assert trace[n] == trace[..last][n];
      }
    }
  }

  lemma StartsInside(pt: Proto)
    requires Accepts(pt)
    ensures Executable(pt.code, 0)
  {}

  /** Whatever the tests, calls and loops decide, a run of accepted code is safe if and only if
      its skips land well. */
  lemma AcceptedRunsAreSafe(pt: Proto, trace: seq<int>)
    requires Accepts(pt) && IsRun(pt, trace)
    ensures IsSafe(pt, trace) <==> SkipsLand(pt, trace)
  {
    hide Accepts, Executable, OperandsInRange;
    if SkipsLand(pt, trace) {
      SkipsKeepSafe(pt, trace);
    } else {
      var n :| 0 <= n < |trace| - 1 && 0 <= trace[n] < |pt.code| && !SkipLands(pt, trace[n]);
      assert Next(pt, trace[n], trace[n+1]);
      if IsSafe(pt, trace) {
        assert Executable(pt.code, trace[n+1]);
        LandedSkip(pt, trace[n]);
      }
    }
  }

  /** The instructions that some run reaches. */
  ghost predicate Reached(pt: Proto, pc: int) { exists trace :: IsRun(pt, trace) && trace[|trace|-1] == pc }

  /** All runs of accepted code are safe if and only if every long skip that can be reached lands well. */
  lemma AllRunsSafeIff(pt: Proto)
    requires Accepts(pt)
    ensures (forall trace :: IsRun(pt, trace) ==> IsSafe(pt, trace))
            <==> (forall pc :: Reached(pt, pc) && 0 <= pc < |pt.code| ==> SkipLands(pt, pc))
  {
    hide Accepts, Executable, OperandsInRange;
    if forall pc :: Reached(pt, pc) && 0 <= pc < |pt.code| ==> SkipLands(pt, pc) {
      forall trace | IsRun(pt, trace)
        ensures IsSafe(pt, trace)
      {
        forall n | 0 <= n < |trace| - 1 && 0 <= trace[n] < |pt.code|
          ensures SkipLands(pt, trace[n])
        {
          assert IsRun(pt, trace[..n+1]) && trace[..n+1][n] == trace[n];
          assert Reached(pt, trace[n]);
        }
        AcceptedRunsAreSafe(pt, trace);
      }
    }
    if forall trace :: IsRun(pt, trace) ==> IsSafe(pt, trace) {
      forall pc | Reached(pt, pc) && 0 <= pc < |pt.code|
        ensures SkipLands(pt, pc)
      {
        var trace :| IsRun(pt, trace) && trace[|trace|-1] == pc;
        if pt.code[pc].op == LOADBOOL && pt.code[pc].c > 1 {
          var more := trace + [pc + 2];
          assert Next(pt, pc, pc + 2);
          assert IsRun(pt, more);
          AcceptedRunsAreSafe(pt, more);
          assert more[|trace|-1] == pc;
        }
      }
    }
  }

  /** Values left open up to the top are taken by the very next instruction of the run. */
  lemma OpenResultsAreTaken(pt: Proto, trace: seq<int>, n: nat)
    requires Accepts(pt) && IsRun(pt, trace) && SkipsLand(pt, trace) && n + 1 < |trace|
    requires LeavesOpen(pt.code[trace[n]])
    ensures 0 <= trace[n+1] < |pt.code| && OpenOp(pt.code[trace[n+1]])
  {
    AcceptedRunsAreSafe(pt, trace);
    hide Accepts, Executable, OperandsInRange, SkipsLand;
    OpenNext(pt, trace[n], trace[n+1]);
  }

  lemma OpenNext(pt: Proto, pc: nat, next: int)
    requires Accepts(pt) && Executable(pt.code, pc) && Next(pt, pc, next) && LeavesOpen(pt.code[pc])
    ensures 0 <= next < |pt.code| && OpenOp(pt.code[next])
  {
    InstrParts(pt, pc);
    hide Accepts, Executable, FormatOk, JumpOk, SkipOk, ClosureOk;
  }

  /** Accepted code whose first instruction skips two words, onto a count. */
  function LongSkip(): Proto {
    Proto([Instruction(LOADBOOL, 0, 1, 2), Instruction(SETLIST, 0, 1, 0),
           Instruction(BADOP, 0, 0, 0), Instruction(RETURN, 0, 1, 0)],
          [], [], 0, 0, 0, 2, 0, false, false, false)
  }

  lemma LongSkipAccepted()
    ensures Accepts(LongSkip())
  {
    var pt := LongSkip();
    assert IsCount(pt.code, 2);
    LongSkipInstructions();
    hide InstrOk;
    assert forall pc :: Executable(pt.code, pc) ==> pc == 0 || pc == 1 || pc == 3;
  }

  lemma LongSkipInstructions()
    ensures InstrOk(LongSkip(), 0) && InstrOk(LongSkip(), 1) && InstrOk(LongSkip(), 3)
  {
    LongSkipFirst();
    LongSkipList();
    LongSkipLast();
    hide InstrOk;
  }

  lemma LongSkipFirst()
    ensures InstrOk(LongSkip(), 0)
  {
    hide ClosureOk, IsCount;
  }

  lemma LongSkipList()
    ensures InstrOk(LongSkip(), 1)
  {
    hide ClosureOk, IsCount;
  }

  lemma LongSkipLast()
    ensures InstrOk(LongSkip(), 3)
  {
    hide ClosureOk, IsCount;
  }

  /** With C == 2 in a LOADBOOL, accepted code runs into a count word. */
  lemma LongSkipCounterexample()
    ensures Accepts(LongSkip()) && IsRun(LongSkip(), [0, 2]) && IsCount(LongSkip().code, 2)
  {
    LongSkipAccepted();
    assert IsCount(LongSkip().code, 2);
    assert Next(LongSkip(), 0, 2);
  }
}
