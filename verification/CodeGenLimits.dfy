/** Which expressions are compiled correctly: those whose lists are settled, so all without a
    bare jump that takes over a jump with a value, so all without literal booleans and negated
    constants; and one that is not. */
module CodeGenLimits {
  import opened LuaVm
  import opened JumpPatch
  import opened CodeGen
  import opened CodeGenSteps
  import opened CodeGenLists
  import opened CodeGenExp
  import opened CodeGenCond
  import opened CodeGenNot
  import opened CodeGenCorrect

  // ---------- The start of a function ----------

  function Start(params: nat): State { State([], [], -1, params, params, []) }

  /** The parameters, then nil. */
  ghost predicate AtCall(params: nat, r: Regs) { forall i: int :: i >= params ==> Get(r, i) == Nil }

  /** The first expression of a function: run from its start, the code computes the value into
      the first register behind the parameters and changes no parameter. */
  lemma FirstValue(m: Machine, params: nat, x: Expr, r: Regs)
    requires InScope(x, params) && Settled(Start(params), x) && AtCall(params, r)
    requires Exp2NextReg(Compile(Start(params), x).s, Compile(Start(params), x).e).0.k <= m.k
    ensures var u := Exp2NextReg(Compile(Start(params), x).s, Compile(Start(params), x).e).0;
      && Run(m, u, 0, r).Here? && Get(Run(m, u, 0, r).r, params) == Eval(m, x, r)
      && Agree(params, r, Run(m, u, 0, r).r)
  {
    hide Compile, Exp2NextReg, Eval, Settled;
    ValueInRegister(m, Start(params), x, 0, r);
    assert Run(m, Start(params), 0, r) == Here(r);
  }

  // ---------- Expressions without literal booleans ----------

  /** The last operand is a constant. */
  predicate EndsConstant(x: Expr) {
    match x
    case NilE | TrueE | FalseE | Num(_) | Str(_) => true
    case Paren(y) => EndsConstant(y)
    case Not(y) => EndsConstant(y)
    case And(l, y) => EndsConstant(y)
    case Or(l, y) => EndsConstant(y)
    case _ => false
  }

  /** No true, no false, and no negated constant. */
  predicate Ordinary(x: Expr) {
    match x
    case TrueE | FalseE => false
    case Paren(y) => Ordinary(y)
    case Not(y) => Ordinary(y) && !EndsConstant(y)
    case And(l, y) => Ordinary(l) && Ordinary(y)
    case Or(l, y) => Ordinary(l) && Ordinary(y)
    case Compar(op, l, y) => Ordinary(l) && Ordinary(y)
    case _ => true
  }

  predicate ConstantKind(k: Kind) { k.VNil? || k.VTrue? || k.VFalse? || k.VK? || k.VKNum? }

  /** Such expressions never need a bare jump. */
  lemma {:induction false} OrdinaryClean(s: State, x: Expr)
    requires Ordinary(x)
    ensures Compile(s, x).clean && Compile(s, x).e.k != VTrue && Compile(s, x).e.k != VFalse
    ensures ConstantKind(Compile(s, x).e.k) ==> EndsConstant(x)
    decreases x
  {
    hide GoIfTrue, GoIfFalse, Exp2RK, Discharge2AnyReg;
    match x
    case Paren(y) => OrdinaryClean(s, y);
    case Not(y) => OrdinaryClean(s, y);
    case And(l, y) =>
      OrdinaryClean(s, l);
      OrdinaryClean(GoIfTrue(Compile(s, l).s, Compile(s, l).e).0, y);
    case Or(l, y) =>
      OrdinaryClean(s, l);
      OrdinaryClean(GoIfFalse(Compile(s, l).s, Compile(s, l).e).0, y);
    case Compar(op, l, y) =>
      OrdinaryClean(s, l);
      OrdinaryClean(Exp2RK(Compile(s, l).s, Compile(s, l).e).0, y);
    case _ =>
  }

  // ---------- The bare jump ----------

  /** A jump that is always taken decides right exactly on the runs that do not come through a
      pending jump which brings a value other than the constant. */
  lemma BareJumpExact(m: Machine, s: State, cond: bool, pc: nat, r: Regs)
    requires StateOk(s) && Free(s.code, pc)
    ensures var k := if cond then VTrue else VFalse;
            var o := Exec(m, s.code, pc, r);
            Branches(m, s, Branch(s, k, cond).0, k, Branch(s, k, cond).1, {}, cond, pc, r) <==>
            !(o.Exit? && o.jump in s.jpc && o.kept.Some? && o.kept.value != Bool(cond))
  {
    ExecAppend(m, s.code, [Jmp(Open)], pc, r);
  }

  /** On every run that arrives the jump of the constant is taken with the value of the constant. */
  ghost predicate BareJumpRight(s: State, cond: bool) {
    var k := if cond then VTrue else VFalse;
    forall m: Machine, pc: nat, r: Regs :: Free(s.code, pc) ==>
      Branches(m, s, Branch(s, k, cond).0, k, Branch(s, k, cond).1, {}, cond, pc, r)
  }

  lemma OneRunWrong(m: Machine, s: State, cond: bool, pc: nat, r: Regs)
    requires var k := if cond then VTrue else VFalse;
      Free(s.code, pc) && !Branches(m, s, Branch(s, k, cond).0, k, Branch(s, k, cond).1, {}, cond, pc, r)
    ensures !BareJumpRight(s, cond)
  {
    hide Branches, Branch, Free;
  }

  /** A register content with which a TESTSET takes its jump, but with a value that is no boolean. */
  function OddValue(c: bool): Value { if c then Number(1) else Nil }

  /** A jump pending with a value is taken with a value that is no boolean by some run. */
  lemma ValueTaken(m: Machine, code: seq<Instr>, j: nat) returns (r: Regs)
    requires CodeOk(code) && j < |code| && code[j] == Jmp(Open) && KeepsValue(code, j)
    ensures Free(code, j - 1)
    ensures var o := Exec(m, code, j - 1, r); o.Exit? && o.jump == j && o.kept.Some? && !o.kept.value.Bool?
  {
    var i := code[j-1];
    r := Set(map[], i.b, OddValue(i.c));
    assert j >= 2 ==> InstrOk(code, j - 2);
  }

  /** Some machine; what it compares does not matter. */
  function AnyMachine(): Machine { Machine([], u => Nil, (a, b) => a == b, (a, b) => false, (a, b) => false) }

  /** A jump that is always taken decides right on all runs if and only if no jump pending to
      it brings a value, which the generator could see before it emits the jump. */
  lemma BareJumpRightIff(s: State, cond: bool)
    requires StateOk(s)
    ensures BareJumpRight(s, cond) <==> !ValuePending(s)
  {
    var k := if cond then VTrue else VFalse;
    hide Branches, Exec, StateOk, Branch;
    if ValuePending(s) {
      var j :| j in s.jpc && KeepsValue(s.code, j);
      var m := AnyMachine();
      PendingAt(s, j);
      var r := ValueTaken(m, s.code, j);
      BareJumpExact(m, s, cond, j - 1, r);
      OneRunWrong(m, s, cond, j - 1, r);
    } else {
      forall m: Machine, pc: nat, r: Regs | Free(s.code, pc)
        ensures Branches(m, s, Branch(s, k, cond).0, k, Branch(s, k, cond).1, {}, cond, pc, r)
      {
        StateCode(s);
        ExitIs(m, s.code, pc, r);
        BareJumpExact(m, s, cond, pc, r);
      }
    }
  }

  /** Every bare jump that compiling the expression emits decides right on all runs. */
  ghost predicate JumpsRight(s: State, x: Expr)
    decreases x
  {
    match x
    case Paren(y) => JumpsRight(s, y)
    case Not(y) => JumpsRight(s, y)
    case And(l, y) =>
      var c := Compile(s, l);
      JumpsRight(s, l) && (c.e.k == VFalse ==> BareJumpRight(c.s, false)) && JumpsRight(GoIfTrue(c.s, c.e).0, y)
    case Or(l, y) =>
      var c := Compile(s, l);
      JumpsRight(s, l) && (c.e.k == VTrue ==> BareJumpRight(c.s, true)) && JumpsRight(GoIfFalse(c.s, c.e).0, y)
    case Compar(op, l, y) =>
      var c := Compile(s, l);
      JumpsRight(s, l) && JumpsRight(Exp2RK(c.s, c.e).0, y)
    case _ => true
  }

  /** The generator never lets a jump with a value be taken over if and only if all its bare
      jumps decide right. */
  lemma {:induction false} CleanExact(s: State, x: Expr)
    requires StateOk(s) && InScope(x, s.nactvar)
    ensures Compile(s, x).clean <==> JumpsRight(s, x)
    decreases x
  {
    hide StateOk, GoIfTrue, GoIfFalse, Exp2RK, BareJumpRight, ValuePending, Built, CodeComp, CodeNot, DischargeVars, Frame;
    match x
    case Paren(y) => CleanExact(s, y);
    case Not(y) => CleanExact(s, y);
    case And(l, y) =>
      CleanExact(s, l);
      FirstOperand(s, l, false);
      BareJumpRightIff(Compile(s, l).s, false);
      CleanExact(GoIfTrue(Compile(s, l).s, Compile(s, l).e).0, y);
    case Or(l, y) =>
      CleanExact(s, l);
      FirstOperand(s, l, true);
      BareJumpRightIff(Compile(s, l).s, true);
      CleanExact(GoIfFalse(Compile(s, l).s, Compile(s, l).e).0, y);
    case Compar(op, l, y) =>
      CleanExact(s, l);
      FirstCompared(s, l);
      CleanExact(Exp2RK(Compile(s, l).s, Compile(s, l).e).0, y);
    case _ =>
  }

  lemma PendingAt(s: State, j: nat)
    requires StateOk(s) && j in s.jpc
    ensures CodeOk(s.code) && j < |s.code| && s.code[j] == Jmp(Open)
  {}

  lemma StateCode(s: State)
    requires StateOk(s)
    ensures CodeOk(s.code)
  {}

  lemma FirstOperand(s: State, l: Expr, cond: bool)
    requires StateOk(s) && InScope(l, s.nactvar)
    ensures StateOk(Compile(s, l).s)
    ensures var u := (if cond then GoIfFalse(Compile(s, l).s, Compile(s, l).e) else GoIfTrue(Compile(s, l).s, Compile(s, l).e)).0;
      StateOk(u) && u.nactvar == s.nactvar
  {
    hide *;
    var c := Compile(s, l);
    CompileBuilds(s, l);
    BuiltParts(s, c.s, c.e);
    BuiltGoIf(s, c.s, c.e, cond);
    var (u, list) := if cond then GoIfFalse(c.s, c.e) else GoIfTrue(c.s, c.e);
    HalfwayParts(s, u, list);
  }

  lemma FirstCompared(s: State, l: Expr)
    requires StateOk(s) && InScope(l, s.nactvar)
    ensures var u := Exp2RK(Compile(s, l).s, Compile(s, l).e).0; StateOk(u) && u.nactvar == s.nactvar
  {
    hide *;
    var c := Compile(s, l);
    CompileBuilds(s, l);
    BuiltOperand(s, c.s, c.e);
    OperandParts(s, Exp2RK(c.s, c.e).0, Exp2RK(c.s, c.e).1);
  }

  // ---------- Jumps taken over, left in the lists ----------

  /** Every jump of the lists that was taken over brings no value but the boolean that it stands
      for, whatever run takes it. */
  ghost predicate AdoptedRight(code: seq<Instr>, e: Exp, adopted: set<nat>) {
    forall m: Machine, pc: nat, r: Regs :: Free(code, pc) ==> ExitRight(m, code, e, adopted, pc, r)
  }

  predicate ExitRight(m: Machine, code: seq<Instr>, e: Exp, adopted: set<nat>, pc: nat, r: Regs)
    requires pc <= |code|
  {
    var o := Exec(m, code, pc, r);
    o.Exit? && (o.jump in e.t || o.jump in e.f) && o.jump in adopted ==> JumpValue(o.kept, o.jump in e.t) == Bool(o.jump in e.t)
  }

  /** That is so if and only if none of them has kept its value, which the generator could see
      before it closes the lists. */
  lemma NoneLeftExact(u: State, e: Exp, adopted: set<nat>)
    requires StateOk(u) && ExpOk(u, e)
    ensures AdoptedRight(u.code, e, adopted) <==> NoneLeft(u.code, e, adopted)
  {
    StateCode(u);
    ExpParts(u, e);
    ListsParts(u, e.t, e.f);
    hide StateOk, ExpOk, Exec, KeepsValue, Free;
    if NoneLeft(u.code, e, adopted) {
      forall m: Machine, pc: nat, r: Regs | Free(u.code, pc)
        ensures ExitRight(m, u.code, e, adopted, pc, r)
      {
        ExitIs(m, u.code, pc, r);
      }
    } else {
      var j :| (j in e.t || j in e.f) && j in adopted && KeepsValue(u.code, j);
      var m := AnyMachine();
      var r := ValueTaken(m, u.code, j);
      assert !ExitRight(m, u.code, e, adopted, j - 1, r);
    }
  }

  ghost predicate NoValues(code: seq<Instr>, jumps: set<nat>) {
    forall j :: j in jumps ==> j < |code| && !KeepsValue(code, j)
  }

  /** A jump that brings no value never brings one later. */
  lemma NoValuesStay(s: State, u: State, done: seq<nat>, jumps: set<nat>)
    requires Frame(s, u, done) && NoValues(s.code, jumps)
    ensures NoValues(u.code, jumps)
  {}

  lemma NoValuesTaken(s: State, k: Kind, cond: bool)
    requires StateOk(s) && !AdoptsJumps(s, k, if cond then VTrue else VFalse)
    ensures NoValues(s.code, TakenOver(s, k, cond))
  {}

  lemma NoneLeftFrom(code: seq<Instr>, e: Exp, adopted: set<nat>)
    requires NoValues(code, adopted)
    ensures NoneLeft(code, e, adopted)
  {}

  /** When no bare jump takes over a jump with a value, all lists are settled. */
  lemma {:induction false} CleanSettled(s: State, x: Expr)
    requires StateOk(s) && InScope(x, s.nactvar) && Compile(s, x).clean
    ensures Settled(s, x) && NoValues(Compile(s, x).s.code, Adopted(s, x))
    decreases x, 1
  {
    hide StateOk, Built, GoIfTrue, GoIfFalse, Exp2RK, CodeComp, CodeNot, DischargeVars, NoValues, NoneLeft, Frame, ExpOk;
    match x {
      case Paren(y) =>
        CleanSettled(s, y);
        CompileBuilds(s, y);
        BuiltParts(s, Compile(s, y).s, Compile(s, y).e);
        VarsFrame(Compile(s, y).s, Compile(s, y).e);
        NoValuesStay(Compile(s, y).s, Compile(s, x).s, [], Adopted(s, y));
      case Not(y) =>
        CleanSettled(s, y);
        CompileBuilds(s, y);
        BuiltParts(s, Compile(s, y).s, Compile(s, y).e);
        CodeNotOk(Compile(s, y).s, Compile(s, y).e);
        NoValuesStay(Compile(s, y).s, Compile(s, x).s, [], Adopted(s, y));
      case And(l, y) => CleanLogic(s, l, y, false);
      case Or(l, y) => CleanLogic(s, l, y, true);
      case Compar(op, l, y) =>
        CleanSettled(s, l);
        FirstCompared(s, l);
        CleanSettled(Exp2RK(Compile(s, l).s, Compile(s, l).e).0, y);
        NoValuesNone(Compile(s, x).s.code);
      case _ => NoValuesNone(Compile(s, x).s.code);
    }
    NoneLeftFrom(Compile(s, x).s.code, Compile(s, x).e, Adopted(s, x));
  }

  lemma {:induction false} CleanLogic(s: State, l: Expr, y: Expr, cond: bool)
    requires var x := if cond then Or(l, y) else And(l, y);
      StateOk(s) && InScope(x, s.nactvar) && Compile(s, x).clean
    ensures var x := if cond then Or(l, y) else And(l, y);
      OperandsSettled(s, x) && NoValues(Compile(s, x).s.code, Adopted(s, x))
    decreases if cond then Or(l, y) else And(l, y), 0
  {
    hide StateOk, Built, GoIfTrue, GoIfFalse, DischargeVars, NoValues, NoneLeft, Frame, ExpOk, TakenOver, AdoptsJumps;
    var c := Compile(s, l);
    CompileBuilds(s, l);
    BuiltParts(s, c.s, c.e);
    FirstOperand(s, l, cond);
    GoIfOk(c.s, c.e, cond);
    var s1 := if cond then GoIfFalse(c.s, c.e).0 else GoIfTrue(c.s, c.e).0;
    var d := Compile(s1, y);
    CompileBuilds(s1, y);
    BuiltParts(s1, d.s, d.e);
    VarsFrame(d.s, d.e);
    CleanSettled(s, l);
    CleanSettled(s1, y);
    NoValuesTaken(c.s, c.e.k, cond);
    var a, t, b := Adopted(s, l), TakenOver(c.s, c.e.k, cond), Adopted(s1, y);
    NoValuesJoin(c.s.code, a, t);
    NoValuesStay(c.s, s1, c.e.t + c.e.f, a + t);
    NoValuesStay(s1, d.s, [], a + t);
    NoValuesJoin(d.s.code, a + t, b);
    NoValuesStay(d.s, DischargeVars(d.s, d.e).0, [], a + t + b);
  }

  lemma NoValuesNone(code: seq<Instr>)
    ensures NoValues(code, {})
  {}

  lemma NoValuesJoin(code: seq<Instr>, a: set<nat>, b: set<nat>)
    requires NoValues(code, a) && NoValues(code, b)
    ensures NoValues(code, a + b)
  {}

  lemma VarsFrame(s: State, e: Exp)
    requires StateOk(s) && ExpOk(s, e)
    ensures Frame(s, DischargeVars(s, e).0, [])
  {
    hide StateOk, ExpOk, DischargeVars, Frame;
    DischargeVarsOk(s, e);
  }

  // ---------- An expression that is not compiled correctly ----------

  /** ((1 or false) and true) or false. */
  const UNCLEAN := Or(UNCLEAN2, FalseE)
  const UNCLEAN2 := And(UNCLEAN1, TrueE)
  const UNCLEAN1 := Or(Num(1), FalseE)

  /** What the code looks like after `1 or', and after each bare jump. */
  const CODE1 := [LoadK(0, 0), TestSet(NO_REG, 0, true), Jmp(Open)]
  const CODE2 := CODE1 + [Jmp(Open)]
  const CODE3 := CODE2 + [Jmp(Open)]

  lemma AfterOne()
    ensures GoIfFalse(Start(0), Exp(VKNum(1), [], [])) == (State(CODE1, [], 3, 0, 0, [Number(1)]), [2])
  {
    var s0 := Start(0);
    assert Discharge(Reserve(AddK(s0, Number(1)))).code == [];
    var l := Load(Reserve(s0), VKNum(1), 0);
    assert l.code == [LoadK(0, 0)] && l.k == [Number(1)];
    assert Discharge(FreeReg(l, 0)).code == [LoadK(0, 0)];
    var j := JumpOnCond(s0, VKNum(1), true);
    assert j.code == CODE1;
    assert ToHere(j, []).jpc == [];
    var none: seq<nat> := [];
    assert none + [2] == [2];
  }

  lemma AfterFalse()
    ensures GoIfTrue(State(CODE1, [], 3, 0, 0, [Number(1)]), Exp(VFalse, [2], [])) ==
            (State(CODE2, [2], 4, 0, 0, [Number(1)]), [3])
  {
    var none: seq<nat> := [];
    assert none + [2] == [2] && [3] + none == [3] && none + [3] == [3];
  }

  lemma AfterTrue()
    ensures GoIfFalse(State(CODE2, [2], 4, 0, 0, [Number(1)]), Exp(VTrue, [], [3])) ==
            (State(CODE3, [3], 5, 0, 0, [Number(1)]), [4, 2])
  {
    var none: seq<nat> := [];
    assert none + [3] == [3] && [4] + [2] == [4, 2] && none + [4, 2] == [4, 2];
  }

  lemma UncleanFirst()
    ensures Compile(Start(0), UNCLEAN1) == Compiled(State(CODE1, [], 3, 0, 0, [Number(1)]), Exp(VFalse, [2], []), true)
  {
    AfterOne();
    hide GoIfTrue, GoIfFalse;
    var none: seq<nat> := [];
    assert none + [2] == [2];
    assert Compile(Start(0), Num(1)) == Plain(Start(0), VKNum(1));
  }

  lemma UncleanSecond()
    ensures Compile(Start(0), UNCLEAN2) == Compiled(State(CODE2, [2], 4, 0, 0, [Number(1)]), Exp(VTrue, [], [3]), true)
  {
    UncleanFirst();
    AfterFalse();
    hide GoIfTrue, GoIfFalse;
    var none: seq<nat> := [];
    assert none + [3] == [3];
  }

  lemma UncleanCode()
    ensures !Compile(Start(0), UNCLEAN).clean
    ensures Compile(Start(0), UNCLEAN).e == Exp(VFalse, [4, 2], [])
    ensures Compile(Start(0), UNCLEAN).s == State(CODE3, [3], 5, 0, 0, [Number(1)])
  {
    UncleanSecond();
    AfterTrue();
    hide GoIfTrue, GoIfFalse;
    var none: seq<nat> := [];
    assert none + [4, 2] == [4, 2];
    assert KeepsValue(CODE2, 2) && 2 in Compile(Start(0), UNCLEAN2).s.jpc;
  }

  /** false in the register, behind the code of the jumps. */
  lemma UncleanLoad()
    ensures var l := Load(State(CODE3, [3], 5, 1, 0, [Number(1)]), VFalse, 0);
      && |l.code| == 6 && l.jpc == [] && l.k == [Number(1)] && l.freereg == 1 && l.nactvar == 0
      && l.code[4] == Jmp(Open) && l.code[3] == Jmp(To(5)) && l.code[2] == Jmp(Open)
      && l.code[1] == TestSet(NO_REG, 0, true) && l.code[0] == LoadK(0, 0)
  {}

  /** The state before the list is patched. */
  lemma UncleanOpened(l: State)
    requires |l.code| == 6 && l.code[2] == Jmp(Open) && l.code[1] == TestSet(NO_REG, 0, true) && l.code[0] == LoadK(0, 0)
    ensures var p := PatchList(Opened(l, 0, false), [], 9, 0, 7);
      && |p.code| == 9 && p.k == l.k
      && p.code[2] == Jmp(Open) && p.code[1] == TestSet(NO_REG, 0, true) && p.code[0] == LoadK(0, 0)
  {
    var o := Opened(l, 0, false);
    assert |o.code| == 9 && o.code[2] == Jmp(Open) && o.code[1] == TestSet(NO_REG, 0, true) && o.code[0] == LoadK(0, 0);
  }

  lemma UncleanClose(l: State)
    requires |l.code| == 6 && l.code[4] == Jmp(Open) && l.code[3] == Jmp(To(5))
    ensures CloseLists(l, [4, 2], [], 0, false) == PatchList(PatchList(Opened(l, 0, false), [], 9, 0, 7), [4, 2], 9, 0, 8)
  {
    NeedIs(l.code, [4, 2], 4);
    hide NeedValue, Patch;
    assert |Opened(l, 0, false).code| == 9;
  }

  /** The code of the whole expression: the jump of `1 or' goes to the end. */
  lemma UncleanClosed()
    ensures var u := Exp2NextReg(State(CODE3, [3], 5, 0, 0, [Number(1)]), Exp(VFalse, [4, 2], [])).0;
      |u.code| == 9 && u.code[0] == LoadK(0, 0) && u.code[1] == Test(0, true) && u.code[2] == Jmp(To(9)) && u.k == [Number(1)]
  {
    UncleanLoad();
    hide Load, CloseLists, Opened;
    var l := Load(State(CODE3, [3], 5, 1, 0, [Number(1)]), VFalse, 0);
    UncleanOpened(l);
    UncleanClose(l);
  }

  lemma UncleanRun(m: Machine, code: seq<Instr>)
    requires |code| == 9 && code[0] == LoadK(0, 0) && code[1] == Test(0, true) && code[2] == Jmp(To(9))
    requires m.k == [Number(1)]
    ensures Exec(m, code, 0, map[]) == Here(map[0 := Number(1)])
  {
    var r := Set(map[], 0, Number(1));
    assert Exec(m, code, 9, r) == Here(r);
    assert Exec(m, code, 1, r) == Here(r);
  }

  lemma UncleanValue(m: Machine)
    ensures Eval(m, UNCLEAN, map[]) == Bool(true)
  {
    assert Eval(m, UNCLEAN1, map[]) == Number(1);
    assert Eval(m, UNCLEAN2, map[]) == Bool(true);
  }

  /** It is true, but the code leaves 1: the jump of `1 or' is taken over by the one that stands
      for `true or', value and all. */
  lemma UncleanWrong(m: Machine)
    requires m.k == [Number(1)]
    ensures var u := Exp2NextReg(Compile(Start(0), UNCLEAN).s, Compile(Start(0), UNCLEAN).e).0;
      && Eval(m, UNCLEAN, map[]) == Bool(true)
      && u.k <= m.k && Run(m, u, 0, map[]) == Here(map[0 := Number(1)])
  {
    hide Compile, Exp2NextReg, Eval;
    UncleanCode();
    UncleanClosed();
    UncleanValue(m);
    UncleanRun(m, Exp2NextReg(Compile(Start(0), UNCLEAN).s, Compile(Start(0), UNCLEAN).e).0.code);
  }

  lemma FirstAdopted()
    ensures OperandsSettled(Start(0), UNCLEAN1) && Adopted(Start(0), UNCLEAN1) == {}
  {
    hide GoIfTrue, GoIfFalse, NoneLeft;
    assert Compile(Start(0), Num(1)) == Plain(Start(0), VKNum(1));
  }

  lemma SecondAdopted()
    ensures OperandsSettled(Start(0), UNCLEAN2) && Adopted(Start(0), UNCLEAN2) == {}
  {
    FirstAdopted();
    UncleanFirst();
    hide GoIfTrue, GoIfFalse, NoneLeft, Compile;
    assert TakenOver(State(CODE1, [], 3, 0, 0, [Number(1)]), VFalse, false) == {};
  }

  lemma UncleanAdopted()
    ensures OperandsSettled(Start(0), UNCLEAN) && Adopted(Start(0), UNCLEAN) == {2}
  {
    SecondAdopted();
    UncleanSecond();
    hide GoIfTrue, GoIfFalse, NoneLeft, Compile;
    assert TakenOver(State(CODE2, [2], 4, 0, 0, [Number(1)]), VTrue, true) == {2};
  }

  lemma AfterUnclean()
    ensures GoIfTrue(State(CODE3, [3], 5, 0, 0, [Number(1)]), Exp(VFalse, [4, 2], [])) ==
            (State(CODE3 + [Jmp(Open)], [4, 2], 6, 0, 0, [Number(1)]), [5, 3])
  {
    var none: seq<nat> := [];
    assert none + [4, 2] == [4, 2] && [5] + [3] == [5, 3] && none + [5, 3] == [5, 3];
  }

  lemma AndCode()
    ensures var c := Compile(Start(0), And(UNCLEAN, Num(2)));
      !c.clean && c.s.code == CODE3 + [Jmp(Open)] && c.e == Exp(VKNum(2), [], [5, 3])
  {
    UncleanCode();
    AfterUnclean();
    hide GoIfTrue;
    var none: seq<nat> := [];
    assert none + [5, 3] == [5, 3];
  }

  lemma AndAdopted()
    ensures OperandsSettled(Start(0), And(UNCLEAN, Num(2))) && Adopted(Start(0), And(UNCLEAN, Num(2))) == {2} + {3}
  {
    UncleanCode();
    UncleanAdopted();
    hide GoIfTrue, Compile, NoneLeft;
    assert TakenOver(State(CODE3, [3], 5, 0, 0, [Number(1)]), VFalse, false) == {3};
  }

  /** Where its value is asked for, the jump of `1 or' is left in the list with its value; in
      front of `and 2' it is not, and the code is right although a bare jump has taken it over. */
  lemma UncleanSettled()
    ensures !Settled(Start(0), UNCLEAN)
    ensures !Compile(Start(0), And(UNCLEAN, Num(2))).clean && Settled(Start(0), And(UNCLEAN, Num(2)))
  {
    UncleanCode();
    UncleanAdopted();
    AndCode();
    AndAdopted();
    hide Adopted, Compile, OperandsSettled;
    assert KeepsValue(CODE3, 2) && 2 in Compile(Start(0), UNCLEAN).e.t;
    assert !KeepsValue(CODE3 + [Jmp(Open)], 3);
  }
}
