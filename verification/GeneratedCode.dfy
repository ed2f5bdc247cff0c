/** The bytecode checker accepts what the code generator emits: no jump is left pending, and the
    jumps, tests and skips are as the checker wants them. */
module GeneratedCode {
  import opened Options
  import opened LuaVm
  import opened JumpPatch
  import opened JumpLists
  import opened CodeGen
  import opened CodeGenSteps
  import opened CodeGenExp
  import opened CodeGenCorrect
  import opened CodeGenLimits
  import O = Opcodes
  import K = CodeChecker

  // ---------- Every pending jump is in a list ----------

  ghost predicate Listed(s: State, l: set<nat>) {
    forall j :: 0 <= j < |s.code| && s.code[j] == Jmp(Open) ==> j in s.jpc || j in l
  }

  function Jumps(list: seq<nat>): set<nat> { set j | j in list }

  function ListsOf(e: Exp): set<nat> { Jumps(e.t) + Jumps(e.f) }

  lemma PatchedOpen(code: seq<Instr>, list: seq<nat>, vtarget: nat, reg: int, dtarget: nat)
    ensures var u := Patch(code, list, vtarget, reg, dtarget);
      forall j :: 0 <= j < |code| ==> (u[j] == Jmp(Open) <==> code[j] == Jmp(Open) && j !in list)
  {
    forall j | 0 <= j < |code|
      ensures Patch(code, list, vtarget, reg, dtarget)[j] == Jmp(Open) <==> code[j] == Jmp(Open) && j !in list
    {
      assert Patch(code, list, vtarget, reg, dtarget)[j] == PatchedAt(code, j, list, vtarget, reg, dtarget);
    }
  }

  lemma DischargeListed(s: State, l: set<nat>)
    requires Listed(s, l)
    ensures Listed(Discharge(s), l)
  {
    PatchedOpen(s.code, s.jpc, |s.code|, NO_REG, |s.code|);
    hide Patch;
  }

  lemma EmitListed(s: State, l: set<nat>, i: Instr)
    requires Listed(s, l) && !i.Jmp?
    ensures Listed(Emit(s, i), l)
  {
    DischargeListed(s, l);
    hide Discharge;
  }

  lemma CondJumpListed(s: State, l: set<nat>, i: Instr)
    requires Listed(s, l) && !i.Jmp?
    ensures Listed(CondJump(s, i), l + {|s.code| + 1})
  {
    EmitListed(s, l, i);
    assert |Emit(s, i).code| == |s.code| + 1;
    hide Emit;
  }

  lemma JumpListed(s: State, l: set<nat>)
    requires Listed(s, l)
    ensures Listed(JumpState(s), l + Jumps(JumpList(s)))
  {}

  lemma HereListed(s: State, l: set<nat>, list: seq<nat>)
    requires Listed(s, l + Jumps(list))
    ensures Listed(ToHere(s, list), l)
  {}

  lemma PatchListListed(s: State, l: set<nat>, list: seq<nat>, vtarget: nat, reg: int, dtarget: nat)
    requires Listed(s, l + Jumps(list))
    ensures Listed(PatchList(s, list, vtarget, reg, dtarget), l)
  {
    PatchedOpen(s.code, list, vtarget, reg, dtarget);
    hide Patch;
  }

  lemma LoadListed(s: State, l: set<nat>, k: Kind, reg: nat)
    requires Listed(s, l)
    ensures Listed(Load(s, k, reg), l)
  {
    hide Emit;
    match k
    case VNil => EmitListed(s, l, LoadNil(reg, reg));
    case VTrue => EmitListed(s, l, LoadBool(reg, true, false));
    case VFalse => EmitListed(s, l, LoadBool(reg, false, false));
    case VK(i) => EmitListed(s, l, LoadK(reg, i));
    case VKNum(n) => EmitListed(AddK(s, Number(n)), l, LoadK(reg, IndexOf(s.k, Number(n))));
    case VReloc(op) => EmitListed(s, l, Relocate(op, reg));
    case VNonReloc(r) => EmitListed(s, l, Move(reg, r));
    case _ =>
  }

  lemma LoadsListed(s: State, l: set<nat>, reg: nat)
    requires Listed(s, l)
    ensures Listed(AddLoads(s, reg), l)
  {}

  lemma CloseListed(s: State, l: set<nat>, t: seq<nat>, f: seq<nat>, reg: nat, wasJump: bool)
    requires Listed(s, l + Jumps(t) + Jumps(f))
    ensures Listed(CloseLists(s, t, f, reg, wasJump), l)
  {
    hide Patch, NeedValue;
    var all := l + Jumps(t) + Jumps(f);
    if t == [] && f == [] {
      assert all == l;
    } else if NeedValue(s.code, t) || NeedValue(s.code, f) {
      OpenedListed(s, all, reg, wasJump);
      var s1 := AddLoads(if wasJump then s else JumpState(s), reg);
      var s2 := if wasJump then Label(s1) else ToHere(s1, JumpList(s));
      BothPatched(s2, l, t, f, |s1.code|, reg, |s1.code| - 2, |s1.code| - 1);
    } else {
      BothPatched(Label(s), l, t, f, |s.code|, reg, |s.code|, |s.code|);
    }
  }

  lemma OpenedListed(s: State, l: set<nat>, reg: nat, wasJump: bool)
    requires Listed(s, l)
    ensures var s1 := AddLoads(if wasJump then s else JumpState(s), reg);
      Listed(if wasJump then Label(s1) else ToHere(s1, JumpList(s)), l)
  {
    if wasJump {
      LoadsListed(s, l, reg);
    } else {
      JumpListed(s, l);
      LoadsListed(JumpState(s), l + Jumps(JumpList(s)), reg);
      HereListed(AddLoads(JumpState(s), reg), l, JumpList(s));
    }
  }

  lemma BothPatched(s: State, l: set<nat>, t: seq<nat>, f: seq<nat>, n: nat, reg: nat, pf: nat, pt: nat)
    requires Listed(s, l + Jumps(t) + Jumps(f))
    ensures Listed(PatchList(PatchList(s, f, n, reg, pf), t, n, reg, pt), l)
  {
    PatchListListed(s, l + Jumps(t), f, n, reg, pf);
    PatchListListed(PatchList(s, f, n, reg, pf), l, t, n, reg, pt);
  }

  lemma Exp2RegListed(s: State, l: set<nat>, e: Exp, reg: nat)
    requires Listed(s, l + ListsOf(e))
    ensures Listed(Exp2Reg(s, e, reg), l)
  {
    hide CloseLists, CondJump, Load;
    if e.k.VJmp? {
      CondJumpListed(s, l + ListsOf(e), TestInstr(e.k.test));
      var t := e.t + [|s.code| + 1];
      assert l + ListsOf(e) + {|s.code| + 1} == l + Jumps(t) + Jumps(e.f);
      CloseListed(CondJump(s, TestInstr(e.k.test)), l, t, e.f, reg, true);
    } else {
      LoadListed(s, l + ListsOf(e), e.k, reg);
      assert l + ListsOf(e) == l + Jumps(e.t) + Jumps(e.f);
      CloseListed(Load(s, e.k, reg), l, e.t, e.f, reg, false);
    }
  }

  lemma VarsListed(s: State, l: set<nat>, e: Exp)
    requires Listed(s, l)
    ensures Listed(DischargeVars(s, e).0, l) && ListsOf(DischargeVars(s, e).1) == ListsOf(e)
  {
    DischargeListed(s, l);
    hide Discharge;
  }

  /** Only code and pending jumps matter. */
  lemma SameListed(s: State, u: State, l: set<nat>)
    requires Listed(s, l) && u.code == s.code && u.jpc == s.jpc
    ensures Listed(u, l)
  {}

  lemma Exp2NextRegListed(s: State, l: set<nat>, e: Exp)
    requires Listed(s, l + ListsOf(e))
    ensures Listed(Exp2NextReg(s, e).0, l) && ListsOf(Exp2NextReg(s, e).1) == {}
  {
    VarsListed(s, l + ListsOf(e), e);
    var (s1, e1) := DischargeVars(s, e);
    var s2 := Reserve(FreeExp(s1, e1.k));
    SameListed(s1, s2, l + ListsOf(e));
    hide DischargeVars, Exp2Reg;
    Exp2RegListed(s2, l, e1, FreeExp(s1, e1.k).freereg);
  }

  lemma Exp2AnyRegListed(s: State, l: set<nat>, e: Exp)
    requires Listed(s, l + ListsOf(e))
    ensures var (u, e1) := Exp2AnyReg(s, e); Listed(u, l + ListsOf(e1))
  {
    VarsListed(s, l + ListsOf(e), e);
    var (s1, e1) := DischargeVars(s, e);
    hide DischargeVars, Exp2Reg, Exp2NextReg;
    Exp2NextRegListed(s1, l, e1);
    assert l + ListsOf(Exp2NextReg(s1, e1).1) == l;
    if e1.k.VNonReloc? {
      Exp2RegListed(s1, l, e1, e1.k.r);
      assert l + ListsOf(Exp(e1.k, [], [])) == l;
    }
  }

  lemma Exp2RKListed(s: State, l: set<nat>, e: Exp)
    requires Listed(s, l + ListsOf(e))
    ensures var (u, e1) := Exp2RK(s, e); Listed(u, l + ListsOf(e1))
  {
    VarsListed(s, l + ListsOf(e), e);
    Exp2AnyRegListed(s, l, e);
    hide DischargeVars, Exp2AnyReg;
    var (s1, e1) := Exp2Val(s, e);
    Exp2AnyRegListed(s1, l, e1);
  }

  // ---------- Conditions ----------

  lemma AnyRegListed(s: State, l: set<nat>, k: Kind)
    requires Listed(s, l)
    ensures Listed(Discharge2AnyReg(s, k).0, l)
  {
    hide Load;
    if !k.VNonReloc? {
      LoadListed(Reserve(s), l, k, s.freereg);
    }
  }

  lemma JumpOnCondListed(s: State, l: set<nat>, k: Kind, cond: bool)
    requires Listed(s, l)
    ensures Listed(JumpOnCond(s, k, cond), l + {|JumpOnCond(s, k, cond).code| - 1})
  {
    hide CondJump, Discharge2AnyReg;
    if k.VReloc? && k.op.NotOf? {
      CondJumpListed(s, l, Test(k.op.b, !cond));
    } else {
      AnyRegListed(s, l, k);
      var (s1, r) := Discharge2AnyReg(s, k);
      SameListed(s1, FreeReg(s1, r), l);
      CondJumpListed(FreeReg(s1, r), l, TestSet(NO_REG, r, cond));
    }
  }

  lemma BranchListed(s: State, l: set<nat>, k: Kind, cond: bool)
    requires Listed(s, l)
    ensures var (u, list) := Branch(s, k, cond); Listed(u, l + Jumps(list))
  {
    hide CondJump, JumpOnCond;
    if KnownNot(k, cond) {
      assert l + Jumps([]) == l;
    } else if k == (if cond then VTrue else VFalse) {
      JumpListed(s, l);
    } else if k.VJmp? {
      CondJumpListed(s, l, TestInstr(if cond then k.test else Invert(k.test)));
      assert Jumps([|s.code| + 1]) == {|s.code| + 1};
    } else {
      JumpOnCondListed(s, l, k, cond);
      var n := |JumpOnCond(s, k, cond).code| - 1;
      assert Jumps([n]) == {n};
    }
  }

  lemma GoIfListed(s: State, l: set<nat>, e: Exp, cond: bool)
    requires Listed(s, l + ListsOf(e))
    ensures var (u, list) := if cond then GoIfFalse(s, e) else GoIfTrue(s, e); Listed(u, l + Jumps(list))
  {
    VarsListed(s, l + ListsOf(e), e);
    VarsLists(s, e);
    var (s1, e1) := DischargeVars(s, e);
    hide DischargeVars, Branch;
    BranchListed(s1, l + ListsOf(e), e1.k, cond);
    var (s2, list) := Branch(s1, e1.k, cond);
    var (here, away) := if cond then (e.f, e.t) else (e.t, e.f);
    assert l + ListsOf(e) + Jumps(list) == l + Jumps(away + list) + Jumps(here);
    HereListed(s2, l + Jumps(away + list), here);
  }

  lemma VarsLists(s: State, e: Exp)
    ensures DischargeVars(s, e).1.t == e.t && DischargeVars(s, e).1.f == e.f
  {}

  lemma DropListed(s: State, l: set<nat>, list: seq<nat>)
    requires Listed(s, l)
    ensures Listed(s.(code := DropValues(s.code, list)), l)
  {
    var r := DropValues(s.code, list);
    forall j | 0 <= j < |s.code|
      ensures r[j] == Jmp(Open) ==> s.code[j] == Jmp(Open)
    {
      assert r[j] == DroppedAt(s.code, j, list);
    }
    hide DropValues;
  }

  lemma NotValueListed(s: State, l: set<nat>, k: Kind)
    requires Listed(s, l)
    ensures Listed(NotValue(s, k).0, l)
  {
    AnyRegListed(s, l, k);
    var (s1, r) := Discharge2AnyReg(s, k);
    SameListed(s1, FreeReg(s1, r), l);
    DischargeListed(FreeReg(s1, r), l);
    hide Discharge, Discharge2AnyReg;
  }

  lemma NotListed(s: State, l: set<nat>, e: Exp)
    requires Listed(s, l + ListsOf(e))
    ensures var (u, e1) := CodeNot(s, e); Listed(u, l + ListsOf(e1))
  {
    VarsListed(s, l + ListsOf(e), e);
    VarsLists(s, e);
    var (s1, e1) := DischargeVars(s, e);
    NotValueListed(s1, l + ListsOf(e), e1.k);
    var (s2, k) := NotValue(s1, e1.k);
    hide DischargeVars, NotValue, DropValues;
    DropListed(s2, l + ListsOf(e), e.t);
    DropListed(s2.(code := DropValues(s2.code, e.t)), l + ListsOf(e), e.f);
    assert ListsOf(Exp(k, e.f, e.t)) == ListsOf(e);
  }

  lemma CompListed(s: State, l: set<nat>, op: Cmp, k1: Kind, e2: Exp)
    requires Listed(s, l + ListsOf(e2)) && ListsOf(Exp2RK(s, e2).1) == {}
    ensures var (u, e) := CodeComp(s, op, k1, e2); Listed(u, l) && ListsOf(e) == {}
  {
    Exp2RKListed(s, l, e2);
    var (s1, e3) := Exp2RK(s, e2);
    assert l + ListsOf(e3) == l;
    var s2 := FreeExp(FreeExp(s1, e3.k), k1);
    SameListed(s1, s2, l);
    DischargeListed(s2, l);
    hide Exp2RK, Discharge;
  }

  // ---------- Expressions ----------

  lemma PlainListed(s: State, l: set<nat>, u: State, k: Kind)
    requires Listed(s, l) && u.code == s.code && u.jpc == s.jpc
    ensures Listed(u, l + ListsOf(Exp(k, [], [])))
  {
    assert l + ListsOf(Exp(k, [], [])) == l;
  }

  lemma OperandLists(s: State, u: State, e: Exp)
    requires Built(s, u, e)
    ensures ListsOf(Exp2RK(u, e).1) == {}
  {
    BuiltParts(s, u, e);
    hide StateOk, ExpOk, Exp2RK, Frame;
    Exp2RKOk(u, e);
  }

  /** Compiling keeps every pending jump in the lists of the expression. */
  lemma {:induction false} CompileListed(s: State, l: set<nat>, x: Expr)
    requires StateOk(s) && InScope(x, s.nactvar) && Listed(s, l)
    ensures Listed(Compile(s, x).s, l + ListsOf(Compile(s, x).e))
    decreases x, 1
  {
    hide StateOk, Listed, GoIfTrue, GoIfFalse, Exp2RK, CodeComp, CodeNot, DischargeVars, Built, ListsOf;
    match x
    case Paren(y) =>
      CompileListed(s, l, y);
      var c := Compile(s, y);
      VarsListed(c.s, l + ListsOf(c.e), c.e);
    case Not(y) =>
      CompileListed(s, l, y);
      NotListed(Compile(s, y).s, l, Compile(s, y).e);
    case And(a, y) => LogicListed(s, l, a, y, false);
    case Or(a, y) => LogicListed(s, l, a, y, true);
    case Compar(op, a, y) => ComparedListed(s, l, op, a, y);
    case NilE => PlainListed(s, l, s, VNil);
    case TrueE => PlainListed(s, l, s, VTrue);
    case FalseE => PlainListed(s, l, s, VFalse);
    case Num(n) => PlainListed(s, l, s, VKNum(n));
    case Str(t) => PlainListed(s, l, AddK(s, Text(t)), VK(IndexOf(s.k, Text(t))));
    case Local(r) => PlainListed(s, l, s, VLocal(r));
    case Upval(u) => PlainListed(s, l, s, VUpval(u));
  }

  lemma {:induction false} LogicListed(s: State, l: set<nat>, a: Expr, y: Expr, cond: bool)
    requires var x := if cond then Or(a, y) else And(a, y); StateOk(s) && InScope(x, s.nactvar) && Listed(s, l)
    ensures var x := if cond then Or(a, y) else And(a, y); Listed(Compile(s, x).s, l + ListsOf(Compile(s, x).e))
    decreases if cond then Or(a, y) else And(a, y), 0
  {
    hide StateOk, Listed, GoIfTrue, GoIfFalse, DischargeVars, ListsOf, Jumps;
    CompileListed(s, l, a);
    var c := Compile(s, a);
    GoIfListed(c.s, l, c.e, cond);
    FirstOperand(s, a, cond);
    var (s1, list) := if cond then GoIfFalse(c.s, c.e) else GoIfTrue(c.s, c.e);
    CompileListed(s1, l + Jumps(list), y);
    var d := Compile(s1, y);
    VarsListed(d.s, l + Jumps(list) + ListsOf(d.e), d.e);
    VarsLists(d.s, d.e);
    ListsJoin(l, list, DischargeVars(d.s, d.e).1);
  }

  lemma ListsJoin(l: set<nat>, list: seq<nat>, e: Exp)
    ensures l + Jumps(list) + ListsOf(e) == l + ListsOf(Exp(e.k, e.t + list, e.f)) == l + ListsOf(Exp(e.k, e.t, e.f + list))
  {}

  lemma {:induction false} ComparedListed(s: State, l: set<nat>, op: Cmp, a: Expr, y: Expr)
    requires StateOk(s) && InScope(Compar(op, a, y), s.nactvar) && Listed(s, l)
    ensures var c := Compile(s, Compar(op, a, y)); Listed(c.s, l + ListsOf(c.e))
    decreases Compar(op, a, y), 0
  {
    hide StateOk, Listed, Exp2RK, CodeComp, Built, ListsOf;
    CompileListed(s, l, a);
    CompileBuilds(s, a);
    var c := Compile(s, a);
    Exp2RKListed(c.s, l, c.e);
    OperandLists(s, c.s, c.e);
    FirstCompared(s, a);
    var (s1, e1) := Exp2RK(c.s, c.e);
    assert l + ListsOf(e1) == l;
    CompileListed(s1, l, y);
    CompileBuilds(s1, y);
    var d := Compile(s1, y);
    OperandLists(s1, d.s, d.e);
    CompListed(d.s, l, op, e1.k, d.e);
    assert l + ListsOf(CodeComp(d.s, op, e1.k, d.e).1) == l;
  }

  /** In the finished code of an expression no jump is pending. */
  ghost predicate Resolved(code: seq<Instr>) { forall j :: 0 <= j < |code| ==> code[j] != Jmp(Open) }

  function Finished(params: nat, x: Expr): State {
    var c := Compile(Start(params), x);
    Discharge(CodeGen.Exp2NextReg(c.s, c.e).0)
  }

  lemma FinishedCode(params: nat, x: Expr)
    requires InScope(x, params)
    ensures CodeOk(Finished(params, x).code) && Resolved(Finished(params, x).code)
  {
    var s := Start(params);
    var c := Compile(s, x);
    assert StateOk(s) && Listed(s, {});
    hide StateOk, Listed, Compile, CodeGen.Exp2NextReg, Discharge, Built, ExpOk, Frame;
    CompileBuilds(s, x);
    BuiltParts(s, c.s, c.e);
    Exp2NextRegOk(c.s, c.e);
    var u := CodeGen.Exp2NextReg(c.s, c.e).0;
    CompileListed(s, {}, x);
    Exp2NextRegListed(c.s, {}, c.e);
    DischargeOk(u);
    DischargeListed(u, {});
    NonePending(u);
    StateCode(Discharge(u));
  }

  lemma NonePending(u: State)
    requires Listed(Discharge(u), {})
    ensures Resolved(Discharge(u).code)
  {
    hide Patch;
  }

  // ---------- Instructions as the checker sees them ----------

  predicate RegisterIn(r: int, stack: nat) { 0 <= r < stack }

  predicate OperandIn(o: Operand, stack: nat, consts: nat) {
    match o
    case Reg(r) => RegisterIn(r, stack)
    case Const(i) => i < consts && i <= MAXINDEXRK
  }

  /** Registers, constants and upvalues that there are. */
  predicate InRange(i: Instr, stack: nat, consts: nat, ups: nat) {
    match i
    case Move(a, b) => RegisterIn(a, stack) && RegisterIn(b, stack)
    case LoadK(a, k) => RegisterIn(a, stack) && k < consts
    case LoadBool(a, v, skip) => RegisterIn(a, stack)
    case LoadNil(a, b) => RegisterIn(a, stack) && RegisterIn(b, stack)
    case GetUpval(a, u) => RegisterIn(a, stack) && u < ups
    case NotI(a, b) => RegisterIn(a, stack) && RegisterIn(b, stack)
    case Compare(rel, cond, x, y) => OperandIn(x, stack, consts) && OperandIn(y, stack, consts)
    case Test(b, c) => RegisterIn(b, stack)
    case TestSet(a, b, c) => RegisterIn(a, stack) && RegisterIn(b, stack)
    case Jmp(dest) => true
  }

  function Flag(b: bool): nat { if b then 1 else 0 }

  /** RKASK on constants. */
  function RK(o: Operand): nat {
    match o
    case Reg(r) => if r < 0 then 0 else r
    case Const(i) => 0x100 + i
  }

  function Field(r: int): nat { if r < 0 then 0 else r }

  function Relational(rel: Relation): O.OpCode {
    match rel
    case EqR => O.EQ
    case LtR => O.LT
    case LeR => O.LE
  }

  function Wide(op: O.OpCode, a: nat, bx: nat): O.Instruction { O.Instruction(op, a, bx / 0x200, bx % 0x200) }

  /** A stored word with its fields; the offset of a jump is stored in excess 131071. */
  function Encode(w: Word): O.Instruction {
    match w
    case Offset(sbx) => Wide(O.JMP, 0, Field(sbx + O.MAXARG_SBX))
    case Op(i) =>
      match i
      case Move(a, b) => O.Instruction(O.MOVE, Field(a), Field(b), 0)
      case LoadK(a, k) => Wide(O.LOADK, Field(a), k)
      case LoadBool(a, v, skip) => O.Instruction(O.LOADBOOL, Field(a), Flag(v), Flag(skip))
      case LoadNil(a, b) => O.Instruction(O.LOADNIL, Field(a), Field(b), 0)
      case GetUpval(a, u) => O.Instruction(O.GETUPVAL, Field(a), u, 0)
      case NotI(a, b) => O.Instruction(O.NOT, Field(a), Field(b), 0)
      case Compare(rel, cond, x, y) => O.Instruction(Relational(rel), Flag(cond), RK(x), RK(y))
      case Test(b, c) => O.Instruction(O.TEST, Field(b), 0, Flag(c))
      case TestSet(a, b, c) => O.Instruction(O.TESTSET, Field(a), Field(b), Flag(c))
      case Jmp(_) => O.Instruction(O.BADOP, 0, 0, 0)
  }

  /** The words, and a return behind them. */
  function Packed(words: seq<Word>): (code: seq<O.Instruction>)
    ensures |code| == |words| + 1 && code[|words|] == O.Instruction(O.RETURN, 0, 1, 0)
    ensures forall i :: 0 <= i < |words| ==> code[i] == Encode(words[i])
  {
    seq(|words|, i requires 0 <= i < |words| => Encode(words[i])) + [O.Instruction(O.RETURN, 0, 1, 0)]
  }

  /** A function with that code; two registers are always there. */
  function Prototype(words: seq<Word>, k: seq<K.Constant>, ups: nat, params: nat, stack: nat): K.Proto {
    K.Proto(Packed(words), k, [], ups, 0, 0, stack, params, false, false, false)
  }

  ghost predicate WordsInRange(words: seq<Word>, stack: nat, consts: nat, ups: nat) {
    forall i :: 0 <= i < |words| && words[i].Op? ==> InRange(words[i].i, stack, consts, ups)
  }

  lemma WideIs(op: O.OpCode, a: nat, bx: nat)
    ensures Wide(op, a, bx).Bx() == bx
  {}

  lemma {:induction false} NoCounts(words: seq<Word>, k: nat)
    requires k <= |words|
    ensures !K.IsCount(Packed(words), k)
  {
    if k > 0 {
      assert Packed(words)[k-1] == Encode(words[k-1]);
      hide Packed;
    }
  }

  /** A jump lands on an instruction of the code or on the return. */
  lemma JumpAccepted(words: seq<Word>, code: seq<Instr>, k: seq<K.Constant>, ups: nat, params: nat, stack: nat, pc: nat)
    requires SameCode(words, code) && CodeOk(code) && Resolved(code) && pc < |code| && code[pc].Jmp? && stack >= 2
    ensures K.InstrOk(Prototype(words, k, ups, params, stack), pc)
  {
    assert SameWord(words[pc], code[pc], pc) && InstrOk(code, pc) && code[pc] != Jmp(Open);
    var dest := code[pc].dest.pc;
    assert words[pc] == Offset(dest - (pc + 1)) && pc < dest <= |code|;
    hide CodeOk, SameCode, Resolved, InstrOk, K.IsCount, K.InstrOk, Packed;
    WideIs(O.JMP, 0, dest - (pc + 1) + O.MAXARG_SBX);
    NoCounts(words, dest);
    JumpPasses(Prototype(words, k, ups, params, stack), pc, dest);
  }

  lemma JumpPasses(pt: K.Proto, pc: nat, dest: nat)
    requires pc < |pt.code| && dest < |pt.code| && pt.code[pc].op == O.JMP && pt.code[pc].a < pt.maxStackSize
    requires pc + 1 + pt.code[pc].SBx() == dest && !K.IsCount(pt.code, dest)
    ensures K.InstrOk(pt, pc)
  {
    hide K.IsCount, K.ClosureOk;
  }

  lemma FormatAccepted(i: Instr, k: seq<K.Constant>, words: seq<Word>, ups: nat, params: nat, stack: nat)
    requires InRange(i, stack, |k|, ups) && !i.Jmp? && stack >= 2 && stack <= O.MAXSTACK
    ensures K.FormatOk(Prototype(words, k, ups, params, stack), Encode(Op(i)))
  {
    hide Packed;
    match i
    case LoadK(a, n) => WideIs(O.LOADK, Field(a), n);
    case Compare(rel, cond, x, y) => CompareFormat(i, Prototype(words, k, ups, params, stack), ups);
    case _ => OtherFormat(i, Prototype(words, k, ups, params, stack), ups);
    hide K.FormatOk, Encode;
  }

  lemma CompareFormat(i: Instr, pt: K.Proto, ups: nat)
    requires i.Compare? && InRange(i, pt.maxStackSize, |pt.k|, ups) && 2 <= pt.maxStackSize <= O.MAXSTACK
    ensures K.FormatOk(pt, Encode(Op(i)))
  {
    OperandFormat(i.x, pt);
    OperandFormat(i.y, pt);
    hide K.ArgModeOk, RK, OperandIn;
  }

  lemma OperandFormat(o: Operand, pt: K.Proto)
    requires OperandIn(o, pt.maxStackSize, |pt.k|) && pt.maxStackSize <= O.MAXSTACK
    ensures K.ArgModeOk(pt, RK(o), O.ArgK)
  {}

  lemma OtherFormat(i: Instr, pt: K.Proto, ups: nat)
    requires !i.Compare? && !i.LoadK? && !i.Jmp? && InRange(i, pt.maxStackSize, |pt.k|, ups) && 2 <= pt.maxStackSize <= O.MAXSTACK
    ensures K.FormatOk(pt, Encode(Op(i)))
  {}

  /** A test stands in front of its jump, and a skip in front of something. */
  lemma WordAccepted(words: seq<Word>, code: seq<Instr>, k: seq<K.Constant>, ups: nat, params: nat, stack: nat, pc: nat)
    requires SameCode(words, code) && CodeOk(code) && pc < |code| && !code[pc].Jmp? && 2 <= stack <= O.MAXSTACK
    requires WordsInRange(words, stack, |k|, ups)
    ensures K.InstrOk(Prototype(words, k, ups, params, stack), pc)
  {
    assert SameWord(words[pc], code[pc], pc) && InstrOk(code, pc);
    var i := code[pc];
    assert words[pc] == Op(i) && InRange(i, stack, |k|, ups);
    assert Packed(words)[pc] == Encode(words[pc]);
    FormatAccepted(i, k, words, ups, params, stack);
    if pc + 1 < |code| {
      assert Packed(words)[pc+1] == Encode(words[pc+1]) && SameWord(words[pc+1], code[pc+1], pc + 1);
    }
    SpecificAccepted(words, code, k, ups, params, stack, pc);
    hide Packed, CodeOk, SameCode, WordsInRange, InRange, K.FormatOk, K.SpecificOk;
    assert i.Jmp? || O.GetOpMode(Encode(Op(i)).op) != O.AsBx;
    assert O.TestTMode(Encode(Op(i)).op) ==> IsTest(i);
  }

  lemma SpecificAccepted(words: seq<Word>, code: seq<Instr>, k: seq<K.Constant>, ups: nat, params: nat, stack: nat, pc: nat)
    requires |words| == |code| && pc < |code| && words[pc] == Op(code[pc]) && InstrOk(code, pc) && !code[pc].Jmp?
    requires InRange(code[pc], stack, |k|, ups)
    ensures K.SpecificOk(Prototype(words, k, ups, params, stack), pc)
  {
    hide K.SpecificOk, Packed;
    var pt := Prototype(words, k, ups, params, stack);
    assert pt.code[pc] == Encode(words[pc]);
    EncodedOp(code[pc]);
    if pc + 1 < |code| {
      assert pt.code[pc+1] == Encode(words[pc+1]);
      NoOpenList(words[pc+1]);
    }
    SpecificPasses(pt, pc);
  }

  /** The opcodes that expressions use. */
  lemma EncodedOp(i: Instr)
    requires !i.Jmp?
    ensures Encode(Op(i)).op in {O.MOVE, O.LOADK, O.LOADBOOL, O.LOADNIL, O.GETUPVAL, O.NOT, O.EQ, O.LT, O.LE, O.TEST, O.TESTSET}
  {}

  lemma NoOpenList(w: Word)
    ensures !K.LooksOpen(Encode(w))
  {}

  lemma SpecificPasses(pt: K.Proto, pc: nat)
    requires pc < |pt.code|
    requires pt.code[pc].op in {O.MOVE, O.LOADK, O.LOADBOOL, O.LOADNIL, O.GETUPVAL, O.NOT, O.EQ, O.LT, O.LE, O.TEST, O.TESTSET}
    requires pt.code[pc].op == O.GETUPVAL ==> pt.code[pc].b < pt.nups
    requires pt.code[pc].op == O.LOADBOOL && pt.code[pc].c == 1 ==> pc + 2 < |pt.code| && !K.LooksOpen(pt.code[pc+1])
    ensures K.SpecificOk(pt, pc)
  {
    hide K.ClosureOk;
  }

  lemma ReturnAccepted(words: seq<Word>, k: seq<K.Constant>, ups: nat, params: nat, stack: nat)
    requires stack >= 2
    ensures K.InstrOk(Prototype(words, k, ups, params, stack), |words|)
  {
    hide Packed, K.ClosureOk, K.IsCount;
  }

  /** Stored code without pending jumps, its operands in range, is accepted with a return behind it. */
  lemma CodeAccepted(words: seq<Word>, code: seq<Instr>, k: seq<K.Constant>, ups: nat, params: nat, stack: nat)
    requires SameCode(words, code) && CodeOk(code) && Resolved(code) && WordsInRange(words, stack, |k|, ups)
    requires 2 <= stack <= O.MAXSTACK && params <= stack
    ensures K.Accepts(Prototype(words, k, ups, params, stack))
  {
    var pt := Prototype(words, k, ups, params, stack);
    hide K.InstrOk, K.IsCount, CodeOk, Resolved, WordsInRange;
    forall pc | K.Executable(pt.code, pc)
      ensures K.InstrOk(pt, pc)
    {
      if pc == |words| {
        ReturnAccepted(words, k, ups, params, stack);
      } else if code[pc].Jmp? {
        JumpAccepted(words, code, k, ups, params, stack, pc);
      } else {
        WordAccepted(words, code, k, ups, params, stack, pc);
      }
    }
  }

  lemma WideFits(op: O.OpCode, a: nat, bx: nat)
    requires a < 0x100 && bx < 0x4_0000
    ensures Wide(op, a, bx).Fits()
  {}

  lemma WordFits(i: Instr, stack: nat, consts: nat, ups: nat)
    requires InRange(i, stack, consts, ups) && stack <= O.MAXSTACK && consts <= 0x4_0000 && ups <= 0x200
    ensures Encode(Op(i)).Fits()
  {
    if i.LoadK? {
      WideFits(O.LOADK, Field(i.a), i.i);
    }
  }

  /** And every field has room for what is in it, up to the longest jump. */
  lemma CodeFits(words: seq<Word>, code: seq<Instr>, k: seq<K.Constant>, ups: nat, params: nat, stack: nat)
    requires SameCode(words, code) && CodeOk(code) && Resolved(code) && WordsInRange(words, stack, |k|, ups)
    requires stack <= O.MAXSTACK && |words| <= O.MAXARG_SBX && |k| <= 0x4_0000 && ups <= 0x200
    ensures Prototype(words, k, ups, params, stack).Fits()
  {
    hide CodeOk, Encode, InRange;
    forall pc | 0 <= pc < |words|
      ensures Encode(words[pc]).Fits()
    {
      assert SameWord(words[pc], code[pc], pc);
      if code[pc].Jmp? {
        JumpFits(words, code, pc);
      } else {
        WordFits(code[pc], stack, |k|, ups);
      }
    }
    assert O.Instruction(O.RETURN, 0, 1, 0).Fits();
  }

  lemma JumpFits(words: seq<Word>, code: seq<Instr>, pc: nat)
    requires pc < |code| && CodeOk(code) && code[pc].Jmp? && code[pc] != Jmp(Open) && |code| <= O.MAXARG_SBX
    requires |words| == |code| && SameWord(words[pc], code[pc], pc)
    ensures Encode(words[pc]).Fits()
  {
    assert InstrOk(code, pc);
    WideFits(O.JMP, 0, words[pc].sbx + O.MAXARG_SBX);
  }
}
