/** The code generator is correct: the emitted code computes the value of the expression. */
module CodeGenCorrect {
  import opened LuaVm
  import opened JumpPatch
  import opened CodeGen
  import opened CodeGenSteps
  import opened CodeGenLists
  import opened CodeGenExp
  import opened CodeGenCond
  import opened CodeGenNot

  // ---------- Structure ----------

  /** What compiling an expression from s leaves: its lists are new or made of jumps that were
      pending to its start; its register, if it has one of its own, is the first that was free. */
  ghost predicate Built(s: State, u: State, e: Exp) {
    && StateOk(u) && ExpOk(u, e) && Frame(s, u, []) && BaseReg(u, e.k) == s.freereg && TrueConstant(u, e.k)
    && forall j :: j in e.t || j in e.f ==> j >= |s.code| || j in s.jpc
  }

  lemma BuiltVars(s: State, u: State, e: Exp)
    requires Built(s, u, e)
    ensures Built(s, DischargeVars(u, e).0, DischargeVars(u, e).1)
  {
    hide StateOk, ExpOk, Frame, BaseReg, DischargeVars, TrueConstant;
    DischargeVarsOk(u, e);
    TrueSame(u, e);
    FrameTrans(s, u, DischargeVars(u, e).0);
  }

  lemma BuiltNot(s: State, u: State, e: Exp)
    requires Built(s, u, e)
    ensures Built(s, CodeNot(u, e).0, CodeNot(u, e).1)
  {
    hide StateOk, ExpOk, Frame, BaseReg, CodeNot;
    CodeNotOk(u, e);
    FrameTrans(s, u, CodeNot(u, e).0);
  }

  /** Between the operands of `and' and `or': the jumps kept back are pending. */
  ghost predicate Halfway(s: State, u: State, list: seq<nat>) {
    && StateOk(u) && Frame(s, u, []) && u.freereg == s.freereg && Pending(u.code, list) && Apart(list, u.jpc)
    && forall j :: j in list ==> j >= |s.code| || j in s.jpc
  }

  lemma BuiltGoIf(s: State, u: State, e: Exp, cond: bool)
    requires Built(s, u, e)
    ensures var (v, list) := if cond then GoIfFalse(u, e) else GoIfTrue(u, e); Halfway(s, v, list)
  {
    hide StateOk, ExpOk, BaseReg, GoIfFalse, GoIfTrue, Pending, TakenOver, TrueConstant;
    GoIfOk(u, e, cond);
    var (v, list) := if cond then GoIfFalse(u, e) else GoIfTrue(u, e);
    FrameK(s, u, []);
    FrameDone(s, u, v, e.t + e.f);
    forall j | j in list
      ensures j >= |s.code| || j in s.jpc
    {
      assert j in e.t || j in e.f || j >= |u.code| || j in u.jpc;
    }
  }

  /** The jumps kept back join the list of the second operand. */
  lemma BuiltJoin(s: State, u: State, list: seq<nat>, v: State, e: Exp, cond: bool)
    requires Halfway(s, u, list) && Built(u, v, e)
    ensures Built(s, v, if cond then Exp(e.k, e.t + list, e.f) else Exp(e.k, e.t, e.f + list))
  {
    hide StateOk, Pending, BaseReg, TrueConstant, KindOk;
    FrameTrans(s, u, v);
    FrameK(s, u, []);
    ExpParts(v, e);
    ListsParts(v, e.t, e.f);
    PendingStays(u, v, list);
    PendingBelow(u.code, list);
    PendingJoin(v.code, e.t, list);
    PendingJoin(v.code, e.f, list);
  }

  lemma PendingBelow(code: seq<Instr>, list: seq<nat>)
    requires Pending(code, list)
    ensures forall j :: j in list ==> j < |code|
  {}

  lemma PendingStays(s: State, u: State, list: seq<nat>)
    requires Frame(s, u, []) && Pending(s.code, list) && Apart(list, s.jpc)
    ensures Pending(u.code, list) && Apart(list, u.jpc)
  {}

  /** Between the operands of a comparison: the first is an operand already. */
  ghost predicate OperandReady(s: State, u: State, e: Exp) {
    && StateOk(u) && Frame(s, u, []) && IsOperand(e) && OperandBelow(u, e.k, u.freereg)
    && BaseBelow(u.nactvar, e.k, u.freereg) == s.freereg
  }

  lemma BuiltOperand(s: State, u: State, e: Exp)
    requires Built(s, u, e)
    ensures OperandReady(s, Exp2RK(u, e).0, Exp2RK(u, e).1)
  {
    hide StateOk, Exp2RK;
    Exp2RKOk(u, e);
    FrameDone(s, u, Exp2RK(u, e).0, e.t + e.f);
  }

  lemma BuiltComp(s: State, u: State, e1: Exp, v: State, op: Cmp, e2: Exp)
    requires OperandReady(s, u, e1) && Built(u, v, e2)
    ensures OperandBelow(v, e1.k, BaseReg(v, e2.k)) && v.nactvar <= BaseReg(v, e2.k)
    ensures Built(s, CodeComp(v, op, e1.k, e2).0, CodeComp(v, op, e1.k, e2).1)
  {
    hide StateOk, CodeComp, BaseReg, Built, Frame, OperandBelow;
    StateNact(u);
    BuiltParts(u, v, e2);
    BelowStays(u, v, e1.k, u.freereg);
    BuiltLists(u, v, e2);
    CodeCompOk(v, op, e1.k, e2);
    FrameDone(u, v, CodeComp(v, op, e1.k, e2).0, e2.t + e2.f);
    FrameTrans(s, u, CodeComp(v, op, e1.k, e2).0);
    BuiltJump(s, CodeComp(v, op, e1.k, e2).0, CodeComp(v, op, e1.k, e2).1);
  }

  lemma BuiltLists(s: State, u: State, e: Exp)
    requires Built(s, u, e)
    ensures forall j :: j in e.t || j in e.f ==> j >= |s.code| || j in s.jpc
  {}

  lemma BuiltJump(s: State, u: State, e: Exp)
    requires StateOk(u) && ExpOk(u, e) && Frame(s, u, []) && BaseReg(u, e.k) == s.freereg && e.k.VJmp? && !HasJumps(e)
    ensures Built(s, u, e)
  {}

  lemma BuiltPlain(s: State, k: Kind)
    requires StateOk(s) && !k.VNonReloc? && !k.VReloc? && !k.VJmp? && !k.VK? && (k.VLocal? ==> k.r < s.nactvar)
    ensures Built(s, s, Exp(k, [], []))
  {
    FrameSelf(s);
  }

  lemma BuiltString(s: State, v: Value)
    requires StateOk(s) && !IsFalse(v)
    ensures Built(s, AddK(s, v), Exp(VK(IndexOf(s.k, v)), [], []))
  {
    AddKOk(s, v);
  }

  lemma {:induction false} CompileBuilds(s: State, x: Expr)
    requires StateOk(s) && InScope(x, s.nactvar)
    ensures Built(s, Compile(s, x).s, Compile(s, x).e)
    decreases x
  {
    hide StateOk, Built, Halfway, OperandReady, GoIfTrue, GoIfFalse, Exp2RK, CodeComp, CodeNot, AddK, DischargeVars;
    match x
    case NilE => BuiltPlain(s, VNil);
    case TrueE => BuiltPlain(s, VTrue);
    case FalseE => BuiltPlain(s, VFalse);
    case Num(n) => BuiltPlain(s, VKNum(n));
    case Str(t) => BuiltString(s, Text(t));
    case Local(r) => BuiltPlain(s, VLocal(r));
    case Upval(u) => BuiltPlain(s, VUpval(u));
    case Paren(y) =>
      CompileBuilds(s, y);
      BuiltVars(s, Compile(s, y).s, Compile(s, y).e);
    case Not(y) =>
      CompileBuilds(s, y);
      BuiltNot(s, Compile(s, y).s, Compile(s, y).e);
    case And(l, y) =>
      CompileBuilds(s, l);
      var c := Compile(s, l);
      BuiltGoIf(s, c.s, c.e, false);
      var (s1, list) := GoIfTrue(c.s, c.e);
      HalfwayParts(s, s1, list);
      CompileBuilds(s1, y);
      var d := Compile(s1, y);
      BuiltVars(s1, d.s, d.e);
      BuiltJoin(s, s1, list, DischargeVars(d.s, d.e).0, DischargeVars(d.s, d.e).1, false);
    case Or(l, y) =>
      CompileBuilds(s, l);
      var c := Compile(s, l);
      BuiltGoIf(s, c.s, c.e, true);
      var (s1, list) := GoIfFalse(c.s, c.e);
      HalfwayParts(s, s1, list);
      CompileBuilds(s1, y);
      var d := Compile(s1, y);
      BuiltVars(s1, d.s, d.e);
      BuiltJoin(s, s1, list, DischargeVars(d.s, d.e).0, DischargeVars(d.s, d.e).1, true);
    case Compar(op, l, y) =>
      CompileBuilds(s, l);
      var c := Compile(s, l);
      BuiltOperand(s, c.s, c.e);
      var (s1, e1) := Exp2RK(c.s, c.e);
      OperandParts(s, s1, e1);
      CompileBuilds(s1, y);
      var d := Compile(s1, y);
      BuiltComp(s, s1, e1, d.s, op, d.e);
  }

  lemma HalfwayParts(s: State, u: State, list: seq<nat>)
    requires Halfway(s, u, list)
    ensures StateOk(u) && Frame(s, u, []) && u.nactvar == s.nactvar && u.freereg == s.freereg
  {}

  lemma OperandParts(s: State, u: State, e: Exp)
    requires OperandReady(s, u, e)
    ensures StateOk(u) && Frame(s, u, []) && u.nactvar == s.nactvar
  {}

  lemma BuiltParts(s: State, u: State, e: Exp)
    requires Built(s, u, e)
    ensures StateOk(u) && ExpOk(u, e) && Frame(s, u, []) && BaseReg(u, e.k) == s.freereg && TrueConstant(u, e.k)
    ensures s.k <= u.k && |s.code| <= |u.code| && u.nactvar == s.nactvar
  {}

  // ---------- Meaning ----------

  /** Whenever a run of the code before the expression arrives with registers r0, the run of the
      code with it ends in the expression, the registers in use unchanged: with the value at the
      end of the code, or in the list for values that are true or false like it.  A jump brings the
      value along, but one that a bare jump has taken over only stands for the boolean. */
  ghost predicate Means(m: Machine, s: State, u: State, e: Exp, adopted: set<nat>, x: Expr, pc: nat, r: Regs) {
    && pc <= |s.code| && pc <= |u.code|
    && var p := Run(m, u, pc, r);
       match Run(m, s, pc, r)
       case Here(r0) =>
         var v := Eval(m, x, r0);
         && Mine(e, p) && Agree(s.freereg, r0, OutRegs(p))
         && (p.Here? ==> KindValue(m, e.k, p.r) == v)
         && (p.Exit? ==> (p.jump in e.t <==> !IsFalse(v)) && (p.jump in e.f <==> IsFalse(v)) && Brings(p, adopted, p.jump in e.t, v))
       case o => p == o && !Mine(e, p)
  }

  lemma {:induction false} EvalAgree(m: Machine, x: Expr, n: nat, a: Regs, b: Regs)
    requires InScope(x, n) && Agree(n, a, b)
    ensures Eval(m, x, a) == Eval(m, x, b)
    decreases x
  {
    match x
    case Paren(y) => EvalAgree(m, y, n, a, b);
    case Not(y) => EvalAgree(m, y, n, a, b);
    case And(l, y) => EvalAgree(m, l, n, a, b); EvalAgree(m, y, n, a, b);
    case Or(l, y) => EvalAgree(m, l, n, a, b); EvalAgree(m, y, n, a, b);
    case Compar(op, l, y) => EvalAgree(m, l, n, a, b); EvalAgree(m, y, n, a, b);
    case _ =>
  }

  lemma AgreeTrans(n: int, k: int, a: Regs, b: Regs, c: Regs)
    requires Agree(n, a, b) && Agree(k, b, c) && n <= k
    ensures Agree(n, a, c)
  {}

  /** Exits of the code before the expression are none of its own. */
  lemma NotMine(m: Machine, s: State, u: State, e: Exp, pc: nat, r: Regs)
    requires StateOk(s) && Built(s, u, e) && Free(s.code, pc)
    ensures Run(m, s, pc, r).Exit? ==>
              !Mine(e, Run(m, s, pc, r)) && Run(m, s, pc, r).jump < |s.code| && Run(m, s, pc, r).jump !in s.jpc
  {
    ExitKept(m, s, pc, r);
  }

  /** The start of an expression: nothing has run yet. */
  lemma MeansPlain(m: Machine, s: State, u: State, k: Kind, x: Expr, pc: nat, r: Regs)
    requires pc <= |s.code| && u == s.(k := u.k)
    requires forall q :: KindValue(m, k, q) == Eval(m, x, q)
    ensures Means(m, s, u, Exp(k, [], []), {}, x, pc, r)
  {
    assert Run(m, u, pc, r) == Run(m, s, pc, r);
  }

  lemma MeansVars(m: Machine, s: State, u: State, e: Exp, adopted: set<nat>, x: Expr, pc: nat, r: Regs)
    requires Built(s, u, e) && Means(m, s, u, e, adopted, x, pc, r) && Entry(s, pc)
    ensures Means(m, s, DischargeVars(u, e).0, DischargeVars(u, e).1, adopted, x, pc, r)
  {
    hide StateOk, Frame, ExpOk, DischargeVars, Run, KindValue;
    EntryStays(s, u, [], pc);
    EntryFree(u, pc);
    DischargeVarsOk(u, e);
    DischargeVarsRun(m, u, e, pc, r);
  }

  lemma MeansNot(m: Machine, s: State, u: State, e: Exp, adopted: set<nat>, x: Expr, pc: nat, r: Regs)
    requires Built(s, u, e) && Means(m, s, u, e, adopted, x, pc, r) && Entry(s, pc) && FreshRegs(s, r)
    requires CodeNot(u, e).0.k <= m.k
    ensures Means(m, s, CodeNot(u, e).0, CodeNot(u, e).1, adopted, Not(x), pc, r)
  {
    hide StateOk, Frame, ExpOk, CodeNot, Run, KindValue, FreshRegs, TrueConstant;
    EntryStays(s, u, [], pc);
    BuiltParts(s, u, e);
    FreshStays(s, u, r);
    CodeNotOk(u, e);
    CodeNotRun(m, u, e, pc, r);
    var p := Run(m, u, pc, r);
    if Run(m, s, pc, r).Here? {
      AgreeTrans(s.freereg, BaseReg(u, e.k), Run(m, s, pc, r).r, OutRegs(p), OutRegs(Run(m, CodeNot(u, e).0, pc, r)));
    }
  }

  /** After the first operand of `and' or `or' a run goes on only when the second one counts. */
  ghost predicate Goes(m: Machine, s: State, u: State, list: seq<nat>, adopted: set<nat>, l: Expr, cond: bool, pc: nat, r: Regs) {
    && pc <= |s.code| && pc <= |u.code|
    && var p := Run(m, u, pc, r);
       match Run(m, s, pc, r)
       case Here(r0) =>
         var v := Eval(m, l, r0);
         && Agree(s.freereg, r0, OutRegs(p))
         && if IsFalse(v) != cond then p.Exit? && p.jump in list && Brings(p, adopted, cond, v) else p.Here?
       case o => p == o && (o.Exit? ==> o.jump !in list)
  }

  lemma MeansGoIf(m: Machine, s: State, u: State, e: Exp, adopted: set<nat>, l: Expr, cond: bool, pc: nat, r: Regs)
    requires StateOk(s) && Built(s, u, e) && Means(m, s, u, e, adopted, l, pc, r) && Entry(s, pc) && FreshRegs(s, r)
    requires (if cond then GoIfFalse(u, e) else GoIfTrue(u, e)).0.k <= m.k
    ensures var (v, list) := if cond then GoIfFalse(u, e) else GoIfTrue(u, e);
            Goes(m, s, v, list, adopted + TakenOver(u, e.k, cond), l, cond, pc, r)
  {
    hide StateOk, Frame, ExpOk, GoIfTrue, GoIfFalse, Run, KindValue, FreshRegs, TrueConstant, Entry, TakenOver;
    EntryStays(s, u, [], pc);
    EntryFree(s, pc);
    BuiltParts(s, u, e);
    FreshStays(s, u, r);
    GoIfRun(m, u, e, cond, pc, r);
    NotMine(m, s, u, e, pc, r);
    BuiltGoIf(s, u, e, cond);
    var (v, list) := if cond then GoIfFalse(u, e) else GoIfTrue(u, e);
    NotListed(s, v, list);
    hide *;
    MeansTurn(m, s, u, e, v, list, adopted, l, cond, pc, r);
  }

  lemma NotListed(s: State, v: State, list: seq<nat>)
    requires Halfway(s, v, list)
    ensures forall j :: j < |s.code| && j !in s.jpc ==> j !in list
  {}

  lemma MeansTurn(m: Machine, s: State, u: State, e: Exp, v: State, list: seq<nat>, adopted: set<nat>, l: Expr, cond: bool,
                  pc: nat, r: Regs)
    requires Means(m, s, u, e, adopted, l, pc, r) && Decides(m, u, e, v, list, cond, pc, r) && BaseReg(u, e.k) == s.freereg
    requires Run(m, s, pc, r).Exit? ==> Run(m, s, pc, r).jump !in list
    ensures Goes(m, s, v, list, adopted + TakenOver(u, e.k, cond), l, cond, pc, r)
  {
    hide Run, KindValue, Eval, BaseReg, TakenOver;
    var o, p := Run(m, s, pc, r), Run(m, u, pc, r);
    if o.Here? && p.Here? {
      AgreeTrans(s.freereg, s.freereg, o.r, p.r, OutRegs(Run(m, v, pc, r)));
    }
  }

  /** The second operand, whose lists take in the jumps of the first. */
  lemma MeansJoin(m: Machine, s: State, u: State, list: seq<nat>, a: set<nat>, v: State, e: Exp, b: set<nat>, l: Expr, y: Expr,
                  cond: bool, pc: nat, r: Regs)
    requires Halfway(s, u, list) && Built(u, v, e) && InScope(y, s.nactvar) && s.nactvar <= s.freereg
    requires Goes(m, s, u, list, a, l, cond, pc, r) && Means(m, u, v, e, b, y, pc, r)
    ensures Means(m, s, v, if cond then Exp(e.k, e.t + list, e.f) else Exp(e.k, e.t, e.f + list), a + b,
                  if cond then Or(l, y) else And(l, y), pc, r)
  {
    hide StateOk, Frame, ExpOk, Run, KindValue, Halfway, Built, Pending, BaseReg, TrueConstant;
    JoinParts(s, u, list, v, e);
    var o, p, q := Run(m, s, pc, r), Run(m, u, pc, r), Run(m, v, pc, r);
    if o.Here? && p.Here? {
      AgreeLess(s.nactvar, s.freereg, o.r, p.r);
      EvalAgree(m, y, s.nactvar, o.r, p.r);
      AgreeTrans(s.freereg, u.freereg, o.r, p.r, OutRegs(q));
    }
  }

  /** The lists of the second operand are behind those of the first. */
  lemma JoinParts(s: State, u: State, list: seq<nat>, v: State, e: Exp)
    requires Halfway(s, u, list) && Built(u, v, e)
    ensures u.freereg == s.freereg && forall j :: j in list ==> j !in e.t && j !in e.f
  {
    PendingBelow(u.code, list);
  }

  lemma AgreeLess(k: int, n: int, a: Regs, b: Regs)
    requires Agree(n, a, b) && k <= n
    ensures Agree(k, a, b)
  {}

  /** After the first operand of a comparison its value is at hand. */
  ghost predicate AtHand(m: Machine, s: State, u: State, k: Kind, l: Expr, pc: nat, r: Regs) {
    && pc <= |s.code| && pc <= |u.code|
    && var p := Run(m, u, pc, r);
       match Run(m, s, pc, r)
       case Here(r0) => p.Here? && KindValue(m, k, p.r) == Eval(m, l, r0) && Agree(s.freereg, r0, p.r)
       case o => p == o
  }

  /** The expression is worth its value on every way out. */
  ghost predicate Yields(m: Machine, s: State, u: State, e: Exp, x: Expr, pc: nat, r: Regs) {
    && pc <= |s.code| && pc <= |u.code|
    && var p := Run(m, u, pc, r);
       match Run(m, s, pc, r)
       case Here(r0) => RightList(m, e, p) && ValueOf(m, e, p) == Eval(m, x, r0) && Agree(s.freereg, r0, OutRegs(p))
       case o => p == o && !Mine(e, p)
  }

  /** No jump that a bare jump has taken over is left in the lists with a value. */
  ghost predicate NoneLeft(code: seq<Instr>, e: Exp, adopted: set<nat>) {
    forall j :: (j in e.t || j in e.f) && j in adopted ==> !KeepsValue(code, j)
  }

  lemma MeansYields(m: Machine, s: State, u: State, e: Exp, adopted: set<nat>, x: Expr, pc: nat, r: Regs)
    requires Built(s, u, e) && Means(m, s, u, e, adopted, x, pc, r) && NoneLeft(u.code, e, adopted) && Entry(s, pc)
    ensures Yields(m, s, u, e, x, pc, r)
  {
    EntryStays(s, u, [], pc);
    EntryFree(u, pc);
    OneList(u, e);
    StateParts(u);
    hide StateOk, ExpOk, Frame, KindValue, Entry, KeepsValue;
    ExitIs(m, u.code, pc, r);
    hide Exec;
  }

  lemma StateParts(s: State)
    requires StateOk(s)
    ensures CodeOk(s.code)
  {}

  lemma MeansOperand(m: Machine, s: State, c: State, e: Exp, l: Expr, pc: nat, r: Regs)
    requires StateOk(s) && Built(s, c, e) && Entry(s, pc) && FreshRegs(s, r) && Yields(m, s, c, e, l, pc, r)
    requires Exp2RK(c, e).0.k <= m.k
    ensures AtHand(m, s, Exp2RK(c, e).0, Exp2RK(c, e).1.k, l, pc, r)
  {
    hide StateOk, Frame, ExpOk, Run, KindValue, Exp2RK, Built, FreshRegs, Entry, BaseReg;
    BuiltParts(s, c, e);
    EntryStays(s, c, [], pc);
    FreshStays(s, c, r);
    Exp2RKRun(m, c, e, pc, r);
    var o, p := Run(m, s, pc, r), Run(m, c, pc, r);
    if o.Here? {
      AgreeTrans(s.freereg, BaseReg(c, e.k), o.r, OutRegs(p), OutRegs(Run(m, Exp2RK(c, e).0, pc, r)));
    }
  }

  /** Both operands at hand, the comparison compares their values. */
  lemma MeansComp(m: Machine, s: State, u: State, k1: Kind, v: State, e2: Exp, op: Cmp, l: Expr, y: Expr, pc: nat, r: Regs)
    requires StateOk(u) && Built(u, v, e2) && InScope(y, s.nactvar) && s.nactvar <= s.freereg <= u.freereg
    requires Entry(u, pc) && FreshRegs(u, r) && AtHand(m, s, u, k1, l, pc, r) && Yields(m, u, v, e2, y, pc, r)
    requires OperandBelow(u, k1, u.freereg) && u.nactvar <= u.freereg && CodeComp(v, op, k1, e2).0.k <= m.k
    ensures Means(m, s, CodeComp(v, op, k1, e2).0, CodeComp(v, op, k1, e2).1, {}, Compar(op, l, y), pc, r)
  {
    hide StateOk, Frame, ExpOk, Run, KindValue, CodeComp, Built, FreshRegs, Entry, OperandBelow, BaseReg, CompareValues;
    BuiltParts(u, v, e2);
    EntryStays(u, v, [], pc);
    FreshStays(u, v, r);
    BelowStays(u, v, k1, u.freereg);
    CodeCompRun(m, v, op, k1, e2, pc, r);
    CodeCompOk(v, op, k1, e2);
    var w := CodeComp(v, op, k1, e2).0;
    var o, p, q, t := Run(m, s, pc, r), Run(m, u, pc, r), Run(m, v, pc, r), Run(m, w, pc, r);
    if o.Here? {
      AgreeLess(s.nactvar, s.freereg, o.r, p.r);
      EvalAgree(m, y, s.nactvar, o.r, p.r);
      OperandSame(m, u, k1, u.freereg, p.r, OutRegs(q));
      AgreeTrans(s.freereg, u.freereg, o.r, p.r, OutRegs(q));
      AgreeTrans(s.freereg, u.freereg, o.r, OutRegs(q), OutRegs(t));
    }
  }

  lemma BelowStays(u: State, v: State, k: Kind, base: nat)
    requires OperandBelow(u, k, base) && u.k <= v.k && u.nactvar == v.nactvar
    ensures OperandBelow(v, k, base)
  {}

  lemma OperandRegs(s: State, u: State, e: Exp)
    requires OperandReady(s, u, e)
    ensures OperandBelow(u, e.k, u.freereg) && s.freereg <= u.freereg && s.nactvar == u.nactvar
  {}

  // ---------- Jumps taken over ----------

  /** The jumps that the bare jumps of an expression have taken over and that its lists may hold. */
  ghost function Adopted(s: State, x: Expr): set<nat>
    decreases x
  {
    match x
    case Paren(y) => Adopted(s, y)
    case Not(y) => Adopted(s, y)
    case And(l, y) =>
      var c := Compile(s, l);
      Adopted(s, l) + TakenOver(c.s, c.e.k, false) + Adopted(GoIfTrue(c.s, c.e).0, y)
    case Or(l, y) =>
      var c := Compile(s, l);
      Adopted(s, l) + TakenOver(c.s, c.e.k, true) + Adopted(GoIfFalse(c.s, c.e).0, y)
    case _ => {}
  }

  /** Where the lists of the expression are closed, every jump in them that was taken over has
      lost its value, or never had one; and so in the operands of its comparisons. */
  ghost predicate Settled(s: State, x: Expr)
    decreases x, 1
  {
    OperandsSettled(s, x) && NoneLeft(Compile(s, x).s.code, Compile(s, x).e, Adopted(s, x))
  }

  ghost predicate OperandsSettled(s: State, x: Expr)
    decreases x, 0
  {
    match x
    case Paren(y) => OperandsSettled(s, y)
    case Not(y) => OperandsSettled(s, y)
    case And(l, y) => OperandsSettled(s, l) && OperandsSettled(GoIfTrue(Compile(s, l).s, Compile(s, l).e).0, y)
    case Or(l, y) => OperandsSettled(s, l) && OperandsSettled(GoIfFalse(Compile(s, l).s, Compile(s, l).e).0, y)
    case Compar(op, l, y) => Settled(s, l) && Settled(Exp2RK(Compile(s, l).s, Compile(s, l).e).0, y)
    case _ => true
  }

  // ---------- The theorems ----------

  lemma {:induction false} CompileMeans(m: Machine, s: State, x: Expr, pc: nat, r: Regs)
    requires StateOk(s) && InScope(x, s.nactvar) && OperandsSettled(s, x)
    requires Entry(s, pc) && FreshRegs(s, r) && Compile(s, x).s.k <= m.k
    ensures Means(m, s, Compile(s, x).s, Compile(s, x).e, Adopted(s, x), x, pc, r)
    decreases x, 1
  {
    hide StateOk, Built, Means, Entry, FreshRegs, GoIfTrue, GoIfFalse, Exp2RK, CodeComp, CodeNot, AddK, DischargeVars;
    EntryFree(s, pc);
    StateNact(s);
    match x
    case NilE => MeansPlain(m, s, s, VNil, x, pc, r);
    case TrueE => MeansPlain(m, s, s, VTrue, x, pc, r);
    case FalseE => MeansPlain(m, s, s, VFalse, x, pc, r);
    case Num(n) => MeansPlain(m, s, s, VKNum(n), x, pc, r);
    case Str(t) => MeansString(m, s, t, pc, r);
    case Local(i) => MeansPlain(m, s, s, VLocal(i), x, pc, r);
    case Upval(u) => MeansPlain(m, s, s, VUpval(u), x, pc, r);
    case Paren(y) => MeansParen(m, s, y, pc, r);
    case Not(y) => MeansNegated(m, s, y, pc, r);
    case And(l, y) => MeansLogic(m, s, l, y, false, pc, r);
    case Or(l, y) => MeansLogic(m, s, l, y, true, pc, r);
    case Compar(op, l, y) => MeansCompared(m, s, op, l, y, pc, r);
  }

  /** Compiled with its lists settled, an expression is worth its value on every way out. */
  lemma {:induction false} CompileYields(m: Machine, s: State, x: Expr, pc: nat, r: Regs)
    requires StateOk(s) && InScope(x, s.nactvar) && Settled(s, x)
    requires Entry(s, pc) && FreshRegs(s, r) && Compile(s, x).s.k <= m.k
    ensures Yields(m, s, Compile(s, x).s, Compile(s, x).e, x, pc, r)
    decreases x, 2
  {
    hide StateOk, Built, Means, Yields, Entry, FreshRegs, Compile, Adopted, OperandsSettled, NoneLeft;
    CompileMeans(m, s, x, pc, r);
    CompileBuilds(s, x);
    MeansYields(m, s, Compile(s, x).s, Compile(s, x).e, Adopted(s, x), x, pc, r);
  }

  lemma MeansString(m: Machine, s: State, t: string, pc: nat, r: Regs)
    requires StateOk(s) && pc <= |s.code| && AddK(s, Text(t)).k <= m.k
    ensures Means(m, s, AddK(s, Text(t)), Exp(VK(IndexOf(s.k, Text(t))), [], []), {}, Str(t), pc, r)
  {
    AddKOk(s, Text(t));
    hide AddK;
    MeansPlain(m, s, AddK(s, Text(t)), VK(IndexOf(s.k, Text(t))), Str(t), pc, r);
  }

  lemma VarsK(s: State, e: Exp)
    ensures DischargeVars(s, e).0.k == s.k
  {}

  lemma {:induction false} MeansParen(m: Machine, s: State, y: Expr, pc: nat, r: Regs)
    requires StateOk(s) && InScope(y, s.nactvar) && OperandsSettled(s, y)
    requires Entry(s, pc) && FreshRegs(s, r) && Compile(s, Paren(y)).s.k <= m.k
    ensures Means(m, s, Compile(s, Paren(y)).s, Compile(s, Paren(y)).e, Adopted(s, y), Paren(y), pc, r)
    decreases Paren(y), 0
  {
    hide StateOk, Built, Means, Entry, FreshRegs, DischargeVars;
    var c := Compile(s, y);
    VarsK(c.s, c.e);
    CompileBuilds(s, y);
    CompileMeans(m, s, y, pc, r);
    MeansVars(m, s, c.s, c.e, Adopted(s, y), y, pc, r);
    MeansSame(m, s, DischargeVars(c.s, c.e).0, DischargeVars(c.s, c.e).1, Adopted(s, y), y, Paren(y), pc, r);
  }

  lemma MeansSame(m: Machine, s: State, u: State, e: Exp, adopted: set<nat>, x: Expr, y: Expr, pc: nat, r: Regs)
    requires Means(m, s, u, e, adopted, x, pc, r) && forall q :: Eval(m, x, q) == Eval(m, y, q)
    ensures Means(m, s, u, e, adopted, y, pc, r)
  {}

  lemma {:induction false} MeansNegated(m: Machine, s: State, y: Expr, pc: nat, r: Regs)
    requires StateOk(s) && InScope(y, s.nactvar) && OperandsSettled(s, y)
    requires Entry(s, pc) && FreshRegs(s, r) && Compile(s, Not(y)).s.k <= m.k
    ensures Means(m, s, Compile(s, Not(y)).s, Compile(s, Not(y)).e, Adopted(s, y), Not(y), pc, r)
    decreases Not(y), 0
  {
    hide StateOk, Built, Means, Entry, FreshRegs, CodeNot, ExpOk;
    var c := Compile(s, y);
    CompileBuilds(s, y);
    BuiltParts(s, c.s, c.e);
    CodeNotOk(c.s, c.e);
    FrameK(c.s, CodeNot(c.s, c.e).0, []);
    CompileMeans(m, s, y, pc, r);
    MeansNot(m, s, c.s, c.e, Adopted(s, y), y, pc, r);
  }

  lemma {:induction false} MeansLogic(m: Machine, s: State, l: Expr, y: Expr, cond: bool, pc: nat, r: Regs)
    requires var x := if cond then Or(l, y) else And(l, y);
      StateOk(s) && InScope(x, s.nactvar) && OperandsSettled(s, x) && Compile(s, x).s.k <= m.k
    requires Entry(s, pc) && FreshRegs(s, r)
    ensures var x := if cond then Or(l, y) else And(l, y);
      Means(m, s, Compile(s, x).s, Compile(s, x).e, Adopted(s, x), x, pc, r)
    decreases if cond then Or(l, y) else And(l, y), 0
  {
    hide StateOk, Built, Means, Halfway, Goes, Entry, FreshRegs, GoIfTrue, GoIfFalse, DischargeVars, Frame, TakenOver;
    var c := Compile(s, l);
    StateNact(s);
    CompileBuilds(s, l);
    BuiltGoIf(s, c.s, c.e, cond);
    var (s1, list) := if cond then GoIfFalse(c.s, c.e) else GoIfTrue(c.s, c.e);
    HalfwayParts(s, s1, list);
    CompileBuilds(s1, y);
    var d := Compile(s1, y);
    BuiltParts(s, c.s, c.e);
    BuiltParts(s1, d.s, d.e);
    VarsK(d.s, d.e);
    GoIfK(c.s, c.e, cond);
    CompileMeans(m, s, l, pc, r);
    MeansGoIf(m, s, c.s, c.e, Adopted(s, l), l, cond, pc, r);
    EntryStays(s, s1, [], pc);
    FrameK(s, s1, []);
    FreshStays(s, s1, r);
    CompileMeans(m, s1, y, pc, r);
    MeansVars(m, s1, d.s, d.e, Adopted(s1, y), y, pc, r);
    BuiltVars(s1, d.s, d.e);
    MeansJoin(m, s, s1, list, Adopted(s, l) + TakenOver(c.s, c.e.k, cond), DischargeVars(d.s, d.e).0, DischargeVars(d.s, d.e).1,
              Adopted(s1, y), l, y, cond, pc, r);
  }

  lemma GoIfK(s: State, e: Exp, cond: bool)
    requires StateOk(s) && ExpOk(s, e)
    ensures s.k <= (if cond then GoIfFalse(s, e) else GoIfTrue(s, e)).0.k
  {
    hide StateOk, ExpOk, GoIfTrue, GoIfFalse, Frame;
    GoIfOk(s, e, cond);
    FrameK(s, (if cond then GoIfFalse(s, e) else GoIfTrue(s, e)).0, e.t + e.f);
  }

  lemma {:induction false} MeansCompared(m: Machine, s: State, op: Cmp, l: Expr, y: Expr, pc: nat, r: Regs)
    requires StateOk(s) && InScope(Compar(op, l, y), s.nactvar) && OperandsSettled(s, Compar(op, l, y))
    requires Entry(s, pc) && FreshRegs(s, r) && Compile(s, Compar(op, l, y)).s.k <= m.k
    ensures Means(m, s, Compile(s, Compar(op, l, y)).s, Compile(s, Compar(op, l, y)).e, {}, Compar(op, l, y), pc, r)
    decreases Compar(op, l, y), 0
  {
    hide StateOk, Built, Means, Yields, AtHand, OperandReady, Entry, FreshRegs, Exp2RK, CodeComp, Frame, ExpOk, OperandBelow, Settled;
    var c := Compile(s, l);
    StateNact(s);
    CompileBuilds(s, l);
    BuiltParts(s, c.s, c.e);
    BuiltOperand(s, c.s, c.e);
    var (s1, e1) := Exp2RK(c.s, c.e);
    OperandParts(s, s1, e1);
    OperandRegs(s, s1, e1);
    Exp2RKOk(c.s, c.e);
    FrameK(c.s, s1, c.e.t + c.e.f);
    CompileBuilds(s1, y);
    var d := Compile(s1, y);
    BuiltParts(s1, d.s, d.e);
    BuiltComp(s, s1, e1, d.s, op, d.e);
    CodeCompOk(d.s, op, e1.k, d.e);
    FrameK(d.s, CodeComp(d.s, op, e1.k, d.e).0, d.e.t + d.e.f);
    CompileYields(m, s, l, pc, r);
    MeansOperand(m, s, c.s, c.e, l, pc, r);
    EntryStays(s, s1, [], pc);
    FreshStays(s, s1, r);
    CompileYields(m, s1, y, pc, r);
    MeansComp(m, s, s1, e1.k, d.s, d.e, op, l, y, pc, r);
  }

  ghost predicate AgreeBut(n: int, k: int, a: Regs, b: Regs) {
    forall i: int :: i < n && i != k ==> Get(a, i) == Get(b, i)
  }

  /** Whatever arrives at the expression arrives behind its code with the value in the
      register and every other register in use unchanged. */
  ghost predicate Computes(m: Machine, s: State, u: State, reg: nat, x: Expr, pc: nat, r: Regs) {
    && pc <= |s.code| && pc <= |u.code|
    && var o, p := Run(m, s, pc, r), Run(m, u, pc, r);
       if o.Here? then
         p.Here? && Get(p.r, reg) == Eval(m, x, o.r) && AgreeBut(s.freereg, reg, o.r, p.r)
       else p == o
  }

  /** The code goes on when the value is true and leaves through the list when it is not. */
  ghost predicate Selects(m: Machine, s: State, u: State, list: seq<nat>, x: Expr, pc: nat, r: Regs) {
    && pc <= |s.code| && pc <= |u.code|
    && var o, p := Run(m, s, pc, r), Run(m, u, pc, r);
       if o.Here? then
         if IsFalse(Eval(m, x, o.r)) then p.Exit? && p.jump in list && Agree(s.freereg, o.r, p.r)
         else p.Here? && Agree(s.freereg, o.r, p.r)
       else p == o
  }

  /** luaK_exp2nextreg on a parsed expression: the value is in the first free register. */
  lemma ValueInRegister(m: Machine, s: State, x: Expr, pc: nat, r: Regs)
    requires StateOk(s) && InScope(x, s.nactvar) && Settled(s, x) && Entry(s, pc) && FreshRegs(s, r)
    requires Exp2NextReg(Compile(s, x).s, Compile(s, x).e).0.k <= m.k
    ensures var (u, e) := Exp2NextReg(Compile(s, x).s, Compile(s, x).e);
      && StateOk(u) && e == Exp(VNonReloc(s.freereg), [], []) && u.freereg == s.freereg + 1
      && Computes(m, s, u, s.freereg, x, pc, r)
  {
    hide StateOk, Built, Settled, Entry, FreshRegs, Exp2NextReg, ExpOk, Frame, Run, Compile, Eval;
    var c := Compile(s, x);
    CompileBuilds(s, x);
    BuiltParts(s, c.s, c.e);
    Exp2NextRegOk(c.s, c.e);
    FrameK(c.s, Exp2NextReg(c.s, c.e).0, c.e.t + c.e.f);
    CompileYields(m, s, x, pc, r);
    EntryStays(s, c.s, [], pc);
    FreshStays(s, c.s, r);
    Exp2NextRegRun(m, c.s, c.e, pc, r);
  }

  /** luaK_storevar into a local: the local gets the value. */
  lemma ValueInLocal(m: Machine, s: State, x: Expr, local: nat, pc: nat, r: Regs)
    requires StateOk(s) && InScope(x, s.nactvar) && Settled(s, x) && Entry(s, pc) && FreshRegs(s, r)
    requires local < s.nactvar
    requires StoreLocal(Compile(s, x).s, Compile(s, x).e, local).k <= m.k
    ensures var u := StoreLocal(Compile(s, x).s, Compile(s, x).e, local);
      u.freereg == s.freereg && Computes(m, s, u, local, x, pc, r)
  {
    hide StateOk, Built, Settled, Entry, FreshRegs, ExpOk, Frame, Run, Compile, Eval, DischargeVars, Exp2Reg, BaseReg;
    var c := Compile(s, x);
    CompileBuilds(s, x);
    BuiltParts(s, c.s, c.e);
    DischargeVarsOk(c.s, c.e);
    var (s1, e1) := DischargeVars(c.s, c.e);
    FreedIs(s1, e1.k);
    Exp2RegFreed(s1, e1, FreeExp(s1, e1.k).freereg, local);
    Exp2RegOk(s1, e1, local);
    FrameK(s1, Exp2Reg(s1, e1, local), e1.t + e1.f);
    CompileYields(m, s, x, pc, r);
    FrameTrans(s, c.s, s1);
    FrameK(s, s1, []);
    EntryStays(s, s1, [], pc);
    EntryStays(s, c.s, [], pc);
    EntryFree(c.s, pc);
    FreshStays(s, s1, r);
    DischargeVarsRun(m, c.s, c.e, pc, r);
    Exp2RegRun(m, s1, e1, local, pc, r);
    RegsRun(m, Exp2Reg(s1, e1, local), FreeExp(s1, e1.k).freereg, pc, r);
  }

  /** freeexp comes before exp2reg in luaK_storevar. */
  function StoreLocal(s: State, e: Exp, local: nat): State {
    var (s1, e1) := DischargeVars(s, e);
    Exp2Reg(FreeExp(s1, e1.k), e1, local)
  }

  lemma FreedIs(s: State, k: Kind)
    ensures FreeExp(s, k) == s.(freereg := BaseReg(s, k))
  {}

  lemma EmitFreed(s: State, n: nat, i: Instr)
    ensures Emit(s.(freereg := n), i) == Emit(s, i).(freereg := n)
    ensures CondJump(s.(freereg := n), i) == CondJump(s, i).(freereg := n)
  {
    hide Patch;
  }

  lemma LoadFreed(s: State, n: nat, k: Kind, reg: nat)
    ensures Load(s.(freereg := n), k, reg) == Load(s, k, reg).(freereg := n)
  {
    hide Emit, Patch, CondJump;
    match k
    case VNil => EmitFreed(s, n, LoadNil(reg, reg));
    case VTrue => EmitFreed(s, n, LoadBool(reg, true, false));
    case VFalse => EmitFreed(s, n, LoadBool(reg, false, false));
    case VK(i) => EmitFreed(s, n, LoadK(reg, i));
    case VKNum(v) => EmitFreed(AddK(s, Number(v)), n, LoadK(reg, IndexOf(s.k, Number(v))));
    case VReloc(op) => EmitFreed(s, n, Relocate(op, reg));
    case VNonReloc(r) => EmitFreed(s, n, Move(reg, r));
    case _ =>
  }

  lemma CloseFreed(s: State, n: nat, t: seq<nat>, f: seq<nat>, reg: nat, wasJump: bool)
    ensures CloseLists(s.(freereg := n), t, f, reg, wasJump) == CloseLists(s, t, f, reg, wasJump).(freereg := n)
  {
    hide Patch, NeedValue;
  }

  /** With a target given, exp2reg does not look at the free registers. */
  lemma Exp2RegFreed(s: State, e: Exp, n: nat, reg: nat)
    ensures Exp2Reg(s.(freereg := n), e, reg) == Exp2Reg(s, e, reg).(freereg := n)
  {
    hide CloseLists, Load, CondJump, Emit;
    if e.k.VJmp? {
      EmitFreed(s, n, TestInstr(e.k.test));
      CloseFreed(CondJump(s, TestInstr(e.k.test)), n, e.t + [|s.code| + 1], e.f, reg, true);
    } else {
      LoadFreed(s, n, e.k, reg);
      CloseFreed(Load(s, e.k, reg), n, e.t, e.f, reg, false);
    }
  }

  /** luaK_goiftrue on the condition of a statement: it goes on exactly when the value is true,
      whatever jumps its bare jumps have taken over. */
  lemma ConditionDecides(m: Machine, s: State, x: Expr, pc: nat, r: Regs)
    requires StateOk(s) && InScope(x, s.nactvar) && OperandsSettled(s, x) && Entry(s, pc) && FreshRegs(s, r)
    requires GoIfTrue(Compile(s, x).s, Compile(s, x).e).0.k <= m.k
    ensures var (u, list) := GoIfTrue(Compile(s, x).s, Compile(s, x).e);
      && StateOk(u) && u.freereg == s.freereg && Pending(u.code, list) && Apart(list, u.jpc)
      && Selects(m, s, u, list, x, pc, r)
  {
    hide StateOk, Built, Entry, FreshRegs, ExpOk, Frame, Run, Compile, Eval, GoIfTrue, BaseReg, OperandsSettled, Adopted, TakenOver;
    var c := Compile(s, x);
    CompileBuilds(s, x);
    BuiltParts(s, c.s, c.e);
    GoIfK(c.s, c.e, false);
    CompileMeans(m, s, x, pc, r);
    MeansGoIf(m, s, c.s, c.e, Adopted(s, x), x, false, pc, r);
    BuiltGoIf(s, c.s, c.e, false);
  }
}
