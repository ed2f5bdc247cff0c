/** What the operations on expressions do to the value an expression stands for. */
module CodeGenExp {
  import opened LuaVm
  import opened JumpPatch
  import opened CodeGen
  import opened CodeGenSteps
  import opened CodeGenLists

  // ---------- The value of an expression under construction ----------

  ghost predicate ExpOk(s: State, e: Exp) {
    KindOk(s, e.k) && ListsOk(s, e.t, e.f)
  }

  /** The run ends here or leaves through a jump of the expression. */
  predicate Mine(e: Exp, o: Outcome) {
    o.Here? || (o.Exit? && (o.jump in e.t || o.jump in e.f))
  }

  /** What the expression is worth when the run ends with o. */
  function ValueOf(m: Machine, e: Exp, o: Outcome): Value
    requires Mine(e, o)
  {
    if o.Here? then KindValue(m, e.k, o.r) else JumpValue(o.kept, o.jump in e.t)
  }

  /** Jumps of the true list leave with true values, those of the false list with false ones. */
  predicate RightList(m: Machine, e: Exp, o: Outcome) {
    Mine(e, o) && (o.Exit? ==> (o.jump in e.t <==> !IsFalse(ValueOf(m, e, o))))
  }

  ghost predicate Agree(n: int, a: Regs, b: Regs) {
    forall i: int :: i < n ==> Get(a, i) == Get(b, i)
  }

  /** The first register that is free once the expression's own one is given back. */
  function BaseReg(s: State, k: Kind): nat {
    if k.VNonReloc? && k.r >= s.nactvar && s.freereg > 0 then s.freereg - 1 else s.freereg
  }

  lemma FrameWide(s: State, u: State, v: State, a: seq<nat>, b: seq<nat>)
    requires Frame(s, u, []) && Frame(u, v, a) && forall j :: j in a ==> j in b || j >= |s.code|
    ensures Frame(s, v, b)
  {}

  lemma FrameThen(s: State, u: State, v: State, a: seq<nat>)
    requires Frame(s, u, a) && Frame(u, v, [])
    ensures Frame(s, v, a)
  {}

  // ---------- Registers ----------

  /** Giving registers out and back changes no code. */
  lemma RegsOnly(s: State, n: nat)
    requires StateOk(s) && s.nactvar <= n
    ensures StateOk(s.(freereg := n)) && Frame(s, s.(freereg := n), [])
  {}

  lemma RegsRun(m: Machine, s: State, n: nat, pc: nat, r: Regs)
    requires pc <= |s.code|
    ensures Run(m, s.(freereg := n), pc, r) == Run(m, s, pc, r)
  {}

  // ---------- luaK_dischargevars ----------

  lemma DischargeVarsOk(s: State, e: Exp)
    requires StateOk(s) && ExpOk(s, e)
    ensures var (u, e1) := DischargeVars(s, e);
      && StateOk(u) && Frame(s, u, []) && ExpOk(u, e1) && u.freereg == s.freereg && u.k == s.k && u.nactvar == s.nactvar
      && e1.t == e.t && e1.f == e.f && !e1.k.VLocal? && !e1.k.VUpval? && BaseReg(u, e1.k) == BaseReg(s, e.k)
      && |u.code| == |s.code|
  {
    if e.k.VUpval? {
      DischargeOk(s);
      ListsStay(s, Discharge(s), e.t, e.f, []);
    }
  }

  lemma DischargeVarsRun(m: Machine, s: State, e: Exp, pc: nat, r: Regs)
    requires StateOk(s) && ExpOk(s, e) && Free(s.code, pc)
    ensures var (u, e1) := DischargeVars(s, e);
      && Run(m, u, pc, r) == Run(m, s, pc, r)
      && (forall o :: Mine(e, o) ==> Mine(e1, o) && ValueOf(m, e1, o) == ValueOf(m, e, o))
  {
    if e.k.VUpval? {
      DischargeRun(m, s, pc, r);
    }
  }

  // ---------- exp2reg ----------

  lemma CloseIs(s: State, t: seq<nat>, f: seq<nat>, reg: nat, wasJump: bool)
    requires t != [] || f != []
    ensures var u := Ready(s, t, f, reg, wasJump);
            var need := NeedValue(s.code, t) || NeedValue(s.code, f);
            && (need ==> |u.code| >= 2)
            && CloseLists(s, t, f, reg, wasJump) ==
               Closed(u, t, f, reg, if need then |u.code| - 2 else |u.code|, if need then |u.code| - 1 else |u.code|)
  {}

  lemma CloseOk(s: State, t: seq<nat>, f: seq<nat>, reg: nat, wasJump: bool)
    requires StateOk(s) && ListsOk(s, t, f) && (wasJump ==> s.jpc == [])
    ensures StateOk(CloseLists(s, t, f, reg, wasJump)) && Frame(s, CloseLists(s, t, f, reg, wasJump), f + t)
    ensures CloseLists(s, t, f, reg, wasJump).freereg == s.freereg
  {
    hide StateOk, ListsOk, Frame, NeedValue, Ready, Closed, LoadsReady;
    if t != [] || f != [] {
      CloseIs(s, t, f, reg, wasJump);
      hide CloseLists;
      ReadyOk(s, t, f, reg, wasJump);
      var u := Ready(s, t, f, reg, wasJump);
      var need := NeedValue(s.code, t) || NeedValue(s.code, f);
      ClosedOk(u, t, f, reg, if need then |u.code| - 2 else |u.code|, if need then |u.code| - 1 else |u.code|);
      FrameFrom(s, u, CloseLists(s, t, f, reg, wasJump), f + t);
    } else {
      FrameEmpty(s, f + t);
    }
  }

  lemma FrameEmpty(s: State, done: seq<nat>)
    ensures Frame(s, s, done)
  {}

  lemma FrameFrom(s: State, u: State, v: State, a: seq<nat>)
    requires Frame(s, u, []) && Frame(u, v, a)
    ensures Frame(s, v, a)
  {}

  lemma CloseRun(m: Machine, s: State, t: seq<nat>, f: seq<nat>, reg: nat, wasJump: bool, pc: nat, r: Regs)
    requires StateOk(s) && ListsOk(s, t, f) && (wasJump ==> s.jpc == [] && NeedValue(s.code, t)) && Free(s.code, pc)
    ensures Run(m, CloseLists(s, t, f, reg, wasJump), pc, r) ==
            match Run(m, s, pc, r)
            case Here(r1) => Here(if wasJump then Set(r1, reg, Bool(false)) else r1)
            case Exit(j, kept, r1) =>
              if j in t || j in f then Here(Set(r1, reg, JumpValue(kept, j in t))) else Exit(j, kept, r1)
            case o => o
  {
    if t != [] || f != [] {
      hide StateOk, ListsOk, Closed, CloseLists, Set;
      CloseIs(s, t, f, reg, wasJump);
      ReadyOk(s, t, f, reg, wasJump);
      var u := Ready(s, t, f, reg, wasJump);
      var need := NeedValue(s.code, t) || NeedValue(s.code, f);
      ReadyRun(m, s, t, f, reg, wasJump, pc, r);
      assert Free(u.code, pc) by { FreeStays(s, u, pc); }
      hide Ready, Run, Frame, LoadsReady;
      ClosedRun(m, u, t, f, reg, if need then |u.code| - 2 else |u.code|, if need then |u.code| - 1 else |u.code|, pc, r);
    } else {
      hide StateOk, NeedValue;
      NeedNone(s.code);
    }
  }

  lemma NeedNone(code: seq<Instr>)
    ensures !NeedValue(code, [])
  {}

  lemma FreeStays(s: State, u: State, pc: nat)
    requires Frame(s, u, []) && Free(s.code, pc)
    ensures Free(u.code, pc)
  {}

  lemma ReadyRun(m: Machine, s: State, t: seq<nat>, f: seq<nat>, reg: nat, wasJump: bool, pc: nat, r: Regs)
    requires StateOk(s) && (wasJump ==> s.jpc == [] && NeedValue(s.code, t)) && Free(s.code, pc)
    ensures |s.code| <= |Ready(s, t, f, reg, wasJump).code|
    ensures Run(m, Ready(s, t, f, reg, wasJump), pc, r) ==
            match Run(m, s, pc, r)
            case Here(r1) => Here(if wasJump then Set(r1, reg, Bool(false)) else r1)
            case o => o
  {
    if NeedValue(s.code, t) || NeedValue(s.code, f) {
      OpenedRun(m, s, reg, wasJump, pc, r);
    }
  }

  /** An expression that is a jump gets the jump behind its comparison into its true list. */
  lemma JumpJoins(s: State, e: Exp)
    requires StateOk(s) && ExpOk(s, e) && e.k.VJmp?
    ensures var u := CondJump(s, TestInstr(e.k.test));
            var t := e.t + [|s.code| + 1];
            && StateOk(u) && Frame(s, u, []) && ListsOk(u, t, e.f) && NeedValue(u.code, t) && u.jpc == []
            && u.freereg == s.freereg
  {
    var u := CondJump(s, TestInstr(e.k.test));
    var t := e.t + [|s.code| + 1];
    CondJumpOk(s, TestInstr(e.k.test));
    ListsStay(s, u, e.t, e.f, []);
    assert u.code[|s.code|] == TestInstr(e.k.test);
    assert Pending(u.code, [|s.code| + 1]);
    assert forall j :: j in e.t || j in e.f ==> j < |s.code|;
    PendingJoin(u.code, e.t, [|s.code| + 1]);
    NeedIs(u.code, t, |s.code| + 1);
  }

  lemma Exp2RegOk(s: State, e: Exp, reg: nat)
    requires StateOk(s) && ExpOk(s, e)
    ensures StateOk(Exp2Reg(s, e, reg)) && Frame(s, Exp2Reg(s, e, reg), e.t + e.f)
    ensures Exp2Reg(s, e, reg).freereg == s.freereg
  {
    if e.k.VJmp? {
      var u := CondJump(s, TestInstr(e.k.test));
      var t := e.t + [|s.code| + 1];
      hide StateOk, CondJump, Frame, CloseLists;
      JumpJoins(s, e);
      CloseOk(u, t, e.f, reg, true);
      FrameWide(s, u, Exp2Reg(s, e, reg), e.f + t, e.t + e.f);
    } else {
      hide StateOk, Load, CloseLists;
      LoadOk(s, e.k, reg);
      var u := Load(s, e.k, reg);
      ListsStay(s, u, e.t, e.f, []);
      hide Frame;
      CloseOk(u, e.t, e.f, reg, false);
      FrameWide(s, u, Exp2Reg(s, e, reg), e.f + e.t, e.t + e.f);
    }
  }

  lemma ListsBelow(s: State, e: Exp)
    requires ExpOk(s, e)
    ensures forall j :: j in e.t || j in e.f ==> j < |s.code|
  {}

  lemma JumpToReg(m: Machine, s: State, e: Exp, reg: nat, pc: nat, r: Regs)
    requires StateOk(s) && ExpOk(s, e) && Entry(s, pc) && e.k.VJmp?
    ensures pc <= |s.code| && pc <= |Exp2Reg(s, e, reg).code|
    ensures var o := Run(m, s, pc, r);
            Run(m, Exp2Reg(s, e, reg), pc, r) == if Mine(e, o) then Here(Set(o.r, reg, ValueOf(m, e, o))) else o
  {
    hide StateOk, ExpOk, Frame, CondJump, CloseLists, Set, Free, Run, Entry, NeedValue, ListsOk;
    EntryFree(s, pc);
    ListsBelow(s, e);
    ExitKept(m, s, pc, r);
    var u := CondJump(s, TestInstr(e.k.test));
    var t := e.t + [|s.code| + 1];
    JumpJoins(s, e);
    CondJumpRun(m, s, TestInstr(e.k.test), pc, r);
    FreeStays(s, u, pc);
    CloseK(u, t, e.f, reg, true);
    CloseRun(m, u, t, e.f, reg, true, pc, r);
  }

  lemma LoadToReg(m: Machine, s: State, e: Exp, reg: nat, pc: nat, r: Regs)
    requires StateOk(s) && ExpOk(s, e) && Entry(s, pc) && FreshRegs(s, r)
    requires Loadable(e.k) && Exp2Reg(s, e, reg).k <= m.k
    ensures pc <= |s.code| && pc <= |Exp2Reg(s, e, reg).code|
    ensures var o := Run(m, s, pc, r);
            Run(m, Exp2Reg(s, e, reg), pc, r) == if Mine(e, o) then Here(Set(o.r, reg, ValueOf(m, e, o))) else o
  {
    EntryFree(s, pc);
    var u := Load(s, e.k, reg);
    LoadOk(s, e.k, reg);
    CloseK(u, e.t, e.f, reg, false);
    LoadRun(m, s, e.k, reg, pc, r);
    ListsStay(s, u, e.t, e.f, []);
    FreeStays(s, u, pc);
    hide StateOk, Frame, Load, CloseLists, Set, ListsOk, KindOk;
    CloseRun(m, u, e.t, e.f, reg, false, pc, r);
  }

  /** exp2reg puts the value into the register on every way out of the expression, and the
      code goes on behind it. */
  lemma Exp2RegRun(m: Machine, s: State, e: Exp, reg: nat, pc: nat, r: Regs)
    requires StateOk(s) && ExpOk(s, e) && Entry(s, pc) && FreshRegs(s, r)
    requires !e.k.VLocal? && !e.k.VUpval? && Exp2Reg(s, e, reg).k <= m.k
    ensures pc <= |s.code| && pc <= |Exp2Reg(s, e, reg).code|
    ensures var o := Run(m, s, pc, r);
            Run(m, Exp2Reg(s, e, reg), pc, r) == if Mine(e, o) then Here(Set(o.r, reg, ValueOf(m, e, o))) else o
  {
    hide StateOk, ExpOk, Entry, FreshRegs, Exp2Reg, Run;
    if e.k.VJmp? {
      JumpToReg(m, s, e, reg, pc, r);
    } else {
      LoadToReg(m, s, e, reg, pc, r);
    }
  }

  lemma CloseK(s: State, t: seq<nat>, f: seq<nat>, reg: nat, wasJump: bool)
    ensures CloseLists(s, t, f, reg, wasJump).k == s.k && |s.code| <= |CloseLists(s, t, f, reg, wasJump).code|
  {}

  // ---------- Putting a value into some register, or using it as an operand ----------

  /** From s to u the expression has become a plain value of kind k. */
  ghost predicate Delivers(m: Machine, s: State, e: Exp, u: State, k: Kind, pc: nat, r: Regs) {
    && pc <= |s.code| && pc <= |u.code|
    && var o, p := Run(m, s, pc, r), Run(m, u, pc, r);
       if Mine(e, o) then
         p.Here? && KindValue(m, k, p.r) == ValueOf(m, e, o) && Agree(BaseReg(s, e.k), o.r, p.r)
       else p == o
  }

  lemma FreeReserve(s: State, e: Exp)
    requires StateOk(s) && ExpOk(s, e)
    ensures var u := Reserve(FreeExp(s, e.k));
      && u == s.(freereg := BaseReg(s, e.k) + 1) && FreeExp(s, e.k).freereg == BaseReg(s, e.k) >= s.nactvar
      && StateOk(u) && ExpOk(u, e) && Frame(s, u, [])
  {
    RegsOnly(s, BaseReg(s, e.k) + 1);
  }

  lemma Exp2NextRegOk(s: State, e: Exp)
    requires StateOk(s) && ExpOk(s, e)
    ensures var (u, e1) := Exp2NextReg(s, e);
      && StateOk(u) && ExpOk(u, e1) && Frame(s, u, e.t + e.f)
      && e1 == Exp(VNonReloc(BaseReg(s, e.k)), [], []) && u.freereg == BaseReg(s, e.k) + 1 && s.nactvar <= BaseReg(s, e.k)
  {
    hide StateOk, ExpOk, Frame, BaseReg, DischargeVars, FreeExp, Exp2Reg;
    DischargeVarsOk(s, e);
    var (s1, e1) := DischargeVars(s, e);
    FreeReserve(s1, e1);
    var s2 := Reserve(FreeExp(s1, e1.k));
    Exp2RegOk(s2, e1, BaseReg(s, e.k));
    var u := Exp2Reg(s2, e1, BaseReg(s, e.k));
    FrameTrans(s, s1, s2);
    FrameFrom(s, s2, u, e.t + e.f);
    FrameNact(s, u, e.t + e.f);
    OneReg(u, BaseReg(s, e.k));
  }

  lemma FrameNact(s: State, u: State, a: seq<nat>)
    requires Frame(s, u, a)
    ensures u.nactvar == s.nactvar && s.k <= u.k && |s.code| <= |u.code| && (|u.code| == 0 ==> |s.code| == 0)
  {}

  lemma OneReg(u: State, reg: nat)
    requires u.freereg == reg + 1 && u.nactvar <= reg
    ensures ExpOk(u, Exp(VNonReloc(reg), [], [])) && BaseReg(u, VNonReloc(reg)) == reg
  {}

  lemma FreshStays(s: State, u: State, r: Regs)
    requires FreshRegs(s, r) && u.nactvar == s.nactvar && |s.code| <= |u.code|
    ensures FreshRegs(u, r)
  {}

  lemma Exp2NextRegRun(m: Machine, s: State, e: Exp, pc: nat, r: Regs)
    requires StateOk(s) && ExpOk(s, e) && Entry(s, pc) && FreshRegs(s, r) && Exp2NextReg(s, e).0.k <= m.k
    ensures pc <= |s.code| && pc <= |Exp2NextReg(s, e).0.code|
    ensures var o := Run(m, s, pc, r);
            Run(m, Exp2NextReg(s, e).0, pc, r) ==
            if Mine(e, o) then Here(Set(o.r, BaseReg(s, e.k), ValueOf(m, e, o))) else o
  {
    EntryFree(s, pc);
    hide StateOk, ExpOk, Frame, BaseReg, DischargeVars, FreeExp, Exp2Reg, FreshRegs, Run, Entry, Set;
    DischargeVarsOk(s, e);
    DischargeVarsRun(m, s, e, pc, r);
    var (s1, e1) := DischargeVars(s, e);
    FreeReserve(s1, e1);
    var s2 := Reserve(FreeExp(s1, e1.k));
    FrameTrans(s, s1, s2);
    EntryStays(s, s2, [], pc);
    FreshStays(s, s2, r);
    RegsRun(m, s1, BaseReg(s, e.k) + 1, pc, r);
    Exp2RegRun(m, s2, e1, BaseReg(s, e.k), pc, r);
  }

  lemma Exp2AnyRegOk(s: State, e: Exp)
    requires StateOk(s) && ExpOk(s, e)
    ensures var (u, e1) := Exp2AnyReg(s, e);
      && StateOk(u) && ExpOk(u, e1) && Frame(s, u, e.t + e.f)
      && e1.k.VNonReloc? && !HasJumps(e1) && BaseReg(u, e1.k) == BaseReg(s, e.k)
  {
    DischargeVarsOk(s, e);
    var (s1, e1) := DischargeVars(s, e);
    if e1.k.VNonReloc? && !HasJumps(e1) {
      assert e.t + e.f == [];
    } else if e1.k.VNonReloc? && e1.k.r >= s1.nactvar {
      hide StateOk, DischargeVars, Exp2Reg;
      Exp2RegOk(s1, e1, e1.k.r);
      FrameFrom(s, s1, Exp2Reg(s1, e1, e1.k.r), e.t + e.f);
      OneReg(Exp2Reg(s1, e1, e1.k.r), e1.k.r);
    } else {
      hide StateOk, DischargeVars, Exp2NextReg;
      Exp2NextRegOk(s1, e1);
      var u := Exp2NextReg(s1, e1).0;
      FrameFrom(s, s1, u, e.t + e.f);
      OneReg(u, BaseReg(s, e.k));
    }
  }

  lemma Exp2AnyRegRun(m: Machine, s: State, e: Exp, pc: nat, r: Regs)
    requires StateOk(s) && ExpOk(s, e) && Entry(s, pc) && FreshRegs(s, r) && Exp2AnyReg(s, e).0.k <= m.k
    ensures Delivers(m, s, e, Exp2AnyReg(s, e).0, Exp2AnyReg(s, e).1.k, pc, r)
  {
    hide StateOk, Frame, DischargeVars, Entry, FreshRegs, Run, Exp2NextReg, Exp2Reg;
    DischargeVarsOk(s, e);
    EntryFree(s, pc);
    DischargeVarsRun(m, s, e, pc, r);
    var (s1, e1) := DischargeVars(s, e);
    EntryStays(s, s1, [], pc);
    FreshStays(s, s1, r);
    if e1.k.VNonReloc? && !HasJumps(e1) {
    } else if e1.k.VNonReloc? && e1.k.r >= s1.nactvar {
      Exp2RegRun(m, s1, e1, e1.k.r, pc, r);
    } else {
      assert Exp2NextReg(s1, e1).1.k == VNonReloc(BaseReg(s, e.k)) by { Exp2NextRegOk(s1, e1); }
      Exp2NextRegRun(m, s1, e1, pc, r);
    }
  }

  lemma Exp2ValOk(s: State, e: Exp)
    requires StateOk(s) && ExpOk(s, e)
    ensures var (u, e1) := Exp2Val(s, e);
      && StateOk(u) && ExpOk(u, e1) && Frame(s, u, e.t + e.f)
      && !e1.k.VLocal? && !e1.k.VUpval? && !HasJumps(e1) && BaseReg(u, e1.k) == BaseReg(s, e.k)
  {
    hide StateOk, ExpOk, DischargeVars, Exp2AnyReg, BaseReg, Frame;
    if HasJumps(e) {
      Exp2AnyRegOk(s, e);
    } else {
      assert e.t + e.f == [];
      DischargeVarsOk(s, e);
    }
  }

  lemma Exp2ValRun(m: Machine, s: State, e: Exp, pc: nat, r: Regs)
    requires StateOk(s) && ExpOk(s, e) && Entry(s, pc) && FreshRegs(s, r) && Exp2Val(s, e).0.k <= m.k
    ensures Delivers(m, s, e, Exp2Val(s, e).0, Exp2Val(s, e).1.k, pc, r)
  {
    hide StateOk, ExpOk, DischargeVars, Exp2AnyReg, BaseReg, Frame, Run, Entry, FreshRegs;
    EntryFree(s, pc);
    if HasJumps(e) {
      Exp2AnyRegRun(m, s, e, pc, r);
    } else {
      DischargeVarsOk(s, e);
      DischargeVarsRun(m, s, e, pc, r);
    }
  }

  /** The constants are only added to. */
  lemma AddKRun(m: Machine, s: State, v: Value, pc: nat, r: Regs)
    requires pc <= |s.code|
    ensures Run(m, AddK(s, v), pc, r) == Run(m, s, pc, r)
    ensures AddK(s, v).k <= m.k ==> Operate(m, r, Const(IndexOf(s.k, v))) == v
  {
    IndexFound(s.k, v);
  }

  predicate IsOperand(e: Exp) { (e.k.VK? || e.k.VNonReloc?) && !HasJumps(e) }

  lemma ConstantKind(m: Machine, k: Kind, r: Regs)
    requires ConstantOf(k).Some?
    ensures KindValue(m, k, r) == ConstantOf(k).value && !k.VNonReloc?
  {}

  lemma Exp2RKOk(s: State, e: Exp)
    requires StateOk(s) && ExpOk(s, e)
    ensures var (u, e1) := Exp2RK(s, e);
      && StateOk(u) && ExpOk(u, e1) && Frame(s, u, e.t + e.f) && IsOperand(e1)
      && BaseReg(u, e1.k) == BaseReg(s, e.k)
  {
    var (s1, e1) := Exp2Val(s, e);
    Exp2ValOk(s, e);
    if ConstantOf(e1.k).Some? && |s1.k| <= MAXINDEXRK {
      hide StateOk, Exp2Val;
      AddKOk(s1, ConstantOf(e1.k).value);
      FrameThen(s, s1, AddK(s1, ConstantOf(e1.k).value), e.t + e.f);
    } else if e1.k.VK? && e1.k.i <= MAXINDEXRK {
    } else {
      hide StateOk, ExpOk, Exp2Val, Exp2AnyReg, BaseReg, Frame, AddK;
      Exp2AnyRegOk(s1, e1);
      assert e1.t + e1.f == [];
      FrameThen(s, s1, Exp2AnyReg(s1, e1).0, e.t + e.f);
    }
  }

  lemma FrameK(s: State, u: State, a: seq<nat>)
    requires Frame(s, u, a)
    ensures s.k <= u.k && |s.code| <= |u.code| && u.nactvar == s.nactvar
  {}

  lemma Exp2RKRun(m: Machine, s: State, e: Exp, pc: nat, r: Regs)
    requires StateOk(s) && ExpOk(s, e) && Entry(s, pc) && FreshRegs(s, r) && Exp2RK(s, e).0.k <= m.k
    ensures Delivers(m, s, e, Exp2RK(s, e).0, Exp2RK(s, e).1.k, pc, r)
  {
    hide StateOk, ExpOk, Exp2Val, Exp2AnyReg, BaseReg, Frame, AddK, Run, Entry, FreshRegs, KindValue, IndexOf;
    var (s1, e1) := Exp2Val(s, e);
    Exp2ValOk(s, e);
    FrameK(s, s1, e.t + e.f);
    EntryFree(s, pc);
    if ConstantOf(e1.k).Some? && |s1.k| <= MAXINDEXRK {
      var v := ConstantOf(e1.k).value;
      AddKOk(s1, v);
      FrameK(s1, AddK(s1, v), []);
      Exp2ValRun(m, s, e, pc, r);
      AddKRun(m, s1, v, pc, r);
      if Run(m, s1, pc, r).Here? {
        ConstantKind(m, e1.k, Run(m, s1, pc, r).r);
        ConstantNow(m, s1, v, Run(m, s1, pc, r).r);
      }
    } else if e1.k.VK? && e1.k.i <= MAXINDEXRK {
      Exp2ValRun(m, s, e, pc, r);
    } else {
      Exp2AnyRegOk(s1, e1);
      FrameK(s1, Exp2AnyReg(s1, e1).0, e1.t + e1.f);
      Exp2ValRun(m, s, e, pc, r);
      EntryStays(s, s1, e.t + e.f, pc);
      FreshStays(s, s1, r);
      Exp2AnyRegRun(m, s1, e1, pc, r);
    }
  }

  lemma ConstantNow(m: Machine, s: State, v: Value, r: Regs)
    requires AddK(s, v).k <= m.k
    ensures KindValue(m, VK(IndexOf(s.k, v)), r) == v
  {
    IndexFound(s.k, v);
  }
}
