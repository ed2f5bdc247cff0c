/** Negation and comparison of expressions under construction. */
module CodeGenNot {
  import opened Options
  import opened LuaVm
  import opened JumpPatch
  import opened CodeGen
  import opened CodeGenSteps
  import opened CodeGenLists
  import opened CodeGenExp
  import opened CodeGenCond

  // ---------- removevalues ----------

  function Dropped(s: State, list: seq<nat>): State { s.(code := DropValues(s.code, list)) }

  lemma DropOk(s: State, list: seq<nat>)
    requires StateOk(s)
    ensures StateOk(Dropped(s, list)) && Frame(s, Dropped(s, list), [])
  {
    DroppedOk(s.code, list);
    var u := Dropped(s, list);
    forall i | 0 <= i < |s.code|
      ensures u.code[i] == s.code[i] || (IsTest(u.code[i]) && IsTest(s.code[i]))
    {
      assert u.code[i] == DroppedAt(s.code, i, list);
    }
  }

  lemma DropRun(m: Machine, s: State, list: seq<nat>, pc: nat, r: Regs)
    requires StateOk(s) && Pending(s.code, list) && pc <= |s.code|
    ensures Run(m, Dropped(s, list), pc, r) ==
            match Run(m, s, pc, r)
            case Exit(j, kept, r1) => Exit(j, if j in list then None else kept, r1)
            case o => o
  {
    ExecDropped(m, s.code, list, pc, r);
  }

  // ---------- codenot ----------

  lemma NotValueOk(s: State, k: Kind)
    requires StateOk(s) && KindOk(s, k) && !k.VLocal? && !k.VUpval?
    ensures var (u, k1) := NotValue(s, k);
      && StateOk(u) && Frame(s, u, []) && KindOk(u, k1) && BaseReg(u, k1) == BaseReg(s, k) && k1 != VLocal(0)
      && !k1.VK? && !k1.VLocal? && !k1.VUpval?
  {
    hide StateOk, Frame, Discharge2AnyReg, FreeReg, Discharge;
    FrameSelf(s);
    if k.VNonReloc? || k.VReloc? {
      AnyRegOk(s, k);
      var (s1, reg) := Discharge2AnyReg(s, k);
      DischargeOk(FreeReg(s1, reg));
      FrameTrans(s, FreeReg(s1, reg), Discharge(FreeReg(s1, reg)));
      DischargeParts(FreeReg(s1, reg));
    }
  }

  lemma DischargeParts(s: State)
    ensures Discharge(s).jpc == [] && Discharge(s).freereg == s.freereg && Discharge(s).k == s.k
    ensures |Discharge(s).code| == |s.code|
  {}

  lemma NotValueRun(m: Machine, s: State, k: Kind, pc: nat, r: Regs)
    requires StateOk(s) && KindOk(s, k) && !k.VLocal? && !k.VUpval? && TrueConstant(s, k)
    requires Entry(s, pc) && FreshRegs(s, r) && NotValue(s, k).0.k <= m.k
    ensures var (u, k1) := NotValue(s, k);
      && pc <= |s.code| && pc <= |u.code|
      && match Run(m, s, pc, r)
         case Here(r1) =>
           && Run(m, u, pc, r).Here? && Agree(BaseReg(s, k), r1, Run(m, u, pc, r).r)
           && KindValue(m, k1, Run(m, u, pc, r).r) == Bool(IsFalse(KindValue(m, k, r1)))
         case o => Run(m, u, pc, r) == o
  {
    hide StateOk, Frame, Discharge2AnyReg, FreeReg, Discharge, Run, Set, FreshRegs, BaseReg;
    NotValueOk(s, k);
    FrameK(s, NotValue(s, k).0, []);
    EntryFree(s, pc);
    if k.VNonReloc? || k.VReloc? {
      var (s1, reg) := Discharge2AnyReg(s, k);
      var u := FreeReg(s1, reg);
      AnyRegOk(s, k);
      DischargeParts(u);
      FreeRegK(s1, reg);
      AnyRegRun(m, s, k, pc, r);
      FreeStays(s, u, pc);
      DischargeRun(m, u, pc, r);
      if Run(m, s, pc, r).Here? {
        SetGet(Run(m, s, pc, r).r, reg, KindValue(m, k, Run(m, s, pc, r).r));
      }
    }
  }

  lemma CodeNotOk(s: State, e: Exp)
    requires StateOk(s) && ExpOk(s, e)
    ensures var (u, e1) := CodeNot(s, e);
      && StateOk(u) && ExpOk(u, e1) && Frame(s, u, []) && BaseReg(u, e1.k) == BaseReg(s, e.k)
      && e1.t == e.f && e1.f == e.t && !e1.k.VK?
  {
    hide StateOk, Frame, DischargeVars, NotValue, ListsOk, BaseReg, DropValues;
    DischargeVarsOk(s, e);
    var (s1, e1) := DischargeVars(s, e);
    NotValueOk(s1, e1.k);
    var (s2, k) := NotValue(s1, e1.k);
    var s3 := Dropped(s2, e.t);
    var s4 := Dropped(s3, e.f);
    DropOk(s2, e.t);
    DropOk(s3, e.f);
    FrameTrans(s, s1, s2);
    FrameTrans(s, s2, s3);
    FrameTrans(s, s3, s4);
    NoneApart(e.t);
    NoneApart(e.f);
    ListsStay(s1, s2, e.t, e.f, []);
    ListsStay(s2, s3, e.t, e.f, []);
    ListsStay(s3, s4, e.t, e.f, []);
    ListsSwap(s4, e.t, e.f);
    KindKept(s2, s4, k);
  }

  lemma NoneApart(a: seq<nat>)
    ensures Apart(a, [])
  {}

  lemma ListsSwap(s: State, t: seq<nat>, f: seq<nat>)
    requires ListsOk(s, t, f)
    ensures ListsOk(s, f, t)
  {}

  lemma KindKept(s: State, u: State, k: Kind)
    requires KindOk(s, k) && u == s.(code := u.code)
    ensures KindOk(u, k) && BaseReg(u, k) == BaseReg(s, k)
  {}

  /** No jump is in both lists. */
  lemma OneList(u: State, e: Exp)
    requires ExpOk(u, e)
    ensures forall j :: j in e.t ==> j !in e.f
  {
    ExpParts(u, e);
    ListsParts(u, e.t, e.f);
  }

  /** not turns the value round; a path that leaves the expression is the same, without a value. */
  lemma CodeNotRun(m: Machine, s: State, e: Exp, pc: nat, r: Regs)
    requires StateOk(s) && ExpOk(s, e) && TrueConstant(s, e.k)
    requires Entry(s, pc) && FreshRegs(s, r) && CodeNot(s, e).0.k <= m.k && pc <= |s.code|
    ensures var (u, e1) := CodeNot(s, e);
      && pc <= |u.code|
      && var o, p := Run(m, s, pc, r), Run(m, u, pc, r);
         if o.Here? then
           && p.Here? && KindValue(m, e1.k, p.r) == Bool(IsFalse(KindValue(m, e.k, o.r))) && Agree(BaseReg(s, e.k), o.r, p.r)
         else if Mine(e, o) then p == Exit(o.jump, None, o.r)
         else p == o
  {
    hide StateOk, Frame, DischargeVars, NotValue, ListsOk, BaseReg, DropValues, Run, Entry, FreshRegs, TrueConstant,
      KindOk, KindValue;
    EntryFree(s, pc);
    DischargeVarsOk(s, e);
    DischargeVarsRun(m, s, e, pc, r);
    var (s1, e1) := DischargeVars(s, e);
    assert Mine(e, Run(m, s, pc, r)) ==> ValueOf(m, e1, Run(m, s, pc, r)) == ValueOf(m, e, Run(m, s, pc, r));
    TrueSame(s, e);
    FrameK(s, s1, []);
    EntryStays(s, s1, [], pc);
    FreshStays(s, s1, r);
    NotValueOk(s1, e1.k);
    var (s2, k) := NotValue(s1, e1.k);
    NotValueRun(m, s1, e1.k, pc, r);
    FrameK(s1, s2, []);
    NoneApart(e.t);
    NoneApart(e.f);
    ListsStay(s1, s2, e.t, e.f, []);
    ListsParts(s2, e.t, e.f);
    var s3 := Dropped(s2, e.t);
    DropOk(s2, e.t);
    DropRun(m, s2, e.t, pc, r);
    FrameK(s2, s3, []);
    ListsStay(s2, s3, e.t, e.f, []);
    ListsParts(s3, e.t, e.f);
    DropRun(m, s3, e.f, pc, r);
  }

  // ---------- codecomp ----------

  /** The first operand has a register of its own, below those of the second, or needs none. */
  predicate OperandBelow(s: State, k1: Kind, base: nat) {
    match k1
    case VK(i) => i < |s.k|
    case VNonReloc(reg) => reg < base && (reg >= s.nactvar ==> reg + 1 == base)
    case _ => false
  }

  /** The registers that are free once both operands have given theirs back. */
  function BaseBelow(nactvar: nat, k1: Kind, base: nat): nat {
    if k1.VNonReloc? && k1.r >= nactvar && base > 0 then base - 1 else base
  }

  lemma CodeCompOk(s: State, op: Cmp, k1: Kind, e2: Exp)
    requires StateOk(s) && ExpOk(s, e2) && OperandBelow(s, k1, BaseReg(s, e2.k)) && s.nactvar <= BaseReg(s, e2.k)
    ensures var (u, e) := CodeComp(s, op, k1, e2);
      && StateOk(u) && ExpOk(u, e) && Frame(s, u, e2.t + e2.f) && e.k.VJmp? && !HasJumps(e)
      && BaseReg(u, e.k) == BaseBelow(s.nactvar, k1, BaseReg(s, e2.k))
  {
    hide StateOk, Frame, Exp2RK, Discharge;
    var (s1, e3) := Exp2RK(s, e2);
    Exp2RKOk(s, e2);
    FrameK(s, s1, e2.t + e2.f);
    var s2 := FreeExp(FreeExp(s1, e3.k), k1);
    assert s2 == s1.(freereg := BaseBelow(s.nactvar, k1, BaseReg(s, e2.k)));
    RegsOnly(s1, s2.freereg);
    DischargeOk(s2);
    DischargeParts(s2);
    FrameThen(s, s1, s2, e2.t + e2.f);
    FrameThen(s, s2, Discharge(s2), e2.t + e2.f);
  }

  lemma CodeCompRun(m: Machine, s: State, op: Cmp, k1: Kind, e2: Exp, pc: nat, r: Regs)
    requires StateOk(s) && ExpOk(s, e2) && OperandBelow(s, k1, BaseReg(s, e2.k)) && s.nactvar <= BaseReg(s, e2.k)
    requires Entry(s, pc) && FreshRegs(s, r) && CodeComp(s, op, k1, e2).0.k <= m.k
    ensures var (u, e) := CodeComp(s, op, k1, e2);
      && pc <= |s.code| && pc <= |u.code|
      && var o, p := Run(m, s, pc, r), Run(m, u, pc, r);
         if Mine(e2, o) then
           && p.Here? && Agree(BaseReg(s, e2.k), o.r, p.r)
           && KindValue(m, e.k, p.r) == Bool(CompareValues(m, op, KindValue(m, k1, o.r), ValueOf(m, e2, o)))
         else p == o
  {
    hide StateOk, Frame, Exp2RK, Discharge, Run, Entry, FreshRegs, BaseReg, ExpOk;
    var (s1, e3) := Exp2RK(s, e2);
    Exp2RKOk(s, e2);
    FrameK(s, s1, e2.t + e2.f);
    EntryFree(s, pc);
    var s2 := FreeExp(FreeExp(s1, e3.k), k1);
    FreeExpIs(s1, e3.k, k1);
    RegsOnly2(s, s1, s2, op, k1, e2);
    DischargeParts(s2);
    Exp2RKRun(m, s, e2, pc, r);
    RegsRun(m, s1, s2.freereg, pc, r);
    FrameFree(s, s1, e2.t + e2.f, pc);
    DischargeRun(m, s2, pc, r);
    var o, p := Run(m, s, pc, r), Run(m, s1, pc, r);
    if Mine(e2, o) {
      TestValue(m, op, k1, e3.k, p.r);
      OperandSame(m, s, k1, BaseReg(s, e2.k), o.r, p.r);
    }
  }

  lemma FrameFree(s: State, u: State, a: seq<nat>, pc: nat)
    requires Frame(s, u, a) && Free(s.code, pc)
    ensures Free(u.code, pc)
  {}

  lemma FreeExpIs(s: State, k: Kind, k1: Kind)
    ensures FreeExp(FreeExp(s, k), k1) == s.(freereg := FreeExp(FreeExp(s, k), k1).freereg)
  {}

  lemma RegsOnly2(s: State, s1: State, s2: State, op: Cmp, k1: Kind, e2: Exp)
    requires StateOk(s) && ExpOk(s, e2) && OperandBelow(s, k1, BaseReg(s, e2.k)) && s.nactvar <= BaseReg(s, e2.k)
    requires s1 == Exp2RK(s, e2).0 && s2 == FreeExp(FreeExp(s1, Exp2RK(s, e2).1.k), k1)
    ensures StateOk(s2)
  {
    hide StateOk, Frame, Exp2RK;
    Exp2RKOk(s, e2);
    FrameK(s, s1, e2.t + e2.f);
    RegsOnly(s1, BaseBelow(s.nactvar, k1, BaseReg(s, e2.k)));
    assert s2 == s1.(freereg := BaseBelow(s.nactvar, k1, BaseReg(s, e2.k)));
  }

  lemma OperandSame(m: Machine, s: State, k1: Kind, base: nat, a: Regs, b: Regs)
    requires OperandBelow(s, k1, base) && Agree(base, a, b)
    ensures KindValue(m, k1, a) == KindValue(m, k1, b)
  {}

  lemma TestValue(m: Machine, op: Cmp, k1: Kind, k2: Kind, r: Regs)
    requires (k1.VK? || k1.VNonReloc?) && (k2.VK? || k2.VNonReloc?)
    ensures KindValue(m, VJmp(TestOf(op, OperandOf(k1), OperandOf(k2))), r) ==
            Bool(CompareValues(m, op, KindValue(m, k1, r), KindValue(m, k2, r)))
  {}
}
