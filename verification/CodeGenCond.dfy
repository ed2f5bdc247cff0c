/** Conditions: jumping on a value, negation and comparison. */
module CodeGenCond {
  import opened LuaVm
  import opened JumpPatch
  import opened CodeGen
  import opened CodeGenSteps
  import opened CodeGenLists
  import opened CodeGenExp

  // ---------- jumponcond ----------

  /** Some register gets the value; it is free again right after. */
  lemma AnyRegOk(s: State, k: Kind)
    requires StateOk(s) && KindOk(s, k) && Loadable(k)
    ensures var (s1, reg) := Discharge2AnyReg(s, k);
            var u := FreeReg(s1, reg);
      && StateOk(u) && Frame(s, u, []) && u.freereg == BaseReg(s, k) && s.nactvar <= BaseReg(s, k) && reg <= u.freereg
  {
    hide StateOk, Load;
    var (s1, reg) := Discharge2AnyReg(s, k);
    StateNact(s);
    if k.VNonReloc? {
      RegsOnly(s, BaseReg(s, k));
    } else {
      RegsOnly(s, s.freereg + 1);
      LoadOk(Reserve(s), k, s.freereg);
      FrameTrans(s, Reserve(s), s1);
      FrameK(s, s1, []);
      RegsOnly(s1, s.freereg);
      FrameTrans(s, s1, s1.(freereg := s.freereg));
    }
  }

  lemma StateNact(s: State)
    requires StateOk(s)
    ensures s.nactvar <= s.freereg
  {}

  lemma AnyRegRun(m: Machine, s: State, k: Kind, pc: nat, r: Regs)
    requires StateOk(s) && KindOk(s, k) && Loadable(k) && Entry(s, pc) && FreshRegs(s, r)
    requires Discharge2AnyReg(s, k).0.k <= m.k
    ensures var (s1, reg) := Discharge2AnyReg(s, k);
            var u := FreeReg(s1, reg);
      && pc <= |s.code| && pc <= |u.code|
      && match Run(m, s, pc, r)
         case Here(r1) =>
           && Run(m, u, pc, r) == Here(Set(r1, reg, KindValue(m, k, r1)))
           && Agree(BaseReg(s, k), r1, Set(r1, reg, KindValue(m, k, r1)))
         case o => Run(m, u, pc, r) == o
  {
    hide StateOk, Load, Run, Entry, FreshRegs;
    EntryFree(s, pc);
    var (s1, reg) := Discharge2AnyReg(s, k);
    AnyRegOk(s, k);
    FrameK(s, FreeReg(s1, reg), []);
    if k.VNonReloc? {
      RegsRun(m, s, BaseReg(s, k), pc, r);
      if Run(m, s, pc, r).Here? {
        SetSame(Run(m, s, pc, r).r, reg);
      }
    } else {
      StateNact(s);
      RegsOnly(s, s.freereg + 1);
      RegsRun(m, s, s.freereg + 1, pc, r);
      EntryStays(s, Reserve(s), [], pc);
      FreshStays(s, Reserve(s), r);
      LoadRun(m, Reserve(s), k, s.freereg, pc, r);
      RegsRun(m, s1, FreeReg(s1, reg).freereg, pc, r);
    }
  }

  /** What a conditional jump adds: one pending jump at the end. */
  ghost predicate JumpAdded(s: State, u: State, k: Kind, list: seq<nat>) {
    && StateOk(u) && Frame(s, u, []) && u.freereg == BaseReg(s, k)
    && Pending(u.code, list) && Apart(list, u.jpc) && forall j :: j in list ==> j >= |s.code| || j in s.jpc
  }

  /** The jump brings the value v along; one that a bare jump has taken over stands for the
      boolean, whatever it brings. */
  predicate Brings(o: Outcome, adopted: set<nat>, cond: bool, v: Value) {
    o.Exit? && (JumpValue(o.kept, cond) == v || (o.jump in adopted && v == Bool(cond)))
  }

  /** The jump is taken when the value is true just as cond, and brings the value along. */
  ghost predicate Branches(m: Machine, s: State, u: State, k: Kind, list: seq<nat>, adopted: set<nat>, cond: bool, pc: nat, r: Regs) {
    && pc <= |s.code| && pc <= |u.code|
    && match Run(m, s, pc, r)
       case Here(r1) =>
         var v, o := KindValue(m, k, r1), Run(m, u, pc, r);
         if IsFalse(v) != cond then
           o.Exit? && o.jump in list && Brings(o, adopted, cond, v) && Agree(BaseReg(s, k), r1, o.r)
         else o.Here? && Agree(BaseReg(s, k), r1, o.r)
       case o => Run(m, u, pc, r) == o
  }

  lemma CondJumpAdds(s: State, u: State, i: Instr, k: Kind)
    requires StateOk(s) && IsTest(i) && StateOk(u) && Frame(s, u, []) && u.freereg == BaseReg(s, k)
    ensures JumpAdded(s, CondJump(u, i), k, [|CondJump(u, i).code| - 1])
  {
    hide StateOk, CondJump;
    CondJumpOk(u, i);
    FrameTrans(s, u, CondJump(u, i));
    FrameK(s, u, []);
    CondJumpFrees(u, i);
  }

  lemma CondJumpFrees(u: State, i: Instr)
    ensures CondJump(u, i).freereg == u.freereg && CondJump(u, i).k == u.k
  {}

  lemma JumpOnCondOk(s: State, k: Kind, cond: bool)
    requires StateOk(s) && KindOk(s, k) && Loadable(k)
    ensures var u := JumpOnCond(s, k, cond); JumpAdded(s, u, k, [|u.code| - 1])
  {
    hide StateOk, CondJump, JumpAdded, Frame, Discharge2AnyReg, FreeReg;
    if k.VReloc? && k.op.NotOf? {
      FrameSelf(s);
      CondJumpAdds(s, s, Test(k.op.b, !cond), k);
    } else {
      var (s1, reg) := Discharge2AnyReg(s, k);
      AnyRegOk(s, k);
      CondJumpAdds(s, FreeReg(s1, reg), TestSet(NO_REG, reg, cond), k);
    }
  }

  lemma FrameSelf(s: State)
    ensures Frame(s, s, [])
  {}

  lemma JumpOnCondRun(m: Machine, s: State, k: Kind, cond: bool, pc: nat, r: Regs)
    requires StateOk(s) && KindOk(s, k) && Loadable(k) && Entry(s, pc) && FreshRegs(s, r)
    requires JumpOnCond(s, k, cond).k <= m.k
    ensures var u := JumpOnCond(s, k, cond); Branches(m, s, u, k, [|u.code| - 1], {}, cond, pc, r)
  {
    hide StateOk, CondJump, Frame, Run, Entry, FreshRegs, Set, FreeReg, Discharge2AnyReg, BaseReg;
    EntryFree(s, pc);
    if k.VReloc? && k.op.NotOf? {
      CondJumpRun(m, s, Test(k.op.b, !cond), pc, r);
    } else {
      var (s1, reg) := Discharge2AnyReg(s, k);
      var u := FreeReg(s1, reg);
      AnyRegOk(s, k);
      CondJumpFrees(u, TestSet(NO_REG, reg, cond));
      FreeRegK(s1, reg);
      AnyRegRun(m, s, k, pc, r);
      EntryStays(s, u, [], pc);
      EntryFree(u, pc);
      CondJumpRun(m, u, TestSet(NO_REG, reg, cond), pc, r);
      if Run(m, s, pc, r).Here? {
        SetGet(Run(m, s, pc, r).r, reg, KindValue(m, k, Run(m, s, pc, r).r));
      }
    }
  }

  lemma FreeRegK(s: State, reg: nat)
    ensures FreeReg(s, reg).k == s.k
  {}

  lemma SetGet(r: Regs, i: int, v: Value)
    ensures Get(Set(r, i, v), i) == v
  {}

  // ---------- luaK_goiftrue and luaK_goiffalse ----------

  /** The pending jumps that a bare jump takes over; no other jump does. */
  function TakenOver(s: State, k: Kind, cond: bool): set<nat> {
    if k == (if cond then VTrue else VFalse) then set j | j in s.jpc else {}
  }

  /** Expressions that the parser hands on are constants of the table only as strings. */
  predicate TrueConstant(s: State, k: Kind) { k.VK? ==> k.i < |s.k| && !IsFalse(s.k[k.i]) }

  lemma BranchOk(s: State, k: Kind, cond: bool)
    requires StateOk(s) && KindOk(s, k) && !k.VLocal? && !k.VUpval?
    ensures var (u, list) := Branch(s, k, cond); JumpAdded(s, u, k, list)
  {
    hide StateOk, CondJump, Frame, JumpOnCond;
    FrameSelf(s);
    if KnownNot(k, cond) {
    } else if k == (if cond then VTrue else VFalse) {
      JumpOk(s);
    } else if k.VJmp? {
      CondJumpAdds(s, s, TestInstr(if cond then k.test else Invert(k.test)), k);
    } else {
      JumpOnCondOk(s, k, cond);
    }
  }

  lemma BranchRun(m: Machine, s: State, k: Kind, cond: bool, pc: nat, r: Regs)
    requires StateOk(s) && KindOk(s, k) && !k.VLocal? && !k.VUpval? && TrueConstant(s, k)
    requires Entry(s, pc) && FreshRegs(s, r) && Branch(s, k, cond).0.k <= m.k
    ensures var (u, list) := Branch(s, k, cond); Branches(m, s, u, k, list, TakenOver(s, k, cond), cond, pc, r)
  {
    hide StateOk, CondJump, Frame, JumpOnCond, Run, Entry, FreshRegs, BaseReg;
    EntryFree(s, pc);
    BranchOk(s, k, cond);
    FrameK(s, Branch(s, k, cond).0, []);
    if KnownNot(k, cond) {
    } else if k == (if cond then VTrue else VFalse) {
      JumpRun(m, s, pc, r);
    } else if k.VJmp? {
      CondJumpRun(m, s, TestInstr(if cond then k.test else Invert(k.test)), pc, r);
    } else {
      JumpOnCondRun(m, s, k, cond, pc, r);
    }
  }

  lemma GoIfOk(s: State, e: Exp, cond: bool)
    requires StateOk(s) && ExpOk(s, e)
    ensures var (u, list) := if cond then GoIfFalse(s, e) else GoIfTrue(s, e);
      && StateOk(u) && Frame(s, u, e.t + e.f) && u.freereg == BaseReg(s, e.k)
      && Pending(u.code, list) && Apart(list, u.jpc)
      && forall j :: j in list ==> j in e.t || j in e.f || j >= |s.code| || j in s.jpc
  {
    hide StateOk, Frame, DischargeVars, Branch, KindOk, ListsOk, BaseReg;
    DischargeVarsOk(s, e);
    var (s1, e1) := DischargeVars(s, e);
    ExpParts(s1, e1);
    BranchOk(s1, e1.k, cond);
    var (s2, list) := Branch(s1, e1.k, cond);
    ListsStay(s1, s2, e.t, e.f, []);
    ListsBelow(s1, e1);
    var (here, away) := if cond then (e.f, e.t) else (e.t, e.f);
    ListsParts(s2, e.t, e.f);
    ToHereOk(s2, here);
    FrameTrans(s, s1, s2);
    FrameFrom(s, s2, ToHere(s2, here), here);
    FrameMore(s, ToHere(s2, here), here, e.t + e.f);
    ListsParts(s1, e.t, e.f);
    VarsJumps(s, e);
    PendingJoin(s2.code, away, list);
  }

  lemma VarsJumps(s: State, e: Exp)
    ensures forall j :: j in DischargeVars(s, e).0.jpc ==> j in s.jpc
  {}

  lemma AdoptsSame(s: State, e: Exp, cond: bool)
    ensures TakenOver(DischargeVars(s, e).0, DischargeVars(s, e).1.k, cond) == TakenOver(s, e.k, cond)
  {}

  lemma ExpParts(s: State, e: Exp)
    requires ExpOk(s, e)
    ensures KindOk(s, e.k) && ListsOk(s, e.t, e.f)
  {}

  lemma ListsParts(s: State, t: seq<nat>, f: seq<nat>)
    requires ListsOk(s, t, f)
    ensures Pending(s.code, t) && Pending(s.code, f) && Apart(t, f) && Apart(f, t) && Apart(t, s.jpc) && Apart(f, s.jpc)
  {}

  lemma FrameMore(s: State, u: State, a: seq<nat>, b: seq<nat>)
    requires Frame(s, u, a) && forall j :: j in a ==> j in b
    ensures Frame(s, u, b)
  {}

  /** The value decides where the run goes, or the list that it leaves the expression through. */
  ghost predicate Decides(m: Machine, s: State, e: Exp, u: State, list: seq<nat>, cond: bool, pc: nat, r: Regs) {
    && pc <= |s.code| && pc <= |u.code|
    && var o, p := Run(m, s, pc, r), Run(m, u, pc, r);
       if o.Here? then
         var v := KindValue(m, e.k, o.r);
         && Agree(BaseReg(s, e.k), o.r, OutRegs(p))
         && if IsFalse(v) != cond then p.Exit? && p.jump in list && Brings(p, TakenOver(s, e.k, cond), cond, v) else p.Here?
       else if Mine(e, o) then
         if o.jump in (if cond then e.t else e.f) then p == o && p.jump in list else p == Here(o.r)
       else p == o
  }

  function OutRegs(o: Outcome): Regs { if o.Stuck? then map[] else o.r }

  lemma GoIfRun(m: Machine, s: State, e: Exp, cond: bool, pc: nat, r: Regs)
    requires StateOk(s) && ExpOk(s, e) && TrueConstant(s, e.k) && pc <= |s.code|
    requires Entry(s, pc) && FreshRegs(s, r) && (if cond then GoIfFalse(s, e) else GoIfTrue(s, e)).0.k <= m.k
    ensures var (u, list) := if cond then GoIfFalse(s, e) else GoIfTrue(s, e);
            Decides(m, s, e, u, list, cond, pc, r)
  {
    hide StateOk, Frame, DischargeVars, Branch, KindOk, ListsOk, BaseReg, Run, Entry, FreshRegs, TrueConstant, TakenOver, KindValue;
    EntryFree(s, pc);
    DischargeVarsOk(s, e);
    DischargeVarsRun(m, s, e, pc, r);
    var (s1, e1) := DischargeVars(s, e);
    assert Mine(e, Run(m, s, pc, r)) ==> ValueOf(m, e1, Run(m, s, pc, r)) == ValueOf(m, e, Run(m, s, pc, r));
    AdoptsSame(s, e, cond);
    TrueSame(s, e);
    ExpParts(s1, e1);
    FrameK(s, s1, []);
    EntryStays(s, s1, [], pc);
    FreshStays(s, s1, r);
    BranchOk(s1, e1.k, cond);
    BranchRun(m, s1, e1.k, cond, pc, r);
    var (s2, list) := Branch(s1, e1.k, cond);
    FrameK(s1, s2, []);
    ListsParts(s1, e.t, e.f);
    ListsBelow(s1, e1);
    ToHereRun(m, s2, if cond then e.f else e.t, pc, r);
  }

  lemma TrueSame(s: State, e: Exp)
    requires TrueConstant(s, e.k)
    ensures TrueConstant(DischargeVars(s, e).0, DischargeVars(s, e).1.k)
  {}
}
