/** What each step of the code generator does to the runs of the code. */
module CodeGenSteps {
  import opened Options
  import opened LuaVm
  import opened JumpPatch
  import opened CodeGen

  // ---------- States ----------

  ghost predicate Aims(code: seq<Instr>, lasttarget: int) {
    forall i :: 0 <= i < |code| ==>
      && (code[i].Jmp? && code[i].dest.To? ==> code[i].dest.pc <= lasttarget)
      && (code[i].LoadBool? && code[i].skip ==> i + 2 <= lasttarget)
  }

  /** Nothing jumps behind the last target, and jumps to here make this a target. */
  ghost predicate StateOk(s: State) {
    && CodeOk(s.code) && Pending(s.code, s.jpc) && Free(s.code, |s.code|)
    && Aims(s.code, s.lasttarget) && s.lasttarget <= |s.code| && (s.jpc != [] ==> s.lasttarget == |s.code|)
    && s.nactvar <= s.freereg
  }

  /** Where a run may start: the beginning or a place at or before the last target. */
  predicate Entry(s: State, pc: nat) {
    Free(s.code, pc) && (pc == 0 || pc <= s.lasttarget)
  }

  /** A run of the code so far; a jump to here arrives like falling through. */
  function Run(m: Machine, s: State, pc: nat, r: Regs): Outcome
    requires pc <= |s.code|
  {
    match Exec(m, s.code, pc, r)
    case Exit(j, kept, r1) => if j in s.jpc then Here(r1) else Exit(j, kept, r1)
    case o => o
  }

  /** What a step leaves of the code before it, except for the jumps in done. */
  ghost predicate Frame(s: State, u: State, done: seq<nat>) {
    && |s.code| <= |u.code| && s.lasttarget <= u.lasttarget && s.k <= u.k && s.nactvar == u.nactvar
    && (forall i :: 0 <= i < |s.code| ==> (IsTest(u.code[i]) <==> IsTest(s.code[i])) && (u.code[i].TestSet? ==> s.code[i].TestSet?))
    && (forall j :: 0 <= j < |s.code| && s.code[j] == Jmp(Open) && j !in s.jpc && j !in done ==> u.code[j] == Jmp(Open))
    && (forall j :: j in u.jpc ==> j in s.jpc || j in done || j >= |s.code|)
  }

  lemma FrameTrans(s: State, u: State, v: State)
    requires Frame(s, u, []) && Frame(u, v, [])
    ensures Frame(s, v, [])
  {}

  lemma FrameDone(s: State, u: State, v: State, done: seq<nat>)
    requires Frame(s, u, []) && Frame(u, v, done) && forall j :: j in done ==> j >= |s.code| || j in s.jpc
    ensures Frame(s, v, [])
  {}

  lemma EntryStays(s: State, u: State, done: seq<nat>, pc: nat)
    requires Frame(s, u, done) && Entry(s, pc)
    ensures Entry(u, pc)
  {}

  predicate Apart(a: seq<nat>, b: seq<nat>) { forall j :: j in a ==> j !in b }

  // ---------- Emitting ----------

  lemma DischargeOk(s: State)
    requires StateOk(s)
    ensures StateOk(Discharge(s)) && Frame(s, Discharge(s), [])
  {
    PatchedOk(s.code, s.jpc, |s.code|, NO_REG, |s.code|);
    var u := Discharge(s);
    forall i | 0 <= i < |s.code|
      ensures u.code[i] == s.code[i] || (IsTest(u.code[i]) && IsTest(s.code[i])) || (i in s.jpc && u.code[i] == Jmp(To(|s.code|)))
    {
      assert u.code[i] == PatchedAt(s.code, i, s.jpc, |s.code|, NO_REG, |s.code|);
    }
  }

  lemma DischargeRun(m: Machine, s: State, pc: nat, r: Regs)
    requires StateOk(s) && Free(s.code, pc)
    ensures Run(m, Discharge(s), pc, r) == Run(m, s, pc, r)
    ensures Run(m, s, pc, r) == Exec(m, Discharge(s).code, pc, r)
  {
    ExecPatched(m, s.code, s.jpc, |s.code|, NO_REG, |s.code|, pc, r);
  }

  lemma EmitOk(s: State, i: Instr)
    requires StateOk(s) && IsPlain(i)
    ensures StateOk(Emit(s, i)) && Frame(s, Emit(s, i), [])
  {
    DischargeOk(s);
    var d, u := Discharge(s), Emit(s, i);
    hide Discharge;
    forall p | 0 <= p <= |d.code| && Free(d.code, p)
      ensures Free(u.code, p)
    {}
    forall p | 0 <= p < |u.code|
      ensures InstrOk(u.code, p)
    {
      if p < |d.code| {
        assert InstrOk(d.code, p);
      }
    }
  }

  lemma ExecLast(m: Machine, code: seq<Instr>, i: Instr, r: Regs)
    requires IsPlain(i)
    ensures Exec(m, code + [i], |code|, r) == Here(Perform(m, i, r))
  {
    var all := code + [i];
    assert all[|code|] == i && |all| == |code| + 1;
    assert Exec(m, all, |all|, Perform(m, i, r)) == Here(Perform(m, i, r));
  }

  lemma PendingJoin(code: seq<Instr>, a: seq<nat>, b: seq<nat>)
    requires Pending(code, a) && Pending(code, b) && Apart(b, a)
    ensures Pending(code, a + b)
  {
    var c := a + b;
    forall x, y | 0 <= x < y < |c|
      ensures c[x] != c[y]
    {
      if x < |a| && |a| <= y {
        assert c[x] in a && c[y] in b;
      }
    }
  }

  lemma EmitRun(m: Machine, s: State, i: Instr, pc: nat, r: Regs)
    requires StateOk(s) && IsPlain(i) && Free(s.code, pc)
    ensures Run(m, Emit(s, i), pc, r) ==
            match Run(m, s, pc, r)
            case Here(r1) => Here(Perform(m, i, r1))
            case o => o
  {
    DischargeOk(s);
    DischargeRun(m, s, pc, r);
    var d := Discharge(s);
    assert Emit(s, i) == d.(code := d.code + [i]) && d.jpc == [];
    hide Discharge, Emit;
    ExecAppend(m, d.code, [i], pc, r);
    if Run(m, s, pc, r).Here? {
      ExecLast(m, d.code, i, Run(m, s, pc, r).r);
    }
  }

  lemma CondJumpOk(s: State, i: Instr)
    requires StateOk(s) && IsTest(i)
    ensures StateOk(CondJump(s, i)) && Frame(s, CondJump(s, i), [])
    ensures CondJump(s, i).jpc == [] && CondJump(s, i).code[|s.code| + 1] == Jmp(Open)
  {
    DischargeOk(s);
    var d, u := Discharge(s), CondJump(s, i);
    assert u.code == d.code + [i, Jmp(Open)];
    hide Discharge, CondJump;
    forall p | 0 <= p <= |d.code| && Free(d.code, p)
      ensures Free(u.code, p)
    {}
    forall p | 0 <= p < |u.code|
      ensures InstrOk(u.code, p)
    {
      if p < |d.code| {
        assert InstrOk(d.code, p);
      }
    }
  }

  lemma CondJumpRun(m: Machine, s: State, i: Instr, pc: nat, r: Regs)
    requires StateOk(s) && IsTest(i) && Free(s.code, pc)
    ensures Run(m, CondJump(s, i), pc, r) ==
            match Run(m, s, pc, r)
            case Here(r1) => if Taken(m, i, r1) then Exit(|s.code| + 1, Kept(i, r1), r1) else Here(r1)
            case o => o
  {
    DischargeOk(s);
    DischargeRun(m, s, pc, r);
    var d := Discharge(s);
    assert CondJump(s, i).code == d.code + [i, Jmp(Open)];
    hide Discharge;
    ExecAppend(m, d.code, [i, Jmp(Open)], pc, r);
  }

  lemma JumpOk(s: State)
    requires StateOk(s)
    ensures StateOk(JumpState(s)) && Frame(s, JumpState(s), [])
    ensures Pending(JumpState(s).code, JumpList(s))
  {
    var u := JumpState(s);
    forall p | 0 <= p <= |s.code| && Free(s.code, p)
      ensures Free(u.code, p)
    {}
    forall p | 0 <= p < |u.code|
      ensures InstrOk(u.code, p)
    {
      if p < |s.code| {
        assert InstrOk(s.code, p);
      }
    }
    PendingJoin(u.code, [|s.code|], s.jpc);
  }

  /** Everything that arrives here leaves through the list of the new jump. */
  lemma JumpRun(m: Machine, s: State, pc: nat, r: Regs)
    requires StateOk(s) && Free(s.code, pc)
    ensures match Run(m, s, pc, r)
            case Here(r1) => Run(m, JumpState(s), pc, r).Exit? && Run(m, JumpState(s), pc, r).jump in JumpList(s)
                             && Run(m, JumpState(s), pc, r).r == r1
                             && (Run(m, JumpState(s), pc, r).jump !in s.jpc ==> Run(m, JumpState(s), pc, r).kept == None)
            case o => Run(m, JumpState(s), pc, r) == o
  {
    ExecAppend(m, s.code, [Jmp(Open)], pc, r);
    ExitIs(m, s.code, pc, r);
  }

  lemma ToHereOk(s: State, list: seq<nat>)
    requires StateOk(s) && Pending(s.code, list) && Apart(list, s.jpc)
    ensures StateOk(ToHere(s, list)) && Frame(s, ToHere(s, list), list)
  {
    PendingJoin(s.code, s.jpc, list);
  }

  lemma ToHereRun(m: Machine, s: State, list: seq<nat>, pc: nat, r: Regs)
    requires pc <= |s.code|
    ensures Run(m, ToHere(s, list), pc, r) ==
            match Run(m, s, pc, r)
            case Exit(j, kept, r1) => if j in list then Here(r1) else Exit(j, kept, r1)
            case o => o
  {}

  // ---------- Exits ----------

  /** A run leaves through a pending jump of the code, and brings a value along just when a
      TESTSET controls that jump. */
  lemma {:induction false} ExitIs(m: Machine, code: seq<Instr>, pc: nat, r: Regs)
    requires CodeOk(code) && Free(code, pc)
    ensures match Exec(m, code, pc, r)
            case Exit(j, kept, _) => j < |code| && code[j] == Jmp(Open) && (kept.Some? <==> KeepsValue(code, j))
            case _ => true
    decreases |code| - pc
  {
    if pc < |code| {
      assert InstrOk(code, pc);
      var i := code[pc];
      if i.Jmp? {
        if i.dest.To? {
          ExitIs(m, code, i.dest.pc, r);
        }
      } else if IsTest(i) {
        assert InstrOk(code, pc + 1);
        if !Taken(m, i, r) {
          ExitIs(m, code, pc + 2, r);
        } else if code[pc+1].dest.To? {
          ExitIs(m, code, code[pc+1].dest.pc, Effect(i, r));
        }
      } else {
        ExitIs(m, code, if i.LoadBool? && i.skip then pc + 2 else pc + 1, Perform(m, i, r));
      }
    }
  }

  // ---------- Loading values ----------

  function KindValue(m: Machine, k: Kind, r: Regs): Value {
    match k
    case VNil => Nil
    case VTrue => Bool(true)
    case VFalse => Bool(false)
    case VK(i) => Operate(m, r, Const(i))
    case VKNum(n) => Number(n)
    case VLocal(i) => Get(r, i)
    case VUpval(u) => m.up(u)
    case VNonReloc(i) => Get(r, i)
    case VReloc(op) => Result(m, Relocate(op, 0), r)
    case VJmp(c) => Bool(Taken(m, TestInstr(c), r))
  }

  /** At the start of a function the registers behind the parameters are nil. */
  ghost predicate FreshRegs(s: State, r: Regs) {
    |s.code| == 0 ==> forall i: int :: i >= s.nactvar ==> Get(r, i) == Nil
  }

  /** Between the last target and the end a run passes every instruction. */
  lemma {:induction false} MergeRun(m: Machine, code: seq<Instr>, last: Instr, pc: nat, r: Regs)
    requires CodeOk(code + [last]) && Aims(code + [last], |code|) && pc <= |code| && last.LoadNil? && Free(code + [last], pc)
    ensures Exec(m, code + [last], pc, r) ==
            match Exec(m, code, pc, r)
            case Here(r1) => Here(NilRange(r1, last.a, last.b))
            case o => o
    decreases |code| - pc
  {
    var all := code + [last];
    assert InstrOk(all, pc);
    if pc == |code| {
      ExecLast(m, code, last, r);
    } else {
      var i := code[pc];
      assert all[pc] == i;
      if i.Jmp? {
        if i.dest.To? {
          MergeRun(m, code, last, i.dest.pc, r);
        }
      } else if IsTest(i) {
        assert InstrOk(all, pc + 1) && all[pc+1].Jmp?;
        assert all[pc+1] == code[pc+1];
        if !Taken(m, i, r) {
          MergeRun(m, code, last, pc + 2, r);
        } else if code[pc+1].dest.To? {
          MergeRun(m, code, last, code[pc+1].dest.pc, Effect(i, r));
        }
      } else {
        MergeRun(m, code, last, if i.LoadBool? && i.skip then pc + 2 else pc + 1, Perform(m, i, r));
      }
    }
  }

  /** luaK_nil may join the register with the LOADNIL before it. */
  predicate Joins(s: State, reg: nat) {
    var n := |s.code|;
    n > s.lasttarget && n > 0 && s.code[n-1].LoadNil? && s.code[n-1].a <= reg <= s.code[n-1].b + 1
  }

  function Joined(i: Instr, reg: nat): Instr
    requires i.LoadNil?
  {
    LoadNil(i.a, if reg > i.b then reg else i.b)
  }

  lemma JoinOk(s: State, reg: nat)
    requires StateOk(s) && Joins(s, reg)
    ensures StateOk(LoadNilAt(s, reg)) && Frame(s, LoadNilAt(s, reg), [])
  {
    var n := |s.code|;
    var u := s.(code := s.code[..n-1] + [Joined(s.code[n-1], reg)]);
    assert LoadNilAt(s, reg) == u;
    hide LoadNilAt;
    assert forall p :: 0 <= p < n - 1 ==> u.code[p] == s.code[p];
    assert !IsTest(u.code[n-1]) && !IsTest(s.code[n-1]);
    assert forall p :: 0 <= p <= n && Free(s.code, p) ==> Free(u.code, p);
    assert CodeOk(u.code) by {
      hide Aims;
      forall p | 0 <= p < n
        ensures InstrOk(u.code, p)
      {
        assert InstrOk(s.code, p);
      }
    }
    assert s.jpc == [];
  }

  lemma JoinRun(m: Machine, s: State, reg: nat, pc: nat, r: Regs)
    requires StateOk(s) && Joins(s, reg) && Entry(s, pc)
    ensures Run(m, LoadNilAt(s, reg), pc, r) ==
            match Run(m, s, pc, r)
            case Here(r1) => Here(Set(r1, reg, Nil))
            case o => o
  {
    var n := |s.code|;
    var front, last := s.code[..n-1], s.code[n-1];
    JoinIs(s, reg, pc);
    hide LoadNilAt, StateOk, Entry, Joins, CodeOk, Aims, Free, NilRange, Set;
    MergeRun(m, front, last, pc, r);
    MergeRun(m, front, Joined(last, reg), pc, r);
    forall r1
      ensures NilRange(r1, last.a, Joined(last, reg).b) == Set(NilRange(r1, last.a, last.b), reg, Nil)
    {
      NilMore(r1, last.a, last.b, reg);
    }
  }

  /** One more register, or one of the same. */
  lemma NilMore(r: Regs, a: int, b: int, reg: int)
    requires a <= reg <= b + 1
    ensures NilRange(r, a, if reg > b then reg else b) == Set(NilRange(r, a, b), reg, Nil)
  {}

  /** Both versions of the last instruction, behind the same code. */
  lemma JoinIs(s: State, reg: nat, pc: nat)
    requires StateOk(s) && Joins(s, reg) && Entry(s, pc)
    ensures var n := |s.code|;
      var front, last, u := s.code[..n-1], s.code[n-1], LoadNilAt(s, reg);
      && n > 0 && last.LoadNil? && last.a <= reg <= last.b + 1
      && u.code == front + [Joined(last, reg)] && s.code == front + [last] && s.jpc == [] && u.jpc == []
      && pc <= n - 1 && CodeOk(s.code) && CodeOk(u.code) && Aims(s.code, n - 1) && Aims(u.code, n - 1)
      && Free(s.code, pc) && Free(u.code, pc)
  {
    JoinOk(s, reg);
    var u := LoadNilAt(s, reg);
    hide StateOk;
    assert u.lasttarget == s.lasttarget;
    JoinAims(s, u);
    hide CodeOk, Aims;
  }

  lemma JoinAims(s: State, u: State)
    requires StateOk(s) && StateOk(u) && u.lasttarget == s.lasttarget < |s.code|
    ensures CodeOk(s.code) && CodeOk(u.code) && Aims(s.code, |s.code| - 1) && Aims(u.code, |s.code| - 1)
  {}

  lemma LoadNilOk(s: State, reg: nat)
    requires StateOk(s)
    ensures StateOk(LoadNilAt(s, reg)) && Frame(s, LoadNilAt(s, reg), [])
  {
    hide StateOk, Emit;
    if Joins(s, reg) {
      JoinOk(s, reg);
    } else {
      EmitOk(s, LoadNil(reg, reg));
    }
  }

  lemma NilOne(r: Regs, a: int)
    ensures NilRange(r, a, a) == Set(r, a, Nil)
  {
    assert NilRange(r, a, a - 1) == r;
  }

  lemma LoadNilRun(m: Machine, s: State, reg: nat, pc: nat, r: Regs)
    requires StateOk(s) && Entry(s, pc) && FreshRegs(s, r)
    ensures Run(m, LoadNilAt(s, reg), pc, r) ==
            match Run(m, s, pc, r)
            case Here(r1) => Here(Set(r1, reg, Nil))
            case o => o
  {
    if Joins(s, reg) {
      hide StateOk;
      JoinRun(m, s, reg, pc, r);
    } else {
      EmitRun(m, s, LoadNil(reg, reg), pc, r);
      if Run(m, s, pc, r).Here? {
        NilOne(Run(m, s, pc, r).r, reg);
      }
      hide Emit, CodeOk, Aims;
    }
  }

  ghost predicate KindOk(s: State, k: Kind) {
    match k
    case VReloc(op) => s.jpc == []
    case VJmp(test) => s.jpc == []
    case VK(i) => i < |s.k|
    case VNonReloc(r) => r < s.freereg && (r >= s.nactvar ==> r + 1 == s.freereg)
    case VLocal(r) => r < s.nactvar
    case _ => true
  }

  lemma {:induction false} IndexFound(k: seq<Value>, v: Value)
    ensures v in k ==> IndexOf(k, v) < |k|
    ensures IndexOf(k, v) < |AddIfNew(k, v)| && AddIfNew(k, v)[IndexOf(k, v)] == v && k <= AddIfNew(k, v)
  {
    if k != [] && k[0] != v {
      IndexFound(k[1..], v);
      assert k == [k[0]] + k[1..];
    }
  }

  function AddIfNew(k: seq<Value>, v: Value): seq<Value> {
    if IndexOf(k, v) < |k| then k else k + [v]
  }

  lemma AddKOk(s: State, v: Value)
    requires StateOk(s)
    ensures StateOk(AddK(s, v)) && Frame(s, AddK(s, v), []) && AddK(s, v).k == AddIfNew(s.k, v)
    ensures AddK(s, v) == s.(k := AddIfNew(s.k, v))
    ensures IndexOf(s.k, v) < |AddK(s, v).k| && AddK(s, v).k[IndexOf(s.k, v)] == v
  {
    IndexFound(s.k, v);
  }

  predicate Loadable(k: Kind) { !k.VJmp? && !k.VLocal? && !k.VUpval? }

  lemma LoadOk(s: State, k: Kind, reg: nat)
    requires StateOk(s)
    ensures StateOk(Load(s, k, reg)) && Frame(s, Load(s, k, reg), [])
    ensures Load(s, k, reg).freereg == s.freereg
  {
    hide StateOk, Emit, LoadNilAt, AddK;
    match k
    case VNil => LoadNilOk(s, reg); NilFrees(s, reg);
    case VTrue => EmitOk(s, LoadBool(reg, true, false)); EmitFrees(s, LoadBool(reg, true, false));
    case VFalse => EmitOk(s, LoadBool(reg, false, false)); EmitFrees(s, LoadBool(reg, false, false));
    case VK(i) => EmitOk(s, LoadK(reg, i)); EmitFrees(s, LoadK(reg, i));
    case VKNum(n) =>
      AddKOk(s, Number(n));
      var a := AddK(s, Number(n));
      EmitOk(a, LoadK(reg, IndexOf(s.k, Number(n))));
      EmitFrees(a, LoadK(reg, IndexOf(s.k, Number(n))));
      FrameTrans(s, a, Load(s, k, reg));
    case VReloc(op) => EmitOk(s, Relocate(op, reg)); EmitFrees(s, Relocate(op, reg));
    case VNonReloc(r) => EmitOk(s, Move(reg, r)); EmitFrees(s, Move(reg, r));
    case _ =>
  }

  lemma EmitFrees(s: State, i: Instr)
    ensures Emit(s, i).freereg == s.freereg
  {}

  lemma NilFrees(s: State, reg: nat)
    ensures LoadNilAt(s, reg).freereg == s.freereg
  {}

  /** The register gets the value, whatever path arrives here. */
  lemma LoadRun(m: Machine, s: State, k: Kind, reg: nat, pc: nat, r: Regs)
    requires StateOk(s) && Entry(s, pc) && FreshRegs(s, r) && Loadable(k) && Load(s, k, reg).k <= m.k
    ensures Run(m, Load(s, k, reg), pc, r) ==
            match Run(m, s, pc, r)
            case Here(r1) => Here(Set(r1, reg, KindValue(m, k, r1)))
            case o => o
  {
    hide StateOk, Entry, FreshRegs, Emit, LoadNilAt, AddK, Set, Get, Run;
    EntryFree(s, pc);
    match k
    case VNil => LoadNilRun(m, s, reg, pc, r);
    case VTrue => PlainRun(m, s, LoadBool(reg, true, false), k, reg, pc, r);
    case VFalse => PlainRun(m, s, LoadBool(reg, false, false), k, reg, pc, r);
    case VK(i) => PlainRun(m, s, LoadK(reg, i), k, reg, pc, r);
    case VKNum(n) => NumberRun(m, s, n, reg, pc, r);
    case VReloc(op) => PlainRun(m, s, Relocate(op, reg), k, reg, pc, r);
    case VNonReloc(b) =>
      if b != reg {
        PlainRun(m, s, Move(reg, b), k, reg, pc, r);
      } else if Run(m, s, pc, r).Here? {
        SetSame(Run(m, s, pc, r).r, reg);
      }
  }

  /** The register gets what the instruction loads. */
  lemma PlainRun(m: Machine, s: State, i: Instr, k: Kind, reg: nat, pc: nat, r: Regs)
    requires StateOk(s) && Free(s.code, pc) && IsPlain(i)
    requires forall q :: Perform(m, i, q) == Set(q, reg, KindValue(m, k, q))
    ensures Run(m, Emit(s, i), pc, r) ==
            match Run(m, s, pc, r)
            case Here(r1) => Here(Set(r1, reg, KindValue(m, k, r1)))
            case o => o
  {
    hide *;
    EmitRun(m, s, i, pc, r);
  }

  lemma NumberRun(m: Machine, s: State, n: int, reg: nat, pc: nat, r: Regs)
    requires StateOk(s) && Free(s.code, pc) && pc <= |s.code| && Load(s, VKNum(n), reg).k <= m.k
    ensures Run(m, Load(s, VKNum(n), reg), pc, r) ==
            match Run(m, s, pc, r)
            case Here(r1) => Here(Set(r1, reg, KindValue(m, VKNum(n), r1)))
            case o => o
  {
    hide StateOk, Emit, AddK, Set, Free, Run, IndexOf;
    AddKOk(s, Number(n));
    var a, i := AddK(s, Number(n)), LoadK(reg, IndexOf(s.k, Number(n)));
    EmitK(a, i);
    PlainRun(m, a, i, VKNum(n), reg, pc, r);
    RunSameCode(m, s, a, pc, r);
  }

  lemma RunSameCode(m: Machine, s: State, a: State, pc: nat, r: Regs)
    requires a == s.(k := a.k) && pc <= |s.code|
    ensures Run(m, a, pc, r) == Run(m, s, pc, r)
  {
    hide Exec;
  }

  lemma EmitK(s: State, i: Instr)
    ensures Emit(s, i).k == s.k
  {}

  lemma SetSame(r: Regs, i: int)
    ensures Set(r, i, Get(r, i)) == r
  {}

  lemma EntryFree(s: State, pc: nat)
    requires Entry(s, pc)
    ensures Free(s.code, pc) && pc <= |s.code|
  {}
}
