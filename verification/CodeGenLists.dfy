/** exp2reg: closing the lists of an expression, so that its value ends up in one register. */
module CodeGenLists {
  import opened Options
  import opened LuaVm
  import opened JumpPatch
  import opened CodeGen
  import opened CodeGenSteps

  // ---------- Patching one list ----------

  ghost predicate TargetsKnown(s: State, list: seq<nat>, vtarget: nat, dtarget: nat) {
    && PatchReady(s.code, list, vtarget, dtarget) && Apart(list, s.jpc)
    && forall j :: j in list ==> (if KeepsValue(s.code, j) then vtarget else dtarget) <= s.lasttarget
  }

  lemma PatchListOk(s: State, list: seq<nat>, vtarget: nat, reg: int, dtarget: nat)
    requires StateOk(s) && TargetsKnown(s, list, vtarget, dtarget)
    ensures StateOk(PatchList(s, list, vtarget, reg, dtarget))
    ensures Frame(s, PatchList(s, list, vtarget, reg, dtarget), list)
  {
    PatchedOk(s.code, list, vtarget, reg, dtarget);
    var u := PatchList(s, list, vtarget, reg, dtarget);
    forall i | 0 <= i < |s.code|
      ensures u.code[i] == s.code[i] || (IsTest(u.code[i]) && IsTest(s.code[i]))
              || (i in list && u.code[i] == Jmp(To(if KeepsValue(s.code, i) then vtarget else dtarget)))
    {
      assert u.code[i] == PatchedAt(s.code, i, list, vtarget, reg, dtarget);
    }
  }

  /** Another list is not touched. */
  lemma PatchKeeps(s: State, list: seq<nat>, vtarget: nat, reg: int, dtarget: nat, other: seq<nat>)
    requires Pending(s.code, list) && Pending(s.code, other) && Apart(list, other)
    ensures Pending(PatchList(s, list, vtarget, reg, dtarget).code, other)
    ensures forall j :: j in other ==>
              (KeepsValue(PatchList(s, list, vtarget, reg, dtarget).code, j) <==> KeepsValue(s.code, j))
  {
    var u := PatchList(s, list, vtarget, reg, dtarget);
    forall j | j in other
      ensures u.code[j] == s.code[j] && (KeepsValue(u.code, j) <==> KeepsValue(s.code, j))
    {
      assert u.code[j] == PatchedAt(s.code, j, list, vtarget, reg, dtarget);
      if j > 0 {
        assert u.code[j-1] == PatchedAt(s.code, j - 1, list, vtarget, reg, dtarget);
      }
    }
  }

  lemma PatchRun(m: Machine, s: State, list: seq<nat>, vtarget: nat, reg: int, dtarget: nat, pc: nat, r: Regs)
    requires StateOk(s) && TargetsKnown(s, list, vtarget, dtarget) && Free(s.code, pc)
    requires vtarget <= |s.code| && dtarget <= |s.code| && reg != NO_REG
    ensures var u := PatchList(s, list, vtarget, reg, dtarget);
            Run(m, u, pc, r) ==
            match Run(m, s, pc, r)
            case Exit(j, kept, r1) =>
              if j !in list then Exit(j, kept, r1)
              else if kept.Some? then Run(m, u, vtarget, Set(r1, reg, kept.value))
              else Run(m, u, dtarget, r1)
            case o => o
  {
    ExecPatched(m, s.code, list, vtarget, reg, dtarget, pc, r);
  }

  // ---------- The loads that jumps without a value go to ----------

  /** The state of exp2reg when it has added the two loads, before it patches the lists. */
  function Opened(s: State, reg: nat, wasJump: bool): State {
    var s1 := AddLoads(if wasJump then s else JumpState(s), reg);
    if wasJump then Label(s1) else ToHere(s1, JumpList(s))
  }

  lemma AddLoadsOk(s: State, reg: nat)
    requires StateOk(s) && s.jpc == []
    ensures StateOk(Label(AddLoads(s, reg))) && Frame(s, Label(AddLoads(s, reg)), [])
    ensures CodeOk(AddLoads(s, reg).code) && Free(AddLoads(s, reg).code, |s.code|) && Free(AddLoads(s, reg).code, |s.code| + 1)
  {
    var u := AddLoads(s, reg);
    forall p | 0 <= p <= |s.code| && Free(s.code, p)
      ensures Free(u.code, p)
    {}
    assert !IsTest(u.code[|s.code|]) && !IsTest(u.code[|s.code| + 1]);
    forall p | 0 <= p < |u.code|
      ensures InstrOk(u.code, p)
    {
      if p < |s.code| {
        assert InstrOk(s.code, p);
      }
    }
  }

  lemma LoadsAt(m: Machine, code: seq<Instr>, reg: nat, r: Regs)
    requires |code| >= 2 && code[|code|-2] == LoadBool(reg, false, true) && code[|code|-1] == LoadBool(reg, true, false)
    ensures Exec(m, code, |code| - 2, r) == Here(Set(r, reg, Bool(false)))
    ensures Exec(m, code, |code| - 1, r) == Here(Set(r, reg, Bool(true)))
  {
    var n := |code|;
    assert Exec(m, code, n, Set(r, reg, Bool(false))) == Here(Set(r, reg, Bool(false)));
    assert Exec(m, code, n, Set(r, reg, Bool(true))) == Here(Set(r, reg, Bool(true)));
  }

  lemma AddLoadsRun(m: Machine, s: State, reg: nat, pc: nat, r: Regs)
    requires StateOk(s) && s.jpc == [] && Free(s.code, pc)
    ensures Run(m, AddLoads(s, reg), pc, r) ==
            match Run(m, s, pc, r)
            case Here(r1) => Here(Set(r1, reg, Bool(false)))
            case o => o
  {
    ExecAppend(m, s.code, [LoadBool(reg, false, true), LoadBool(reg, true, false)], pc, r);
    if Run(m, s, pc, r).Here? {
      LoadsAt(m, AddLoads(s, reg).code, reg, Run(m, s, pc, r).r);
    }
  }

  /** What the added loads need and leave. */
  ghost predicate ListsOk(s: State, t: seq<nat>, f: seq<nat>) {
    Pending(s.code, t) && Pending(s.code, f) && Apart(t, f) && Apart(t, s.jpc) && Apart(f, s.jpc)
  }

  /** Lists that a step does not consume are still pending after it. */
  lemma ListsStay(s: State, u: State, t: seq<nat>, f: seq<nat>, done: seq<nat>)
    requires Frame(s, u, done) && ListsOk(s, t, f) && Apart(t, done) && Apart(f, done)
    ensures ListsOk(u, t, f)
  {}

  lemma OpenedCode(s: State, reg: nat, wasJump: bool)
    ensures var u := Opened(s, reg, wasJump);
      && u.lasttarget == |u.code| && u.freereg == s.freereg && |u.code| >= |s.code| + 2
      && u.code[|u.code|-2] == LoadBool(reg, false, true) && u.code[|u.code|-1] == LoadBool(reg, true, false)
      && forall j :: 0 <= j < |s.code| ==> u.code[j] == s.code[j]
  {}

  lemma OpenedOk(s: State, reg: nat, wasJump: bool, t: seq<nat>, f: seq<nat>)
    requires StateOk(s) && ListsOk(s, t, f) && (wasJump ==> s.jpc == [])
    ensures var u := Opened(s, reg, wasJump);
      && StateOk(u) && Frame(s, u, []) && ListsOk(u, t, f) && u.lasttarget == |u.code| && u.freereg == s.freereg
      && |u.code| >= |s.code| + 2 && Free(u.code, |u.code| - 2) && Free(u.code, |u.code| - 1)
      && u.code[|u.code|-2] == LoadBool(reg, false, true) && u.code[|u.code|-1] == LoadBool(reg, true, false)
  {
    hide StateOk, CodeOk, Aims, ListsOk;
    OpenedCode(s, reg, wasJump);
    var u := Opened(s, reg, wasJump);
    if wasJump {
      AddLoadsOk(s, reg);
    } else {
      JumpLoads(s, reg);
    }
    hide Opened;
    ListsStay(s, u, t, f, []);
  }

  lemma JumpLoads(s: State, reg: nat)
    requires StateOk(s)
    ensures var u := ToHere(AddLoads(JumpState(s), reg), JumpList(s));
      StateOk(u) && Frame(s, u, []) && Free(u.code, |u.code| - 2) && Free(u.code, |u.code| - 1)
  {
    hide StateOk, CodeOk, Aims;
    JumpOk(s);
    var l := Label(AddLoads(JumpState(s), reg));
    AddLoadsOk(JumpState(s), reg);
    assert Pending(l.code, JumpList(s));
    ToHereOk(l, JumpList(s));
    assert ToHere(l, JumpList(s)) == ToHere(AddLoads(JumpState(s), reg), JumpList(s));
  }

  lemma OpenedRun(m: Machine, s: State, reg: nat, wasJump: bool, pc: nat, r: Regs)
    requires StateOk(s) && Free(s.code, pc) && (wasJump ==> s.jpc == [])
    ensures Run(m, Opened(s, reg, wasJump), pc, r) ==
            match Run(m, s, pc, r)
            case Here(r1) => Here(if wasJump then Set(r1, reg, Bool(false)) else r1)
            case o => o
  {
    if wasJump {
      AddLoadsRun(m, s, reg, pc, r);
    } else {
      JumpOk(s);
      JumpRun(m, s, pc, r);
      AddLoadsRun(m, JumpState(s), reg, pc, r);
      ToHereRun(m, AddLoads(JumpState(s), reg), JumpList(s), pc, r);
      ExitIs(m, s.code, pc, r);
    }
  }

  // ---------- Closing both lists ----------

  /** The state before patching and where the jumps go. */
  function Ready(s: State, t: seq<nat>, f: seq<nat>, reg: nat, wasJump: bool): State {
    if NeedValue(s.code, t) || NeedValue(s.code, f) then Opened(s, reg, wasJump) else Label(s)
  }

  /** Where a jump that brings no value goes; both places are the end when there is none. */
  ghost predicate LoadsReady(u: State, t: seq<nat>, f: seq<nat>, reg: nat, pf: nat, pt: nat) {
    && StateOk(u) && ListsOk(u, t, f) && u.lasttarget == |u.code|
    && pf <= |u.code| && pt <= |u.code| && Free(u.code, pf) && Free(u.code, pt)
    && (forall j :: j in t ==> j < |u.code| && (!KeepsValue(u.code, j) ==> j < pt))
    && (forall j :: j in f ==> j < |u.code| && (!KeepsValue(u.code, j) ==> j < pf))
    && ((NeedValue(u.code, t) || NeedValue(u.code, f)) ==>
          && |u.code| >= 2 && pf == |u.code| - 2 && pt == |u.code| - 1
          && u.code[pf] == LoadBool(reg, false, true) && u.code[pt] == LoadBool(reg, true, false))
  }

  lemma ReadyOk(s: State, t: seq<nat>, f: seq<nat>, reg: nat, wasJump: bool)
    requires StateOk(s) && ListsOk(s, t, f) && (wasJump ==> s.jpc == [])
    ensures var need := NeedValue(s.code, t) || NeedValue(s.code, f);
            var u := Ready(s, t, f, reg, wasJump);
            && (need ==> |u.code| >= 2)
            && LoadsReady(u, t, f, reg, if need then |u.code| - 2 else |u.code|, if need then |u.code| - 1 else |u.code|)
            && Frame(s, u, []) && u.freereg == s.freereg
  {
    var need := NeedValue(s.code, t) || NeedValue(s.code, f);
    if need {
      OpenedOk(s, reg, wasJump, t, f);
    }
  }

  function Closed(u: State, t: seq<nat>, f: seq<nat>, reg: nat, pf: nat, pt: nat): State {
    PatchList(PatchList(u, f, |u.code|, reg, pf), t, |u.code|, reg, pt)
  }

  lemma ClosedOk(u: State, t: seq<nat>, f: seq<nat>, reg: nat, pf: nat, pt: nat)
    requires LoadsReady(u, t, f, reg, pf, pt)
    ensures var v := PatchList(u, f, |u.code|, reg, pf);
            && TargetsKnown(u, f, |u.code|, pf) && StateOk(v) && TargetsKnown(v, t, |u.code|, pt)
            && forall i :: 0 <= i < |u.code| ==> (IsTest(v.code[i]) <==> IsTest(u.code[i]))
    ensures StateOk(Closed(u, t, f, reg, pf, pt)) && Frame(u, Closed(u, t, f, reg, pf, pt), f + t)
  {
    hide StateOk, CodeOk, Aims;
    var n := |u.code|;
    LoadsTargets(u, t, f, reg, pf, pt);
    PatchListOk(u, f, n, reg, pf);
    PatchKeeps(u, f, n, reg, pf, t);
    var v := PatchList(u, f, n, reg, pf);
    assert forall p :: 0 <= p <= n && Free(u.code, p) ==> Free(v.code, p);
    assert PatchReady(v.code, t, n, pt) by { StateCode(v); }
    PatchListOk(v, t, n, reg, pt);
    FrameBoth(u, v, Closed(u, t, f, reg, pf, pt), f, t);
  }

  lemma StateCode(s: State)
    requires StateOk(s)
    ensures CodeOk(s.code) && Free(s.code, |s.code|)
  {}

  lemma LoadsTargets(u: State, t: seq<nat>, f: seq<nat>, reg: nat, pf: nat, pt: nat)
    requires LoadsReady(u, t, f, reg, pf, pt)
    ensures TargetsKnown(u, f, |u.code|, pf) && Free(u.code, |u.code|)
  {}

  lemma FrameBoth(s: State, u: State, v: State, a: seq<nat>, b: seq<nat>)
    requires Frame(s, u, a) && Frame(u, v, b)
    ensures Frame(s, v, a + b)
  {}

  /** The two loads are still there after patching. */
  lemma LoadsStay(u: State, t: seq<nat>, f: seq<nat>, reg: nat, pf: nat, pt: nat, i: nat)
    requires i < |u.code| && u.code[i].LoadBool? && Pending(u.code, f)
    requires Pending(PatchList(u, f, |u.code|, reg, pf).code, t)
    ensures PatchList(u, f, |u.code|, reg, pf).code[i] == u.code[i]
    ensures Closed(u, t, f, reg, pf, pt).code[i] == u.code[i]
  {
    var v := PatchList(u, f, |u.code|, reg, pf);
    assert v.code[i] == PatchedAt(u.code, i, f, |u.code|, reg, pf);
    assert Closed(u, t, f, reg, pf, pt).code[i] == PatchedAt(v.code, i, t, |u.code|, reg, pt);
  }

  lemma NeedIs(code: seq<Instr>, list: seq<nat>, j: nat)
    requires j in list && !KeepsValue(code, j)
    ensures NeedValue(code, list)
  {}

  /** The value a jump of the lists stands for. */
  function JumpValue(kept: Option<Value>, isTrue: bool): Value {
    if kept.Some? then kept.value else Bool(isTrue)
  }

  /** Runs of the patched code from the places that jumps go to. */
  lemma LandingRuns(m: Machine, u: State, t: seq<nat>, f: seq<nat>, reg: nat, pf: nat, pt: nat, r: Regs)
    requires LoadsReady(u, t, f, reg, pf, pt) && Pending(PatchList(u, f, |u.code|, reg, pf).code, t)
    ensures var v := PatchList(u, f, |u.code|, reg, pf);
            var w := Closed(u, t, f, reg, pf, pt);
            && Run(m, v, |u.code|, r) == Here(r) && Run(m, w, |u.code|, r) == Here(r)
            && ((NeedValue(u.code, t) || NeedValue(u.code, f)) ==>
                  && Run(m, v, pf, r) == Here(Set(r, reg, Bool(false)))
                  && Run(m, w, pt, r) == Here(Set(r, reg, Bool(true))))
  {
    if NeedValue(u.code, t) || NeedValue(u.code, f) {
      var v := PatchList(u, f, |u.code|, reg, pf);
      var w := Closed(u, t, f, reg, pf, pt);
      hide StateOk, NeedValue, Patch, PatchList, Closed, Aims, CodeOk;
      PatchSizes(u, t, f, reg, pf, pt);
      LoadsStay(u, t, f, reg, pf, pt, pf);
      LoadsStay(u, t, f, reg, pf, pt, pt);
      LoadsAt(m, v.code, reg, r);
      LoadsAt(m, w.code, reg, r);
    }
  }

  lemma PatchSizes(u: State, t: seq<nat>, f: seq<nat>, reg: nat, pf: nat, pt: nat)
    ensures |PatchList(u, f, |u.code|, reg, pf).code| == |u.code| == |Closed(u, t, f, reg, pf, pt).code|
  {}

  lemma ClosedRun(m: Machine, u: State, t: seq<nat>, f: seq<nat>, reg: nat, pf: nat, pt: nat, pc: nat, r: Regs)
    requires LoadsReady(u, t, f, reg, pf, pt) && Free(u.code, pc)
    ensures Run(m, Closed(u, t, f, reg, pf, pt), pc, r) ==
            match Run(m, u, pc, r)
            case Exit(j, kept, r1) =>
              if j in t || j in f then Here(Set(r1, reg, JumpValue(kept, j in t))) else Exit(j, kept, r1)
            case o => o
  {
    var n := |u.code|;
    var v := PatchList(u, f, n, reg, pf);
    var w := Closed(u, t, f, reg, pf, pt);
    ClosedOk(u, t, f, reg, pf, pt);
    assert Free(v.code, pc);
    assert StateOk(u) && StateOk(v) && pf <= n && pt <= n && |v.code| == n && Apart(t, f)
      && Pending(v.code, t) && w == PatchList(v, t, n, reg, pt);
    ExitKept(m, u, pc, r);
    var o := Run(m, u, pc, r);
    if o.Exit? {
      LandingRuns(m, u, t, f, reg, pf, pt, o.r);
      LandingRuns(m, u, t, f, reg, pf, pt, Set(o.r, reg, JumpValue(o.kept, o.jump in t)));
      if o.jump in t && o.kept.None? {
        NeedIs(u.code, t, o.jump);
      }
      if o.jump in f && o.kept.None? {
        NeedIs(u.code, f, o.jump);
      }
    }
    hide StateOk, Set, Run, LoadsReady, TargetsKnown, PatchList, Closed, NeedValue, KeepsValue, Free;
    PatchRun(m, u, f, n, reg, pf, pc, r);
    PatchRun(m, v, t, n, reg, pt, pc, r);
  }

  /** Jumps to here are no exits; the others bring a value just when a TESTSET controls them. */
  lemma ExitKept(m: Machine, s: State, pc: nat, r: Regs)
    requires StateOk(s) && Free(s.code, pc)
    ensures match Run(m, s, pc, r)
            case Exit(j, kept, _) => j < |s.code| && s.code[j] == Jmp(Open) && j !in s.jpc && (kept.Some? <==> KeepsValue(s.code, j))
            case _ => true
  {
    ExitIs(m, s.code, pc, r);
  }
}
