/** Patching: giving the jumps of a list their destinations, and the tests that control them
    the register that takes their value. */
module JumpPatch {
  import opened Options
  import opened LuaVm

  const NO_REG := -1

  /** The jumps of a list are pending, and each is there once. */
  ghost predicate Pending(code: seq<Instr>, list: seq<nat>) {
    && (forall j :: j in list ==> j < |code| && code[j] == Jmp(Open))
    && (forall a, b :: 0 <= a < b < |list| ==> list[a] != list[b])
  }

  /** The jump at j is controlled by a TESTSET. */
  predicate KeepsValue(code: seq<Instr>, j: nat) {
    1 <= j <= |code| && code[j-1].TestSet?
  }

  /** patchtestreg on the controlling TESTSET. */
  function PatchTest(i: Instr, reg: int): Instr
    requires i.TestSet?
  {
    if reg != NO_REG && reg != i.b then TestSet(reg, i.b, i.c) else Test(i.b, i.c)
  }

  /** One instruction after patchlistaux: jumps whose test produces a value go to vtarget,
      the others to dtarget. */
  function PatchedAt(code: seq<Instr>, i: nat, list: seq<nat>, vtarget: nat, reg: int, dtarget: nat): Instr
    requires i < |code|
  {
    if i in list then Jmp(To(if KeepsValue(code, i) then vtarget else dtarget))
    else if i + 1 in list && code[i].TestSet? then PatchTest(code[i], reg)
    else code[i]
  }

  function Patch(code: seq<Instr>, list: seq<nat>, vtarget: nat, reg: int, dtarget: nat): (r: seq<Instr>)
    ensures |r| == |code| && forall i :: 0 <= i < |code| ==> r[i] == PatchedAt(code, i, list, vtarget, reg, dtarget)
  {
    seq(|code|, i requires 0 <= i < |code| => PatchedAt(code, i, list, vtarget, reg, dtarget))
  }

  /** removevalues on one instruction. */
  function DroppedAt(code: seq<Instr>, i: nat, list: seq<nat>): Instr
    requires i < |code|
  {
    if i + 1 in list && code[i].TestSet? then PatchTest(code[i], NO_REG) else code[i]
  }

  function DropValues(code: seq<Instr>, list: seq<nat>): (r: seq<Instr>)
    ensures |r| == |code| && forall i :: 0 <= i < |code| ==> r[i] == DroppedAt(code, i, list)
  {
    seq(|code|, i requires 0 <= i < |code| => DroppedAt(code, i, list))
  }

  ghost predicate PatchReady(code: seq<Instr>, list: seq<nat>, vtarget: nat, dtarget: nat) {
    && CodeOk(code) && Pending(code, list)
    && (list != [] ==> Free(code, vtarget) && Free(code, dtarget))
    && forall j :: j in list ==> if KeepsValue(code, j) then j < vtarget else j < dtarget
  }

  lemma PatchedOk(code: seq<Instr>, list: seq<nat>, vtarget: nat, reg: int, dtarget: nat)
    requires PatchReady(code, list, vtarget, dtarget)
    ensures CodeOk(Patch(code, list, vtarget, reg, dtarget))
    ensures forall i :: 0 <= i < |code| ==> (IsTest(Patch(code, list, vtarget, reg, dtarget)[i]) <==> IsTest(code[i]))
  {
    var r := Patch(code, list, vtarget, reg, dtarget);
    forall i | 0 <= i < |code|
      ensures IsTest(r[i]) <==> IsTest(code[i])
      ensures r[i].Jmp? <==> code[i].Jmp?
    {
      assert r[i] == PatchedAt(code, i, list, vtarget, reg, dtarget);
    }
    forall p | Free(code, p)
      ensures Free(r, p)
    {}
    forall i | 0 <= i < |r|
      ensures InstrOk(r, i)
    {
      assert InstrOk(code, i);
      assert r[i] == PatchedAt(code, i, list, vtarget, reg, dtarget);
    }
  }

  /** Where a run goes on when it has taken a patched jump. */
  function Landed(r: Regs, kept: Option<Value>, reg: int): Regs {
    if kept.Some? && reg != NO_REG then Set(r, reg, kept.value) else r
  }

  /** A patched test decides as before and has the effect that patching asks for. */
  lemma PatchedTest(m: Machine, code: seq<Instr>, list: seq<nat>, vtarget: nat, reg: int, dtarget: nat, pc: nat, r: Regs)
    requires pc < |code| && IsTest(code[pc]) && pc !in list
    ensures var i := Patch(code, list, vtarget, reg, dtarget)[pc];
      && IsTest(i) && (Taken(m, i, r) <==> Taken(m, code[pc], r))
      && Effect(i, r) == if pc + 1 in list then Landed(r, Kept(code[pc], r), reg) else Effect(code[pc], r)
  {
    assert Patch(code, list, vtarget, reg, dtarget)[pc] == PatchedAt(code, pc, list, vtarget, reg, dtarget);
  }

  /** The jump of a test, patched. */
  lemma PatchedJump(code: seq<Instr>, list: seq<nat>, vtarget: nat, reg: int, dtarget: nat, j: nat)
    requires j < |code| && code[j].Jmp?
    ensures Patch(code, list, vtarget, reg, dtarget)[j] ==
            if j in list then Jmp(To(if KeepsValue(code, j) then vtarget else dtarget)) else code[j]
  {
    assert Patch(code, list, vtarget, reg, dtarget)[j] == PatchedAt(code, j, list, vtarget, reg, dtarget);
  }

  lemma PatchedPlain(code: seq<Instr>, list: seq<nat>, vtarget: nat, reg: int, dtarget: nat, i: nat)
    requires i < |code| && !code[i].Jmp? && !IsTest(code[i]) && i !in list
    ensures Patch(code, list, vtarget, reg, dtarget)[i] == code[i]
  {
    assert Patch(code, list, vtarget, reg, dtarget)[i] == PatchedAt(code, i, list, vtarget, reg, dtarget);
  }

  /** How a run of the patched code goes on where the old code ended with o: at the destination
      when that was a jump of the list. */
  function Onward(m: Machine, patched: seq<Instr>, list: seq<nat>, vtarget: nat, reg: int, dtarget: nat, o: Outcome): Outcome {
    match o
    case Exit(j, kept, r) =>
      if j in list && kept.Some? && vtarget <= |patched| then Exec(m, patched, vtarget, Landed(r, kept, reg))
      else if j in list && kept.None? && dtarget <= |patched| then Exec(m, patched, dtarget, r)
      else o
    case _ => o
  }

  /** The meaning of patching: a run of the patched code is the run of the old code, which
      goes on at the destination when it takes a jump of the list. */
  lemma {:induction false} ExecPatched(m: Machine, code: seq<Instr>, list: seq<nat>, vtarget: nat, reg: int, dtarget: nat,
                                       pc: nat, r: Regs)
    requires PatchReady(code, list, vtarget, dtarget) && Free(code, pc)
    ensures var patched := Patch(code, list, vtarget, reg, dtarget);
      Exec(m, patched, pc, r) == Onward(m, patched, list, vtarget, reg, dtarget, Exec(m, code, pc, r))
    decreases |code| - pc
  {
    if pc < |code| {
      assert InstrOk(code, pc);
      assert forall j :: j in list ==> code[j].Jmp?;
      var i := code[pc];
      hide Patch, PatchedAt, PatchTest, Taken, Effect, Landed;
      if i.Jmp? {
        PatchedJump(code, list, vtarget, reg, dtarget, pc);
        if i.dest.To? {
          hide Onward;
          ExecPatched(m, code, list, vtarget, reg, dtarget, i.dest.pc, r);
        }
      } else if IsTest(i) {
        PatchedTest(m, code, list, vtarget, reg, dtarget, pc, r);
        PatchedJump(code, list, vtarget, reg, dtarget, pc + 1);
        assert InstrOk(code, pc + 1);
        if !Taken(m, i, r) {
          hide Onward;
          ExecPatched(m, code, list, vtarget, reg, dtarget, pc + 2, r);
        } else if code[pc+1].dest.To? {
          hide Onward;
          ExecPatched(m, code, list, vtarget, reg, dtarget, code[pc+1].dest.pc, Effect(i, r));
        } else {
          LandedNone(r, reg);
        }
      } else {
        PatchedPlain(code, list, vtarget, reg, dtarget, pc);
        hide Onward;
        ExecPatched(m, code, list, vtarget, reg, dtarget, if i.LoadBool? && i.skip then pc + 2 else pc + 1, Perform(m, i, r));
      }
    }
  }

  lemma LandedNone(r: Regs, reg: int)
    ensures Landed(r, None, reg) == r
  {}

  lemma DroppedOk(code: seq<Instr>, list: seq<nat>)
    requires CodeOk(code)
    ensures CodeOk(DropValues(code, list))
    ensures forall i :: 0 <= i < |code| ==> (IsTest(DropValues(code, list)[i]) <==> IsTest(code[i]))
  {
    var r := DropValues(code, list);
    forall i | 0 <= i < |code|
      ensures IsTest(r[i]) <==> IsTest(code[i])
      ensures r[i].Jmp? ==> r[i] == code[i]
    {
      assert r[i] == DroppedAt(code, i, list);
    }
    forall p | Free(code, p)
      ensures Free(r, p)
    {}
    forall i | 0 <= i < |r|
      ensures InstrOk(r, i)
    {
      assert InstrOk(code, i);
      assert r[i] == DroppedAt(code, i, list);
    }
  }

  /** Dropped values are gone from the exits of the list, and nothing else changes. */
  lemma {:induction false} ExecDropped(m: Machine, code: seq<Instr>, list: seq<nat>, pc: nat, r: Regs)
    requires CodeOk(code) && Pending(code, list) && pc <= |code|
    ensures Exec(m, DropValues(code, list), pc, r) ==
            match Exec(m, code, pc, r)
            case Exit(j, kept, r1) => Exit(j, if j in list then None else kept, r1)
            case o => o
    decreases |code| - pc
  {
    var p := DropValues(code, list);
    if pc < |code| {
      assert InstrOk(code, pc);
      var i := code[pc];
      assert p[pc] == DroppedAt(code, pc, list);
      if i.Jmp? {
        if i.dest.To? {
          ExecDropped(m, code, list, i.dest.pc, r);
        }
      } else if IsTest(i) {
        assert p[pc+1] == DroppedAt(code, pc + 1, list);
        assert InstrOk(code, pc + 1);
        if !Taken(m, i, r) {
          ExecDropped(m, code, list, pc + 2, r);
        } else if code[pc+1].dest.To? {
          ExecDropped(m, code, list, code[pc+1].dest.pc, Effect(i, r));
        }
      } else {
        ExecDropped(m, code, list, if i.LoadBool? && i.skip then pc + 2 else pc + 1, Perform(m, i, r));
      }
    }
  }
}
