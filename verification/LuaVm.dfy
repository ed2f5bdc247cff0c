/** The instructions that boolean expressions compile to, and their meaning.  Pending jumps
    have no destination yet; a run that takes one leaves the code there. */
module LuaVm {
  import opened Options

  datatype Value = Nil | Bool(b: bool) | Number(n: int) | Text(s: string)

  predicate IsFalse(v: Value) { v == Nil || v == Bool(false) }

  /** A register or a constant. */
  datatype Operand = Reg(r: int) | Const(i: nat)

  datatype Relation = EqR | LtR | LeR

  datatype Dest = Open | To(pc: nat)

  datatype Instr =
    | Move(a: int, b: int)
    | LoadK(a: int, i: nat)
    | LoadBool(a: int, v: bool, skip: bool)
    | LoadNil(a: int, b: int)
    | GetUpval(a: int, u: nat)
    | NotI(a: int, b: int)
    | Compare(rel: Relation, cond: bool, x: Operand, y: Operand)
    | Test(b: int, c: bool)
    | TestSet(a: int, b: int, c: bool)
    | Jmp(dest: Dest)

  type Regs = map<int, Value>

  /** Constants, upvalues, and what the comparisons of this run answer. */
  datatype Machine = Machine(k: seq<Value>, up: nat -> Value,
                             eq: (Value, Value) -> bool, lt: (Value, Value) -> bool, le: (Value, Value) -> bool)

  function Get(r: Regs, i: int): Value { if i in r then r[i] else Nil }

  function Set(r: Regs, i: int, v: Value): (q: Regs)
    ensures Get(q, i) == v && forall j :: j != i ==> Get(q, j) == Get(r, j)
  {
    if Get(r, i) == v then r else r[i := v]
  }

  function Operate(m: Machine, r: Regs, o: Operand): Value {
    match o
    case Reg(i) => Get(r, i)
    case Const(i) => if i < |m.k| then m.k[i] else Nil
  }

  function Relate(m: Machine, rel: Relation, x: Value, y: Value): bool {
    match rel
    case EqR => m.eq(x, y)
    case LtR => m.lt(x, y)
    case LeR => m.le(x, y)
  }

  /** Instructions that decide whether the jump after them is taken. */
  predicate IsTest(i: Instr) { i.Compare? || i.Test? || i.TestSet? }

  predicate Taken(m: Machine, i: Instr, r: Regs)
    requires IsTest(i)
  {
    match i
    case Compare(rel, cond, x, y) => Relate(m, rel, Operate(m, r, x), Operate(m, r, y)) == cond
    case Test(b, c) => IsFalse(Get(r, b)) != c
    case TestSet(a, b, c) => IsFalse(Get(r, b)) != c
  }

  /** The value a taken test copies, if any. */
  function Kept(i: Instr, r: Regs): Option<Value> {
    if i.TestSet? then Some(Get(r, i.b)) else None
  }

  function Effect(i: Instr, r: Regs): Regs {
    if i.TestSet? then Set(r, i.a, Get(r, i.b)) else r
  }

  function NilRange(r: Regs, a: int, b: int): (q: Regs)
    ensures forall j :: Get(q, j) == if a <= j <= b then Nil else Get(r, j)
    decreases b - a
  {
    if a > b then r else Set(NilRange(r, a, b - 1), b, Nil)
  }

  predicate IsPlain(i: Instr) {
    !IsTest(i) && !i.Jmp? && !(i.LoadBool? && i.skip)
  }

  function Result(m: Machine, i: Instr, r: Regs): Value
    requires i.Move? || i.LoadK? || i.LoadBool? || i.GetUpval? || i.NotI?
  {
    match i
    case Move(a, b) => Get(r, b)
    case LoadK(a, k) => Operate(m, r, Const(k))
    case LoadBool(a, v, skip) => Bool(v)
    case GetUpval(a, u) => m.up(u)
    case NotI(a, b) => Bool(IsFalse(Get(r, b)))
  }

  function Perform(m: Machine, i: Instr, r: Regs): Regs
    requires !IsTest(i) && !i.Jmp?
  {
    if i.LoadNil? then NilRange(r, i.a, i.b) else Set(r, i.a, Result(m, i, r))
  }

  /** The end of the code is reached, a pending jump is taken, or there is no next instruction. */
  datatype Outcome = Here(r: Regs) | Exit(jump: nat, kept: Option<Value>, r: Regs) | Stuck

  /** luaV_execute from pc; a test runs together with the jump behind it. */
  function Exec(m: Machine, code: seq<Instr>, pc: nat, r: Regs): Outcome
    requires pc <= |code|
    decreases |code| - pc
  {
    if pc == |code| then Here(r)
    else
      var i := code[pc];
      if i.Jmp? then
        if i.dest.Open? then Exit(pc, None, r) else Follow(m, code, pc, i.dest.pc, r)
      else if IsTest(i) then
        if pc + 1 < |code| && code[pc+1].Jmp? then
          if !Taken(m, i, r) then Exec(m, code, pc + 2, r)
          else if code[pc+1].dest.Open? then Exit(pc + 1, Kept(i, r), r)
          else Follow(m, code, pc, code[pc+1].dest.pc, Effect(i, r))
        else Stuck
      else Follow(m, code, pc, if i.LoadBool? && i.skip then pc + 2 else pc + 1, Perform(m, i, r))
  }

  function Follow(m: Machine, code: seq<Instr>, pc: nat, dest: nat, r: Regs): Outcome
    requires pc < |code|
    decreases |code| - pc, 0
  {
    if pc < dest <= |code| then Exec(m, code, dest, r) else Stuck
  }

  // ---------- Well-formed code ----------

  /** No test stands right before pc, so that pc is not the jump of a test. */
  predicate Free(code: seq<Instr>, pc: nat) {
    pc <= |code| && (pc > 0 ==> !IsTest(code[pc-1]))
  }

  predicate InstrOk(code: seq<Instr>, i: nat)
    requires i < |code|
  {
    && (IsTest(code[i]) ==> i + 1 < |code| && code[i+1].Jmp?)
    && (code[i].LoadBool? && code[i].skip ==> Free(code, i + 2))
    && (code[i].Jmp? && code[i].dest.To? ==> i < code[i].dest.pc && Free(code, code[i].dest.pc))
  }

  ghost predicate CodeOk(code: seq<Instr>) {
    forall i :: 0 <= i < |code| ==> InstrOk(code, i)
  }

  /** Running on when the code grows. */
  lemma {:induction false} ExecAppend(m: Machine, code: seq<Instr>, more: seq<Instr>, pc: nat, r: Regs)
    requires CodeOk(code) && pc <= |code|
    ensures Exec(m, code + more, pc, r) ==
            match Exec(m, code, pc, r)
            case Here(r1) => Exec(m, code + more, |code|, r1)
            case o => o
    decreases |code| - pc
  {
    if pc < |code| {
      assert InstrOk(code, pc);
      var i := code[pc];
      assert (code + more)[pc] == i;
      if i.Jmp? {
        if i.dest.To? {
          ExecAppend(m, code, more, i.dest.pc, r);
        }
      } else if IsTest(i) {
        assert (code + more)[pc+1] == code[pc+1];
        if !Taken(m, i, r) {
          ExecAppend(m, code, more, pc + 2, r);
        } else if code[pc+1].dest.To? {
          assert InstrOk(code, pc + 1);
          ExecAppend(m, code, more, code[pc+1].dest.pc, Effect(i, r));
        }
      } else {
        ExecAppend(m, code, more, if i.LoadBool? && i.skip then pc + 2 else pc + 1, Perform(m, i, r));
      }
    }
  }
}
