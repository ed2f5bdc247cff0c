/** What the code generator computes for expressions.  The instruction of an expression that
    can still be relocated, and the comparison of one that is still a jump, are kept in the
    description of the expression; the code holds everything before them. */
module CodeGen {
  import opened Options
  import opened LuaVm
  import opened JumpPatch

  const MAXINDEXRK := 255

  datatype Kind =
    | VNil | VTrue | VFalse
    | VK(i: nat) | VKNum(n: int)
    | VLocal(r: nat) | VUpval(u: nat)
    | VNonReloc(r: nat)
    | VReloc(op: Reloc)       // any register can take the result
    | VJmp(test: Comparison)  // true when the jump behind the comparison is taken

  datatype Reloc = UpvalOf(u: nat) | NotOf(b: nat)

  datatype Comparison = Comparison(rel: Relation, cond: bool, x: Operand, y: Operand)

  /** The jumps in t leave with a true value, those in f with a false one. */
  datatype Exp = Exp(k: Kind, t: seq<nat>, f: seq<nat>)

  /** jpc lists the pending jumps to the next instruction. */
  datatype State = State(code: seq<Instr>, jpc: seq<nat>, lasttarget: int, freereg: nat, nactvar: nat, k: seq<Value>)

  // ---------- Emitting ----------

  function Discharge(s: State): State {
    s.(code := Patch(s.code, s.jpc, |s.code|, NO_REG, |s.code|), jpc := [])
  }

  function Emit(s: State, i: Instr): State {
    var d := Discharge(s);
    d.(code := d.code + [i])
  }

  /** condjump: the test and its jump, which is at |s.code| + 1. */
  function CondJump(s: State, i: Instr): (u: State)
    ensures |u.code| == |s.code| + 2
  {
    var d := Emit(s, i);
    d.(code := d.code + [Jmp(Open)])
  }

  /** luaK_jump: pending jumps to here go where the new jump goes. */
  function JumpState(s: State): State { s.(code := s.code + [Jmp(Open)], jpc := []) }
  function JumpList(s: State): seq<nat> { [|s.code|] + s.jpc }

  function Label(s: State): State { s.(lasttarget := |s.code|) }

  /** luaK_patchtohere. */
  function ToHere(s: State, list: seq<nat>): State { Label(s).(jpc := s.jpc + list) }

  function PatchList(s: State, list: seq<nat>, vtarget: nat, reg: int, dtarget: nat): State {
    s.(code := Patch(s.code, list, vtarget, reg, dtarget))
  }

  // ---------- Registers and constants ----------

  function FreeReg(s: State, r: nat): State {
    if r >= s.nactvar && s.freereg > 0 then s.(freereg := s.freereg - 1) else s
  }

  function FreeExp(s: State, k: Kind): State { if k.VNonReloc? then FreeReg(s, k.r) else s }

  function Reserve(s: State): State { s.(freereg := s.freereg + 1) }

  function IndexOf(k: seq<Value>, v: Value): (i: nat)
    ensures i <= |k| && (i < |k| ==> k[i] == v)
  {
    if k == [] then 0 else if k[0] == v then 0 else 1 + IndexOf(k[1..], v)
  }

  /** addk: constants are entered once. */
  function AddK(s: State, v: Value): State {
    if IndexOf(s.k, v) < |s.k| then s else s.(k := s.k + [v])
  }

  // ---------- Loading values ----------

  predicate HasJumps(e: Exp) { e.t != [] || e.f != [] }

  /** luaK_nil for one register: skipped on a fresh register at the start of the function,
      and joined with a LOADNIL right before it when no jump comes in between. */
  function LoadNilAt(s: State, reg: nat): State {
    var n := |s.code|;
    if n > s.lasttarget && n == 0 && reg >= s.nactvar then s
    else if n > s.lasttarget && n > 0 && s.code[n-1].LoadNil? && s.code[n-1].a <= reg <= s.code[n-1].b + 1 then
      s.(code := s.code[..n-1] + [LoadNil(s.code[n-1].a, if reg > s.code[n-1].b then reg else s.code[n-1].b)])
    else Emit(s, LoadNil(reg, reg))
  }

  function DischargeVars(s: State, e: Exp): (State, Exp) {
    match e.k
    case VLocal(r) => (s, e.(k := VNonReloc(r)))
    case VUpval(u) => (Discharge(s), e.(k := VReloc(UpvalOf(u))))
    case _ => (s, e)
  }

  function Relocate(op: Reloc, reg: nat): Instr {
    match op
    case UpvalOf(u) => GetUpval(reg, u)
    case NotOf(b) => NotI(reg, b)
  }

  function TestInstr(c: Comparison): Instr { Compare(c.rel, c.cond, c.x, c.y) }

  /** discharge2reg after luaK_dischargevars. */
  function Load(s: State, k: Kind, reg: nat): State
  {
    match k
    case VNil => LoadNilAt(s, reg)
    case VTrue => Emit(s, LoadBool(reg, true, false))
    case VFalse => Emit(s, LoadBool(reg, false, false))
    case VK(i) => Emit(s, LoadK(reg, i))
    case VKNum(n) => Emit(AddK(s, Number(n)), LoadK(reg, IndexOf(s.k, Number(n))))
    case VReloc(op) => Emit(s, Relocate(op, reg))
    case VNonReloc(r) => if r != reg then Emit(s, Move(reg, r)) else s
    case VJmp(_) | VLocal(_) | VUpval(_) => s
  }

  function Discharge2AnyReg(s: State, k: Kind): (State, nat)
  {
    if k.VNonReloc? then (s, k.r) else (Load(Reserve(s), k, s.freereg), s.freereg)
  }

  /** Some jump of the list does not bring its value along. */
  predicate NeedValue(code: seq<Instr>, list: seq<nat>) {
    exists j | j in list :: !KeepsValue(code, j)
  }

  /** The two places that jumps without a value go to: LOADBOOL false, skipping LOADBOOL true. */
  function AddLoads(s: State, reg: nat): State {
    s.(code := s.code + [LoadBool(reg, false, true), LoadBool(reg, true, false)])
  }

  /** exp2reg on an expression whose own value is in reg, or false when it was a jump. */
  function CloseLists(s: State, t: seq<nat>, f: seq<nat>, reg: nat, wasJump: bool): State {
    if t == [] && f == [] then s
    else if NeedValue(s.code, t) || NeedValue(s.code, f) then
      var s1 := AddLoads(if wasJump then s else JumpState(s), reg);
      var n := |s1.code|;
      var s2 := if wasJump then Label(s1) else ToHere(s1, JumpList(s));
      PatchList(PatchList(s2, f, n, reg, n - 2), t, n, reg, n - 1)
    else
      var n := |s.code|;
      PatchList(PatchList(Label(s), f, n, reg, n), t, n, reg, n)
  }

  function Exp2Reg(s: State, e: Exp, reg: nat): State
  {
    if e.k.VJmp? then CloseLists(CondJump(s, TestInstr(e.k.test)), e.t + [|s.code| + 1], e.f, reg, true)
    else CloseLists(Load(s, e.k, reg), e.t, e.f, reg, false)
  }

  function Exp2NextReg(s: State, e: Exp): (State, Exp)
  {
    var (s1, e1) := DischargeVars(s, e);
    var s2 := FreeExp(s1, e1.k);
    (Exp2Reg(Reserve(s2), e1, s2.freereg), Exp(VNonReloc(s2.freereg), [], []))
  }

  function Exp2AnyReg(s: State, e: Exp): (State, Exp)
  {
    var (s1, e1) := DischargeVars(s, e);
    if e1.k.VNonReloc? && !HasJumps(e1) then (s1, e1)
    else if e1.k.VNonReloc? && e1.k.r >= s1.nactvar then (Exp2Reg(s1, e1, e1.k.r), Exp(e1.k, [], []))
    else Exp2NextReg(s1, e1)
  }

  function Exp2Val(s: State, e: Exp): (State, Exp)
  {
    if HasJumps(e) then Exp2AnyReg(s, e) else DischargeVars(s, e)
  }

  /** The constant an expression stands for, if it is one without an entry in the constant table. */
  function ConstantOf(k: Kind): Option<Value> {
    match k
    case VKNum(n) => Some(Number(n))
    case VTrue => Some(Bool(true))
    case VFalse => Some(Bool(false))
    case VNil => Some(Nil)
    case _ => None
  }

  function Exp2RK(s: State, e: Exp): (State, Exp)
  {
    var (s1, e1) := Exp2Val(s, e);
    if ConstantOf(e1.k).Some? && |s1.k| <= MAXINDEXRK then
      var v := ConstantOf(e1.k).value;
      (AddK(s1, v), e1.(k := VK(IndexOf(s1.k, v))))
    else if e1.k.VK? && e1.k.i <= MAXINDEXRK then (s1, e1)
    else Exp2AnyReg(s1, e1)
  }

  function OperandOf(k: Kind): Operand {
    match k
    case VK(i) => Const(i)
    case VNonReloc(r) => Reg(r)
    case _ => Const(0)
  }

  // ---------- Conditions ----------

  function Invert(c: Comparison): Comparison { c.(cond := !c.cond) }

  /** jumponcond: a NOT is taken back and the test turned round. */
  function JumpOnCond(s: State, k: Kind, cond: bool): (u: State)
    ensures |u.code| > 1
  {
    if k.VReloc? && k.op.NotOf? then CondJump(s, Test(k.op.b, !cond))
    else
      var (s1, r) := Discharge2AnyReg(s, k);
      CondJump(FreeReg(s1, r), TestSet(NO_REG, r, cond))
  }

  /** Constants that need no jump; a VK is a string here and so true. */
  predicate KnownNot(k: Kind, cond: bool) {
    if cond then k.VNil? || k.VFalse? else k.VK? || k.VKNum? || k.VTrue?
  }

  /** The jump of luaK_goiftrue (cond false) and luaK_goiffalse (cond true): taken when the
      value is true just as cond.  Constants need no jump, or one that is always taken. */
  function Branch(s: State, k: Kind, cond: bool): (State, seq<nat>) {
    if KnownNot(k, cond) then (s, [])
    else if k == (if cond then VTrue else VFalse) then (JumpState(s), JumpList(s))
    else if k.VJmp? then (CondJump(s, TestInstr(if cond then k.test else Invert(k.test))), [|s.code| + 1])
    else
      var u := JumpOnCond(s, k, cond);
      (u, [|u.code| - 1])
  }

  /** Falls through when the value is true; the jumps returned leave when it is false. */
  function GoIfTrue(s: State, e: Exp): (State, seq<nat>) {
    var (s1, e1) := DischargeVars(s, e);
    var (s2, list) := Branch(s1, e1.k, false);
    (ToHere(s2, e1.t), e1.f + list)
  }

  function GoIfFalse(s: State, e: Exp): (State, seq<nat>) {
    var (s1, e1) := DischargeVars(s, e);
    var (s2, list) := Branch(s1, e1.k, true);
    (ToHere(s2, e1.f), e1.t + list)
  }

  /** Some jump pending to here brings a value along. */
  predicate ValuePending(s: State) { exists j :: j in s.jpc && KeepsValue(s.code, j) }

  /** A bare jump would take over the pending jumps to here, one of them with a value. */
  predicate AdoptsJumps(s: State, k: Kind, always: Kind) { k == always && ValuePending(s) }

  /** codenot: the value, then the lists. */
  function NotValue(s: State, k: Kind): (State, Kind)
  {
    match k
    case VNil | VFalse => (s, VTrue)
    case VK(_) | VKNum(_) | VTrue => (s, VFalse)
    case VJmp(test) => (s, VJmp(Invert(test)))
    case _ =>
      var (s1, r) := Discharge2AnyReg(s, k);
      (Discharge(FreeReg(s1, r)), VReloc(NotOf(r)))
  }

  function CodeNot(s: State, e: Exp): (State, Exp)
  {
    var (s1, e1) := DischargeVars(s, e);
    var (s2, k) := NotValue(s1, e1.k);
    (s2.(code := DropValues(DropValues(s2.code, e1.t), e1.f)), Exp(k, e1.f, e1.t))
  }

  // ---------- Expressions ----------

  datatype Cmp = Eq | Ne | Lt | Le | Gt | Ge

  datatype Expr =
    | NilE | TrueE | FalseE | Num(n: int) | Str(s: string)
    | Local(r: nat) | Upval(u: nat)
    | Paren(e: Expr) | Not(e: Expr)
    | And(l: Expr, r2: Expr) | Or(l: Expr, r2: Expr)
    | Compar(op: Cmp, l: Expr, r2: Expr)

  /** codecomp: > and >= exchange their operands. */
  function TestOf(op: Cmp, a: Operand, b: Operand): Comparison {
    match op
    case Eq => Comparison(EqR, true, a, b)
    case Ne => Comparison(EqR, false, a, b)
    case Lt => Comparison(LtR, true, a, b)
    case Le => Comparison(LeR, true, a, b)
    case Gt => Comparison(LtR, true, b, a)
    case Ge => Comparison(LeR, true, b, a)
  }

  /** The state, the description of the expression, and whether every bare jump was emitted
      when no jump pending to the same place brought a value. */
  datatype Compiled = Compiled(s: State, e: Exp, clean: bool)

  function Plain(s: State, k: Kind): Compiled { Compiled(s, Exp(k, [], []), true) }

  /** luaK_posfix for a comparison whose operands are e1, already an operand, and e2. */
  function CodeComp(s: State, op: Cmp, k1: Kind, e2: Exp): (State, Exp) {
    var (s1, e3) := Exp2RK(s, e2);
    var s2 := FreeExp(FreeExp(s1, e3.k), k1);
    (Discharge(s2), Exp(VJmp(TestOf(op, OperandOf(k1), OperandOf(e3.k))), [], []))
  }

  /** subexpr and simpleexp on a parsed expression. */
  function Compile(s: State, x: Expr): Compiled
    decreases x
  {
    match x
    case NilE => Plain(s, VNil)
    case TrueE => Plain(s, VTrue)
    case FalseE => Plain(s, VFalse)
    case Num(n) => Plain(s, VKNum(n))
    case Str(t) => Plain(AddK(s, Text(t)), VK(IndexOf(s.k, Text(t))))
    case Local(r) => Plain(s, VLocal(r))
    case Upval(u) => Plain(s, VUpval(u))
    case Paren(y) =>
      var c := Compile(s, y);
      var (s1, e1) := DischargeVars(c.s, c.e);
      Compiled(s1, e1, c.clean)
    case Not(y) =>
      var c := Compile(s, y);
      var (s1, e1) := CodeNot(c.s, c.e);
      Compiled(s1, e1, c.clean)
    case And(l, y) =>
      var c := Compile(s, l);
      var (s1, f) := GoIfTrue(c.s, c.e);
      var d := Compile(s1, y);
      var (s2, e2) := DischargeVars(d.s, d.e);
      Compiled(s2, Exp(e2.k, e2.t, e2.f + f), c.clean && d.clean && !AdoptsJumps(c.s, c.e.k, VFalse))
    case Or(l, y) =>
      var c := Compile(s, l);
      var (s1, t) := GoIfFalse(c.s, c.e);
      var d := Compile(s1, y);
      var (s2, e2) := DischargeVars(d.s, d.e);
      Compiled(s2, Exp(e2.k, e2.t + t, e2.f), c.clean && d.clean && !AdoptsJumps(c.s, c.e.k, VTrue))
    case Compar(op, l, y) =>
      var c := Compile(s, l);
      var (s1, e1) := Exp2RK(c.s, c.e);
      var d := Compile(s1, y);
      var (s2, e2) := CodeComp(d.s, op, e1.k, d.e);
      Compiled(s2, e2, c.clean && d.clean)
  }

  // ---------- What expressions mean ----------

  function CompareValues(m: Machine, op: Cmp, a: Value, b: Value): bool {
    match op
    case Eq => m.eq(a, b)
    case Ne => !m.eq(a, b)
    case Lt => m.lt(a, b)
    case Le => m.le(a, b)
    case Gt => m.lt(b, a)
    case Ge => m.le(b, a)
  }

  /** Section 2.5 of the Lua 5.1 reference manual: `and' and `or' return one of their
      operands and evaluate the second only when they have to. */
  function Eval(m: Machine, x: Expr, r: Regs): Value {
    match x
    case NilE => Nil
    case TrueE => Bool(true)
    case FalseE => Bool(false)
    case Num(n) => Number(n)
    case Str(t) => Text(t)
    case Local(i) => Get(r, i)
    case Upval(u) => m.up(u)
    case Paren(y) => Eval(m, y, r)
    case Not(y) => Bool(IsFalse(Eval(m, y, r)))
    case And(l, y) => var v := Eval(m, l, r); if IsFalse(v) then v else Eval(m, y, r)
    case Or(l, y) => var v := Eval(m, l, r); if IsFalse(v) then Eval(m, y, r) else v
    case Compar(op, l, y) => Bool(CompareValues(m, op, Eval(m, l, r), Eval(m, y, r)))
  }

  /** Every local is one of the active variables. */
  predicate InScope(x: Expr, nactvar: nat) {
    match x
    case Local(i) => i < nactvar
    case Paren(y) => InScope(y, nactvar)
    case Not(y) => InScope(y, nactvar)
    case And(l, y) => InScope(l, nactvar) && InScope(y, nactvar)
    case Or(l, y) => InScope(l, nactvar) && InScope(y, nactvar)
    case Compar(op, l, y) => InScope(l, nactvar) && InScope(y, nactvar)
    case _ => true
  }
}
