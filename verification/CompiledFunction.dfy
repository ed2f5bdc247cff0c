/** From expression to stored code to value: the generator and the machine together. */
module CompiledFunction {
  import opened LuaVm
  import opened JumpLists
  import opened CodeGen
  import opened CodeGenSteps
  import opened CodeGenExp
  import opened CodeGenCorrect
  import opened CodeGenLimits
  import opened FuncStateObject
  import opened GeneratedCode
  import O = Opcodes
  import K = CodeChecker

  /** luaV_execute on stored instructions: a jump adds its offset. */
  function ExecWords(m: Machine, words: seq<Word>, pc: nat, r: Regs): Outcome
    requires pc <= |words|
    decreases |words| - pc
  {
    if pc == |words| then Here(r)
    else if words[pc].Offset? then GoTo(m, words, pc, pc + 1 + words[pc].sbx, r)
    else
      var i := words[pc].i;
      if i.Jmp? then Stuck
      else if IsTest(i) then
        if pc + 1 < |words| && words[pc+1].Offset? then
          if !Taken(m, i, r) then ExecWords(m, words, pc + 2, r)
          else GoTo(m, words, pc, pc + 2 + words[pc+1].sbx, Effect(i, r))
        else Stuck
      else GoTo(m, words, pc, if i.LoadBool? && i.skip then pc + 2 else pc + 1, Perform(m, i, r))
  }

  function GoTo(m: Machine, words: seq<Word>, pc: nat, dest: int, r: Regs): Outcome
    requires pc < |words|
    decreases |words| - pc, 0
  {
    if pc < dest <= |words| then ExecWords(m, words, dest, r) else Stuck
  }

  /** A run that takes no pending jump is the run of the stored code. */
  lemma {:induction false} WordsRun(m: Machine, words: seq<Word>, code: seq<Instr>, pc: nat, r: Regs)
    requires SameCode(words, code) && pc <= |code| && Exec(m, code, pc, r).Here?
    ensures ExecWords(m, words, pc, r) == Exec(m, code, pc, r)
    decreases |code| - pc
  {
    if pc < |code| {
      assert SameWord(words[pc], code[pc], pc);
      var i := code[pc];
      if i.Jmp? {
        WordsRun(m, words, code, i.dest.pc, r);
      } else if IsTest(i) {
        assert SameWord(words[pc+1], code[pc+1], pc + 1);
        if !Taken(m, i, r) {
          WordsRun(m, words, code, pc + 2, r);
        } else {
          WordsRun(m, words, code, code[pc+1].dest.pc, Effect(i, r));
        }
      } else {
        WordsRun(m, words, code, if i.LoadBool? && i.skip then pc + 2 else pc + 1, Perform(m, i, r));
      }
    }
  }

  /** The stored code of an expression computes its value. */
  ghost predicate ComputesValue(m: Machine, words: seq<Word>, params: nat, x: Expr, r: Regs) {
    var o := ExecWords(m, words, 0, r);
    o.Here? && Get(o.r, params) == Eval(m, x, r) && Agree(params, r, o.r)
  }

  lemma StoredValue(m: Machine, words: seq<Word>, params: nat, x: Expr, r: Regs)
    requires InScope(x, params) && Settled(Start(params), x) && AtCall(params, r)
    requires var u := Exp2NextReg(Compile(Start(params), x).s, Compile(Start(params), x).e).0;
      SameCode(words, Discharge(u).code) && u.k <= m.k
    ensures ComputesValue(m, words, params, x, r)
  {
    hide StateOk, Compile, CodeGen.Exp2NextReg, Discharge, Eval, FreshRegs, SameCode, Settled;
    var s := Start(params);
    var u := CodeGen.Exp2NextReg(Compile(s, x).s, Compile(s, x).e).0;
    FirstValue(m, params, x, r);
    StartOk(params, r);
    ValueInRegister(m, s, x, 0, r);
    DischargeRun(m, u, 0, r);
    WordsRun(m, words, Discharge(u).code, 0, r);
  }

  lemma StartOk(params: nat, r: Regs)
    ensures StateOk(Start(params)) && Entry(Start(params), 0)
    ensures AtCall(params, r) ==> FreshRegs(Start(params), r)
  {}

  /** Compiles an expression as the first of a function, up to the place where the next
      instruction is emitted.  With a return behind it the code passes the bytecode checker. */
  method CompileFirst(params: nat, x: Expr) returns (fs: FuncState)
    requires InScope(x, params)
    ensures fresh(fs)
    ensures fs.freereg == params + 1
    ensures Settled(Start(params), x) ==>
              forall m: Machine, r: Regs :: fs.k <= m.k && AtCall(params, r) ==> ComputesValue(m, fs.code, params, x, r)
    ensures forall k: seq<K.Constant>, ups: nat, stack: nat ::
              2 <= stack <= O.MAXSTACK && params <= stack && WordsInRange(fs.code, stack, |k|, ups) ==>
                K.Accepts(Prototype(fs.code, k, ups, params, stack))
  {
    hide Compile, StateOk, CodeGen.Exp2NextReg, Discharge, Built, SameCode, Threaded, ComputesValue, AtCall, Settled, WordsInRange,
      Prototype, K.Accepts, CodeOk, Resolved;
    fs := new FuncState(params);
    ghost var s := Start(params);
    assert StateOk(s) by { StartOk(params, map[]); }
    CompileBuilds(s, x);
    var e := fs.CodeExpr(x, s);
    ghost var c := Compile(s, x);
    BuiltParts(s, c.s, c.e);
    e := fs.Exp2NextReg(e, c.s, c.e);
    Exp2NextRegOk(c.s, c.e);
    ghost var u := CodeGen.Exp2NextReg(c.s, c.e).0;
    fs.DischargeJpc(u);
    DischargeKeeps(u);
    assert fs.code == fs.code[..|Discharge(u).code|];
    FinishedCode(params, x);
    forall k: seq<K.Constant>, ups: nat, stack: nat |
      2 <= stack <= O.MAXSTACK && params <= stack && WordsInRange(fs.code, stack, |k|, ups)
      ensures K.Accepts(Prototype(fs.code, k, ups, params, stack))
    {
      CodeAccepted(fs.code, Discharge(u).code, k, ups, params, stack);
    }
    if Settled(s, x) {
      forall m: Machine, r: Regs | fs.k <= m.k && AtCall(params, r)
        ensures ComputesValue(m, fs.code, params, x, r)
      {
        StoredValue(m, fs.code, params, x, r);
      }
    }
  }

  lemma DischargeKeeps(s: State)
    ensures Discharge(s).k == s.k && Discharge(s).freereg == s.freereg
  {}
}
