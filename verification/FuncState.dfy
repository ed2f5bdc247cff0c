/** The code generator as it runs: code, jump lists and registers of a function are updated in place. */
module FuncStateObject {
  import opened Options
  import opened LuaVm
  import opened JumpPatch
  import opened JumpLists
  import opened CodeGen
  import opened CodeGenSteps
  import opened CodeGenLists
  import opened CodeGenExp
  import opened CodeGenCond
  import opened CodeGenNot
  import opened CodeGenCorrect

  // ---------- What the object stands for ----------

  /** The instructions a description of an expression keeps back are already stored. */
  function Tail(k: Kind): seq<Word> {
    match k
    case VReloc(op) => [Op(Relocate(op, 0))]
    case VJmp(c) => [Op(TestInstr(c)), Offset(NO_JUMP)]
    case _ => []
  }

  /** SETARG_A on an instruction that can be relocated. */
  function SetA(i: Instr, a: nat): Instr {
    match i
    case GetUpval(_, u) => GetUpval(a, u)
    case NotI(_, b) => NotI(a, b)
    case _ => i
  }

  /** expdesc: the lists by their first jumps, kept-back instructions by their position. */
  datatype EKind =
    | ENil | ETrue | EFalse | EK(i: nat) | ENum(n: int) | ELocal(r: nat) | EUpval(u: nat) | ENonReloc(r: nat)
    | ERelocable(pc: nat) | EJmp(pc: nat)

  datatype ExpDesc = ExpDesc(k: EKind, t: int, f: int)

  function KindAt(k: Kind, n: nat): EKind {
    match k
    case VNil => ENil
    case VTrue => ETrue
    case VFalse => EFalse
    case VK(i) => EK(i)
    case VKNum(v) => ENum(v)
    case VLocal(r) => ELocal(r)
    case VUpval(u) => EUpval(u)
    case VNonReloc(r) => ENonReloc(r)
    case VReloc(_) => ERelocable(n)
    case VJmp(_) => EJmp(n + 1)
  }

  /** Pending jumps that a step does not deal with are left as they are stored. */
  ghost predicate Keeps(c: seq<Word>, d: seq<Word>, s: State, done: seq<nat>) {
    |s.code| <= |c| && |s.code| <= |d|
    && forall j :: 0 <= j < |s.code| && s.code[j] == Jmp(Open) && j !in s.jpc && j !in done ==> d[j] == c[j]
  }

  lemma KeepsTrans(c: seq<Word>, d: seq<Word>, e: seq<Word>, s: State, u: State, done: seq<nat>)
    requires Keeps(c, d, s, done) && Keeps(d, e, u, []) && Frame(s, u, done)
    ensures Keeps(c, e, s, done)
  {}

  lemma KeepsList(c: seq<Word>, d: seq<Word>, s: State, done: seq<nat>, head: int, list: seq<nat>)
    requires Keeps(c, d, s, done) && Threaded(c, head, list)
    requires Pending(s.code, list) && Apart(list, s.jpc) && Apart(list, done)
    ensures Threaded(d, head, list)
  {
    ThreadedKept(c, d, head, list);
  }

  lemma PendingOnce(code: seq<Instr>, list: seq<nat>)
    requires Pending(code, list)
    ensures NoRepeat(list)
  {}

  lemma ExpLists(s: State, x: Exp)
    requires ExpOk(s, x)
    ensures Pending(s.code, x.t) && Pending(s.code, x.f) && Apart(x.t, x.f) && Apart(x.f, x.t)
    ensures Apart(x.t, s.jpc) && Apart(x.f, s.jpc) && Apart(x.t, []) && Apart(x.f, []) && KindOk(s, x.k)
  {}

  lemma NilJoined(s: State, from: nat, c: seq<Word>, d: seq<Word>)
    requires StateOk(s) && SameCode(c, s.code) && Joins(s, from)
    requires d == c[|c| - 1 := Op(Joined(s.code[|s.code|-1], from))]
    ensures SameCode(d, LoadNilAt(s, from).code) && LoadNilAt(s, from) == s.(code := LoadNilAt(s, from).code)
    ensures Keeps(c, d, s, []) && s.jpc == []
  {
    var u := LoadNilAt(s, from);
    forall i | 0 <= i < |u.code|
      ensures SameWord(d[i], u.code[i], i)
    {
      assert SameWord(c[i], s.code[i], i);
    }
  }

  /** Without jumps to here, emitting only appends. */
  lemma EmitAtEnd(s: State, i: Instr)
    requires s.jpc == []
    ensures Emit(s, i) == s.(code := s.code + [i])
  {
    assert Patch(s.code, [], |s.code|, NO_REG, |s.code|) == s.code;
  }

  lemma StoredLast(c: seq<Word>, code: seq<Instr>, i: Instr)
    requires SameCode(c, code) && !i.Jmp?
    ensures SameCode(c + [Op(i)], code + [i])
  {
    forall p | 0 <= p < |code| + 1
      ensures SameWord((c + [Op(i)])[p], (code + [i])[p], p)
    {
      if p < |code| {
        assert SameWord(c[p], code[p], p);
      }
    }
  }

  lemma NoneThere(c: seq<Word>, head: int)
    requires head == NO_JUMP
    ensures Threaded(c, head, [])
  {}

  lemma LoadsStored(c: seq<Word>, s: State, reg: nat)
    requires |c| == |s.code| && SameCode(c[..|s.code|], s.code)
    ensures SameCode(c + [Op(LoadBool(reg, false, true)), Op(LoadBool(reg, true, false))], AddLoads(s, reg).code)
  {
    var d := c + [Op(LoadBool(reg, false, true)), Op(LoadBool(reg, true, false))];
    forall p | 0 <= p < |d|
      ensures SameWord(d[p], AddLoads(s, reg).code[p], p)
    {
      if p < |c| {
        assert SameWord(c[..|s.code|][p], s.code[p], p);
      }
    }
  }

  /** The list of the jump over the loads is still threaded behind them. */
  lemma LoadsAfterJump(s: State, d: seq<Word>, e: seq<Word>, fj: int, reg: nat)
    requires StateOk(s) && Threaded(d, fj, JumpList(s)) && |d| == |s.code| + 1 && |e| == |d| + 2 && e[..|d|] == d
    ensures var l := AddLoads(JumpState(s), reg);
      Threaded(e, fj, JumpList(s)) && Pending(l.code, JumpList(s))
  {
    JumpOk(s);
    ThreadedIn(d, fj, JumpList(s));
    ThreadedKept(d, e, fj, JumpList(s));
  }

  /** Lists without a common jump start at the same place only when both are empty. */
  lemma HeadsDiffer(c: seq<Word>, t: int, ts: seq<nat>, f: int, fs: seq<nat>)
    requires Threaded(c, t, ts) && Threaded(c, f, fs)
    ensures Apart(ts, fs) ==> (t != f <==> (ts != [] || fs != []))
  {
    if ts != [] && fs != [] && t == f {
      assert ts[0] in ts && fs[0] in fs;
    }
  }

  lemma NeedStored(c: seq<Word>, s: State, list: seq<nat>)
    requires |c| == |s.code| && SameCode(c[..|s.code|], s.code) && Pending(s.code, list)
    ensures NeedValue(s.code, list) <==> exists j :: j in list && !(1 <= j <= |c| && IsTestSetWord(c[j-1]))
  {
    forall j | j in list
      ensures KeepsValue(s.code, j) <==> 1 <= j <= |c| && IsTestSetWord(c[j-1])
    {
      if j >= 1 {
        assert SameWord(c[..|s.code|][j-1], s.code[j-1], j - 1);
      }
    }
  }

  lemma KeepsVia(c: seq<Word>, d: seq<Word>, e: seq<Word>, s: State, u: State, a: seq<nat>, b: seq<nat>)
    requires Keeps(c, d, s, []) && Keeps(d, e, u, a) && Frame(s, u, []) && forall j :: j in a ==> j in b
    ensures Keeps(c, e, s, b)
  {}

  /** No list has a jump without value when none needs the loads. */
  lemma AllKeep(code: seq<Instr>, list: seq<nat>)
    requires !NeedValue(code, list)
    ensures forall j :: j in list ==> KeepsValue(code, j)
  {}

  lemma LoadsParts(u: State, t: seq<nat>, f: seq<nat>, reg: nat, pf: nat, pt: nat)
    requires LoadsReady(u, t, f, reg, pf, pt)
    ensures StateOk(u) && ListsOk(u, t, f) && u.lasttarget == |u.code|
  {}

  lemma OpenedLabel(s: State, reg: nat, wasJump: bool)
    ensures Opened(s, reg, wasJump).lasttarget == |Opened(s, reg, wasJump).code|
  {}

  /** Adding the loads changes the tests of no list. */
  lemma NeedSame(s: State, t: seq<nat>, f: seq<nat>, reg: nat, wasJump: bool, list: seq<nat>)
    requires Pending(s.code, list)
    ensures forall j :: j in list ==> (KeepsValue(Ready(s, t, f, reg, wasJump).code, j) <==> KeepsValue(s.code, j))
  {}

  lemma NoneIn(a: seq<nat>)
    ensures Apart(a, [])
  {}

  lemma CloseNone(s: State, t: seq<nat>, f: seq<nat>, reg: nat, wasJump: bool)
    requires t == [] && f == []
    ensures CloseLists(s, t, f, reg, wasJump) == s
  {}

  lemma KeepsTwo(c: seq<Word>, d: seq<Word>, e: seq<Word>, u: State, v: State, a: seq<nat>, b: seq<nat>)
    requires Keeps(c, d, u, a) && Keeps(d, e, v, b) && v == u.(code := v.code) && |v.code| == |u.code|
    requires forall j :: 0 <= j < |u.code| && u.code[j] == Jmp(Open) && j !in a ==> v.code[j] == Jmp(Open)
    ensures Keeps(c, e, u, a + b)
  {}

  lemma PatchOpen(u: State, list: seq<nat>, vtarget: nat, reg: int, dtarget: nat)
    ensures var v := PatchList(u, list, vtarget, reg, dtarget);
      |v.code| == |u.code| && v == u.(code := v.code)
      && forall j :: 0 <= j < |u.code| && u.code[j] == Jmp(Open) && j !in list ==> v.code[j] == Jmp(Open)
  {
    var v := PatchList(u, list, vtarget, reg, dtarget);
    forall j | 0 <= j < |u.code| && u.code[j] == Jmp(Open) && j !in list
      ensures v.code[j] == Jmp(Open)
    {
      assert v.code[j] == PatchedAt(u.code, j, list, vtarget, reg, dtarget);
    }
  }

  /** An expression that is a jump, seen as code with its jump pending. */
  lemma StoredJump(s: State, x: Exp, c: seq<Word>)
    requires x.k.VJmp? && s.jpc == [] && |c| == |s.code| + 2 && SameCode(c[..|s.code|], s.code) && c[|s.code|..] == Tail(x.k)
    ensures var u := CondJump(s, TestInstr(x.k.test));
      && |u.code| == |c| && SameCode(c[..|u.code|], u.code) && c[|u.code|..] == [] && u.jpc == []
      && u == s.(code := u.code) && Threaded(c, |s.code| + 1, [|s.code| + 1])
  {
    EmitAtEnd(s, TestInstr(x.k.test));
    var u := CondJump(s, TestInstr(x.k.test));
    assert c[|s.code|..][0] == Op(TestInstr(x.k.test)) && c[|s.code|..][1] == Offset(NO_JUMP);
    assert c[..|u.code|] == c;
    forall p | 0 <= p < |u.code|
      ensures SameWord(c[p], u.code[p], p)
    {
      if p < |s.code| {
        assert SameWord(c[..|s.code|][p], s.code[p], p);
      }
    }
    assert NextJump(c, |s.code| + 1) == NO_JUMP;
  }

  lemma JumpKeeps(s: State, u: State, c: seq<Word>, d: seq<Word>, d1: seq<Word>, e: seq<Word>, x: Exp)
    requires ExpOk(s, x) && Frame(s, u, []) && Keeps(c, d, s, [])
    requires Keeps(d, d1, u, x.t + [|s.code| + 1]) && Keeps(d1, e, u, x.t + [|s.code| + 1] + x.f)
    ensures Keeps(c, e, s, x.t + x.f)
  {}

  lemma PendingHalves(code: seq<Instr>, a: seq<nat>, b: seq<nat>)
    requires Pending(code, a + b)
    ensures NoRepeat(a) && (forall j :: j in a ==> j !in b) && forall j :: j in a || j in b ==> j < |code|
  {
    var c := a + b;
    forall j | j in a
      ensures j !in b && j < |code|
    {
      assert j in c;
      var x :| 0 <= x < |a| && a[x] == j;
      forall y | 0 <= y < |b|
        ensures b[y] != j
      {
        assert c[x] != c[|a| + y];
      }
    }
    assert forall x :: 0 <= x < |a| ==> c[x] == a[x];
    assert forall j :: j in b ==> j in c;
  }

  lemma LastOf(a: seq<nat>, b: seq<nat>)
    ensures a != [] ==> a[|a|-1] in a + b
  {}

  lemma SameConcat(c: seq<Word>, d: seq<Word>, code: seq<Instr>, list: seq<nat>)
    requires SameCode(c, code) && |d| == |c| && Pending(code, list)
    requires forall j :: 0 <= j < |c| && j !in list ==> d[j] == c[j]
    requires forall j :: 0 <= j < |c| && c[j].Offset? ==> d[j].Offset?
    ensures SameCode(d, code)
  {
    forall p | 0 <= p < |code|
      ensures SameWord(d[p], code[p], p)
    {
      assert SameWord(c[p], code[p], p);
    }
  }

  lemma KindRegs(s: State, x: Exp)
    requires ExpOk(s, x)
    ensures x.k.VNonReloc? ==> x.k.r >= s.nactvar ==> x.k.r + 1 == s.freereg
  {}

  lemma FreedIsNow(s: State, k: Kind)
    requires k.VNonReloc? ==> k.r >= s.nactvar ==> k.r + 1 == s.freereg
    ensures FreeExp(s, k) == s.(freereg := if k.VNonReloc? && k.r >= s.nactvar then k.r else s.freereg)
  {}

  lemma KeepsTrans2(c: seq<Word>, d: seq<Word>, e: seq<Word>, s: State, u: State, x: Exp, y: Exp)
    requires Keeps(c, d, s, x.t + x.f) && Keeps(d, e, u, y.t + y.f) && Frame(s, u, x.t + x.f) && !HasJumps(y)
    ensures Keeps(c, e, s, x.t + x.f)
  {
    assert y.t + y.f == [];
  }

  lemma ReservedExp(s: State, x: Exp)
    requires ExpOk(s, x) && !x.k.VNonReloc?
    ensures ExpOk(Reserve(s), x)
  {}

  lemma AnyRegFree(s: State, k: Kind)
    requires StateOk(s) && KindOk(s, k) && Loadable(k)
    ensures var (s1, r) := Discharge2AnyReg(s, k);
      (r >= s1.nactvar ==> r + 1 == s1.freereg) && FreeReg(s1, r) == s1.(freereg := if r >= s1.nactvar then r else s1.freereg)
  {
    hide StateOk, Load, Frame;
    StateNact(s);
    if !k.VNonReloc? {
      RegsOnly(s, s.freereg + 1);
      LoadOk(Reserve(s), k, s.freereg);
      FrameK(Reserve(s), Load(Reserve(s), k, s.freereg), []);
    }
  }

  /** The stored NOT taken away, the object shows the code before it. */
  lemma PoppedShows(s: State, x: Exp, c: seq<Word>, d: seq<Word>, e: ExpDesc, head: int)
    requires x.k.VReloc? && s.jpc == [] && |c| == |s.code| + 1 && SameCode(c[..|s.code|], s.code) && c[|s.code|..] == Tail(x.k)
    requires Threaded(c, head, s.jpc) && d == c[..|c|-1] && e.k == ERelocable(|s.code|) && c[|s.code|].Op? && c[|s.code|].i.NotI?
    ensures d == d[..|s.code|] && SameCode(d[..|s.code|], s.code) && d[|s.code|..] == []
    ensures Threaded(d, head, s.jpc) && x.k.op == NotOf(x.k.op.b) && x.k.op.NotOf? && c[|s.code|].i.b == x.k.op.b
  {
    assert c[|s.code|..][0] == c[|s.code|];
    assert d[..|s.code|] == c[..|s.code|];
  }

  lemma PoppedKeeps(c: seq<Word>, d: seq<Word>, s: State, x: Exp)
    requires |c| == |s.code| + 1 && s.jpc == [] && Keeps(c[..|c|-1], d, s, [])
    ensures Keeps(c, d, s, [])
  {}

  lemma ThreadedTail(c: seq<Word>, d: seq<Word>, s: State, head: int, list: seq<nat>)
    requires Threaded(c, head, list) && |d| == |c| && list == []
    ensures Threaded(d, head, list)
  {}

  lemma KeepsJpc(c: seq<Word>, d: seq<Word>, s: State)
    requires Keeps(c, d, s, s.jpc)
    ensures Keeps(c, d, s, [])
  {}

  /** The new jump and the lists of the expression. */
  lemma BranchLists(s: State, x: Exp, cond: bool)
    requires StateOk(s) && ExpOk(s, x) && !x.k.VLocal? && !x.k.VUpval?
    ensures var (u, list) := Branch(s, x.k, cond);
      && Pending(u.code, x.t) && Pending(u.code, x.f) && Apart(x.t, u.jpc) && Apart(x.f, u.jpc)
      && Pending(u.code, x.f + list) && Pending(u.code, x.t + list)
      && Apart(x.f + list, u.jpc) && Apart(x.t + list, u.jpc) && Apart(x.t, x.f + list) && Apart(x.f, x.t + list)
      && Apart(x.f + list, x.t) && Apart(x.t + list, x.f) && Frame(s, u, []) && Pending(u.code, u.jpc)
  {
    hide StateOk, Frame, Branch;
    var (u, list) := Branch(s, x.k, cond);
    BranchOk(s, x.k, cond);
    StateJumps(u);
    ExpLists(s, x);
    ListsBelow(s, x);
    ListsStay(s, u, x.t, x.f, []);
    ListsParts(u, x.t, x.f);
    PendingJoin(u.code, x.f, list);
    PendingJoin(u.code, x.t, list);
  }

  lemma GoIfKeeps(s: State, s1: State, x: Exp, cond: bool, c: seq<Word>, d: seq<Word>, d1: seq<Word>, d2: seq<Word>,
                  e: seq<Word>, a: seq<nat>, b: seq<nat>)
    requires StateOk(s1) && ExpOk(s1, x) && !x.k.VLocal? && !x.k.VUpval?
    requires Frame(s, s1, []) && Keeps(c, d, s, []) && Keeps(d, d1, s1, [])
    requires var (u, list) := Branch(s1, x.k, cond);
      Keeps(d1, d2, u, a) && Keeps(d2, e, u, b) && a == (if cond then x.t else x.f) + list && b == if cond then x.f else x.t
    ensures Keeps(c, e, s, x.t + x.f)
  {
    hide StateOk, Branch, ExpOk, KindOk;
    var (u, list) := Branch(s1, x.k, cond);
    BranchOk2(s1, x, cond);
    forall j | 0 <= j < |s.code| && s.code[j] == Jmp(Open) && j !in s.jpc && j !in x.t + x.f
      ensures e[j] == c[j]
    {
      assert d[j] == c[j] && s1.code[j] == Jmp(Open) && j !in s1.jpc;
      assert d1[j] == d[j] && u.code[j] == Jmp(Open) && j !in u.jpc;
    }
  }

  lemma BranchOk2(s: State, x: Exp, cond: bool)
    requires StateOk(s) && ExpOk(s, x) && !x.k.VLocal? && !x.k.VUpval?
    ensures var (u, list) := Branch(s, x.k, cond);
      Frame(s, u, []) && forall j :: j in list ==> j >= |s.code| || j in s.jpc
  {
    hide StateOk, Branch;
    BranchOk(s, x.k, cond);
  }

  /** removevalues changes no offset. */
  lemma ThreadedOffsets(c: seq<Word>, d: seq<Word>, head: int, list: seq<nat>)
    requires Threaded(c, head, list) && |d| == |c| && forall j :: 0 <= j < |c| && c[j].Offset? ==> d[j] == c[j]
    ensures Threaded(d, head, list)
  {
    ThreadedIn(c, head, list);
    ThreadedKept(c, d, head, list);
  }

  lemma DropPending(code: seq<Instr>, a: seq<nat>, b: seq<nat>)
    requires Pending(code, b)
    ensures Pending(DropValues(code, a), b)
  {
    forall j | j in b
      ensures DropValues(code, a)[j] == code[j]
    {
      assert DropValues(code, a)[j] == DroppedAt(code, j, a);
    }
  }

  lemma NotKeeps(s: State, s1: State, s2: State, c: seq<Word>, d: seq<Word>, d1: seq<Word>, d2: seq<Word>, e: seq<Word>)
    requires Keeps(c, d, s, []) && Keeps(d, d1, s1, []) && Frame(s, s1, []) && Frame(s1, s2, [])
    requires |s2.code| <= |d1| == |d2| == |e| && SameCode(d1[..|s2.code|], s2.code)
    requires forall j :: 0 <= j < |d1| && d1[j].Offset? ==> d2[j] == d1[j]
    requires forall j :: 0 <= j < |d2| && d2[j].Offset? ==> e[j] == d2[j]
    ensures Keeps(c, e, s, [])
  {
    forall j | 0 <= j < |s.code| && s.code[j] == Jmp(Open) && j !in s.jpc
      ensures e[j] == c[j]
    {
      assert s1.code[j] == Jmp(Open) && j !in s1.jpc && d[j] == c[j];
      assert s2.code[j] == Jmp(Open) && d1[j] == d[j];
      assert SameWord(d1[..|s2.code|][j], s2.code[j], j);
    }
  }

  lemma CompShown(s: State, test: Comparison, c: seq<Word>)
    requires var u := CondJump(s, TestInstr(test));
      |c| == |u.code| && SameCode(c[..|u.code|], u.code) && c[|s.code|] == Op(TestInstr(test)) && c[|s.code| + 1] == Offset(NO_JUMP)
    ensures var d := Discharge(s);
      && |c| == |d.code| + 2 && |d.code| == |s.code| && SameCode(c[..|d.code|], d.code) && c[|d.code|..] == Tail(VJmp(test))
      && CondJump(s, TestInstr(test)) == d.(code := CondJump(s, TestInstr(test)).code)
      && Threaded(c, NO_JUMP, [])
  {
    var u, d := CondJump(s, TestInstr(test)), Discharge(s);
    hide SameCode, Patch;
    assert c[..|u.code|] == c;
    SamePrefix(c, u.code, d.code);
  }

  lemma SamePrefix(c: seq<Word>, a: seq<Instr>, b: seq<Instr>)
    requires SameCode(c, a) && b <= a
    ensures SameCode(c[..|b|], b)
  {
    forall p | 0 <= p < |b|
      ensures SameWord(c[..|b|][p], b[p], p)
    {
      assert SameWord(c[p], a[p], p);
    }
  }

  lemma KeepsSelf(c: seq<Word>, s: State)
    ensures |s.code| <= |c| ==> Keeps(c, c, s, [])
  {}

  /** The jumps kept back from the first operand and the lists of the second. */
  lemma JoinLists(s: State, s1: State, list: seq<nat>, s2: State, x2: Exp)
    requires Halfway(s, s1, list) && Built(s1, s2, x2)
    ensures Pending(s1.code, list) && Apart(list, s1.jpc) && Apart(list, [])
    ensures Pending(s2.code, x2.f + list) && Apart(x2.f + list, s2.jpc) && Apart(x2.t, x2.f + list)
    ensures Pending(s2.code, x2.t + list) && Apart(x2.t + list, s2.jpc) && Apart(x2.f, x2.t + list)
    ensures forall j :: j in list ==> j >= |s.code| || j in s.jpc
    ensures forall j :: j in x2.t || j in x2.f ==> j >= |s1.code| || j in s1.jpc
    ensures Frame(s, s1, []) && Frame(s1, s2, [])
  {
    hide StateOk, BaseReg, TrueConstant, KindOk;
    PendingStays(s1, s2, list);
    PendingBelow(s1.code, list);
    ListsParts(s2, x2.t, x2.f);
    PendingJoin(s2.code, x2.f, list);
    PendingJoin(s2.code, x2.t, list);
  }

  lemma LogicKeeps(s: State, b: State, x: Exp, s1: State, list: seq<nat>, s2: State, x2: Exp, a: seq<nat>,
                   c: seq<Word>, d: seq<Word>, d1: seq<Word>, d3: seq<Word>, e: seq<Word>)
    requires Built(s, b, x) && Keeps(c, d, s, []) && Keeps(d, d1, b, x.t + x.f) && Keeps(d1, d3, s1, [])
    requires Keeps(d3, e, s2, a + list) && (forall j :: j in list ==> j >= |s.code| || j in s.jpc)
    requires (forall j :: j in a ==> j >= |s1.code| || j in s1.jpc) && Frame(s, s1, []) && Frame(s1, s2, [])
    ensures Keeps(c, e, s, [])
  {
    hide StateOk, ExpOk, BaseReg, TrueConstant;
    forall j | 0 <= j < |s.code| && s.code[j] == Jmp(Open) && j !in s.jpc
      ensures e[j] == c[j]
    {
      assert b.code[j] == Jmp(Open) && j !in b.jpc && d1[j] == d[j] == c[j];
      assert s1.code[j] == Jmp(Open) && j !in s1.jpc && d3[j] == d1[j];
      assert s2.code[j] == Jmp(Open) && j !in s2.jpc && j !in a + list;
    }
  }

  lemma OperandKind(s: State, u: State, e: Exp)
    requires OperandReady(s, u, e)
    ensures IsOperand(e) && forall n :: KindAt(e.k, n) == KindAt(e.k, 0)
  {}

  lemma CompareKeeps(s: State, b: State, x: Exp, s1: State, b2: State, x2: Exp,
                     c: seq<Word>, d: seq<Word>, d1: seq<Word>, d2: seq<Word>, e: seq<Word>)
    requires Built(s, b, x) && Built(s1, b2, x2) && Frame(s, s1, [])
    requires Keeps(c, d, s, []) && Keeps(d, d1, b, x.t + x.f) && Keeps(d1, d2, s1, []) && Keeps(d2, e, b2, x2.t + x2.f)
    ensures Keeps(c, e, s, [])
  {
    hide StateOk, ExpOk, BaseReg, TrueConstant;
    forall j | 0 <= j < |s.code| && s.code[j] == Jmp(Open) && j !in s.jpc
      ensures e[j] == c[j]
    {
      assert b.code[j] == Jmp(Open) && j !in b.jpc && d1[j] == d[j] == c[j];
      assert s1.code[j] == Jmp(Open) && j !in s1.jpc && d2[j] == d1[j];
      assert b2.code[j] == Jmp(Open) && j !in b2.jpc;
    }
  }

  lemma NoneKept(c: seq<Word>, s: State, a: seq<nat>, b: seq<nat>)
    requires a == [] && b == [] && Keeps(c, c, s, [])
    ensures Keeps(c, c, s, a + b)
  {
    assert a + b == [];
  }

  lemma KeepsRegs(c: seq<Word>, d: seq<Word>, s: State, u: State)
    requires Keeps(c, d, u, []) && u == s.(freereg := u.freereg)
    ensures Keeps(c, d, s, [])
  {}

  /** The two registers are given back in the order of a stack. */
  lemma CompRegs(s: State, k1: Kind, x2: Exp)
    requires StateOk(s) && ExpOk(s, x2) && OperandBelow(s, k1, BaseReg(s, x2.k)) && s.nactvar <= BaseReg(s, x2.k)
    ensures var (s1, x3) := CodeGen.Exp2RK(s, x2);
      var n := if x3.k.VNonReloc? && x3.k.r >= s1.nactvar then x3.k.r else s1.freereg;
      && (x3.k.VNonReloc? ==> x3.k.r >= s1.nactvar ==> x3.k.r + 1 == s1.freereg)
      && (k1.VNonReloc? ==> k1.r >= s1.nactvar ==> k1.r + 1 == n)
      && FreeExp(FreeExp(s1, x3.k), k1) == s1.(freereg := if k1.VNonReloc? && k1.r >= s1.nactvar then k1.r else n)
      && (x3.k.VK? || x3.k.VNonReloc?) && !HasJumps(x3)
  {
    hide StateOk, Frame, CodeGen.Exp2RK;
    var (s1, x3) := CodeGen.Exp2RK(s, x2);
    Exp2RKOk(s, x2);
    FrameK(s, s1, x2.t + x2.f);
    KindRegs(s1, x3);
  }

  // ---------- Compile, case by case ----------

  lemma ParenIs(s: State, y: Expr)
    ensures var b := Compile(s, y);
      Compile(s, Paren(y)).s == DischargeVars(b.s, b.e).0 && Compile(s, Paren(y)).e == DischargeVars(b.s, b.e).1
  {
    hide CodeGen.CodeNot, CodeGen.GoIfTrue, CodeGen.GoIfFalse, CodeGen.Exp2RK, CodeGen.CodeComp, DischargeVars, AddK;
  }

  lemma NotIs(s: State, y: Expr)
    ensures var b := Compile(s, y);
      Compile(s, Not(y)).s == CodeGen.CodeNot(b.s, b.e).0 && Compile(s, Not(y)).e == CodeGen.CodeNot(b.s, b.e).1
  {
    hide CodeGen.CodeNot, CodeGen.GoIfTrue, CodeGen.GoIfFalse, CodeGen.Exp2RK, CodeGen.CodeComp, DischargeVars, AddK;
  }

  lemma AndIs(s: State, l: Expr, y: Expr)
    ensures var b := Compile(s, l);
      var (s1, f) := CodeGen.GoIfTrue(b.s, b.e);
      var d := Compile(s1, y);
      var (s2, e2) := DischargeVars(d.s, d.e);
      Compile(s, And(l, y)).s == s2 && Compile(s, And(l, y)).e == Exp(e2.k, e2.t, e2.f + f)
  {
    hide CodeGen.CodeNot, CodeGen.GoIfTrue, CodeGen.GoIfFalse, CodeGen.Exp2RK, CodeGen.CodeComp, DischargeVars, AddK;
  }

  lemma OrIs(s: State, l: Expr, y: Expr)
    ensures var b := Compile(s, l);
      var (s1, t) := CodeGen.GoIfFalse(b.s, b.e);
      var d := Compile(s1, y);
      var (s2, e2) := DischargeVars(d.s, d.e);
      Compile(s, Or(l, y)).s == s2 && Compile(s, Or(l, y)).e == Exp(e2.k, e2.t + t, e2.f)
  {
    hide CodeGen.CodeNot, CodeGen.GoIfTrue, CodeGen.GoIfFalse, CodeGen.Exp2RK, CodeGen.CodeComp, DischargeVars, AddK;
  }

  lemma ComparIs(s: State, op: Cmp, l: Expr, y: Expr)
    ensures var b := Compile(s, l);
      var (s1, e1) := CodeGen.Exp2RK(b.s, b.e);
      var d := Compile(s1, y);
      var (s2, e2) := CodeGen.CodeComp(d.s, op, e1.k, d.e);
      Compile(s, Compar(op, l, y)).s == s2 && Compile(s, Compar(op, l, y)).e == e2
  {
    hide CodeGen.CodeNot, CodeGen.GoIfTrue, CodeGen.GoIfFalse, CodeGen.Exp2RK, CodeGen.CodeComp, DischargeVars, AddK;
  }

  lemma ScopeParts(l: Expr, y: Expr, n: nat)
    ensures InScope(And(l, y), n) ==> InScope(l, n) && InScope(y, n)
    ensures InScope(Or(l, y), n) ==> InScope(l, n) && InScope(y, n)
  {}

  lemma ScopeCompar(op: Cmp, l: Expr, y: Expr, n: nat)
    ensures InScope(Compar(op, l, y), n) ==> InScope(l, n) && InScope(y, n)
  {}

  lemma LastIn(list: seq<nat>)
    ensures list != [] ==> list[|list|-1] in list
  {}

  lemma StateJumps(s: State)
    requires StateOk(s)
    ensures Pending(s.code, s.jpc) && CodeOk(s.code) && Free(s.code, |s.code|)
  {}

  class FuncState {
    var code: seq<Word>
    var jpc: int
    var lasttarget: int
    var freereg: nat
    var nactvar: nat
    var k: seq<Value>

    /** open_func: an empty function with its parameters as active variables. */
    constructor (params: nat)
      ensures Shows(State([], [], -1, params, params, []), [])
    {
      code, jpc, lasttarget, freereg, nactvar, k := [], NO_JUMP, -1, params, params, [];
    }

    // ---------- Jump lists ----------

    method GetJump(pc: nat) returns (next: int)
      requires pc < |code| && code[pc].Offset?
      ensures next == NextJump(code, pc)
    {
      var offset := code[pc].sbx;
      if offset == NO_JUMP {
        next := NO_JUMP;
      } else {
        next := (pc + 1) + offset;
      }
    }

    /** The jump read back is the one stored, but for a jump to itself: it looks like the end of a list. */
    method FixJump(pc: nat, dest: int)
      requires pc < |code| && code[pc].Offset?
      modifies `code
      ensures |code| == |old(code)| && code[pc].Offset? && pc + 1 + code[pc].sbx == dest
      ensures NextJump(code, pc) == if dest == pc then NO_JUMP else dest
      ensures forall j :: 0 <= j < |code| && j != pc ==> code[j] == old(code[j])
    {
      code := code[pc := Offset(dest - (pc + 1))];
    }

    /** The test in front of the jump, or the jump itself. */
    method GetJumpControl(pc: nat) returns (at: nat)
      requires pc < |code|
      ensures at == if pc >= 1 && code[pc-1].Op? && IsTest(code[pc-1].i) then pc - 1 else pc
    {
      if pc >= 1 && code[pc-1].Op? && IsTest(code[pc-1].i) {
        at := pc - 1;
      } else {
        at := pc;
      }
    }

    method NeedValueIn(list: int, ghost jumps: seq<nat>) returns (need: bool)
      requires Threaded(code, list, jumps)
      ensures need <==> exists j :: j in jumps && !(1 <= j <= |code| && IsTestSetWord(code[j-1]))
    {
      var l := list;
      ghost var i := 0;
      while l != NO_JUMP
        invariant 0 <= i <= |jumps| && Threaded(code, l, jumps[i..])
        invariant forall x :: 0 <= x < i ==> 1 <= jumps[x] <= |code| && IsTestSetWord(code[jumps[x]-1])
        decreases |jumps| - i
      {
        assert jumps[i..][0] == jumps[i] && jumps[i..][1..] == jumps[i+1..];
        var control := GetJumpControl(l);
        if !(code[control].Op? && code[control].i.TestSet?) {
          assert jumps[i] in jumps;
          return true;
        }
        l := GetJump(l);
        i := i + 1;
      }
      return false;
    }

    method PatchTestReg(node: nat, reg: int) returns (done: bool)
      requires node < |code| && code[node].Offset?
      modifies `code
      ensures done <==> old(node >= 1 && IsTestSetWord(code[node-1]))
      ensures code == if done then old(code)[node - 1 := Op(PatchTest(old(code[node-1].i), reg))] else old(code)
    {
      var control := GetJumpControl(node);
      if !(code[control].Op? && code[control].i.TestSet?) {
        return false;
      }
      var i := code[control].i;
      if reg != NO_REG && reg != i.b {
        code := code[control := Op(TestSet(reg, i.b, i.c))];
      } else {
        code := code[control := Op(Test(i.b, i.c))];
      }
      return true;
    }

    method RemoveValues(list: int, ghost jumps: seq<nat>)
      requires Threaded(code, list, jumps) && NoRepeat(jumps)
      modifies `code
      ensures DroppedWords(old(code), code, jumps) && Threaded(code, list, jumps)
    {
      var l := list;
      ghost var c := code;
      ghost var i := 0;
      DroppedNone(c);
      assert jumps[..0] == [] && jumps[0..] == jumps;
      hide DroppedWords, Threaded, NextJump;
      while l != NO_JUMP
        invariant 0 <= i <= |jumps| && Threaded(c, l, jumps[i..])
        invariant DroppedWords(c, code, jumps[..i])
        decreases |jumps| - i
      {
        NextInList(c, l, list, jumps, i);
        assert l !in jumps[..i];
        DroppedAtJump(c, code, jumps[..i], l);
        ghost var d := code;
        var done := PatchTestReg(l, NO_REG);
        DroppedMore(c, d, code, jumps[..i], l);
        DroppedAtJump(c, code, jumps[..i+1], l);
        NextSame(c, code, l);
        l := GetJump(l);
        i := i + 1;
      }
      AllWalked(c, l, jumps, i);
      DroppedThreads(c, code, list, jumps);
    }

    /** One turn of patchlistaux. */
    method PatchJump(node: nat, vtarget: int, reg: int, dtarget: int)
      requires node < |code| && code[node].Offset?
      modifies `code
      ensures var c := old(code);
        var valued := node >= 1 && IsTestSetWord(c[node-1]);
        code == (if valued then c[node - 1 := Op(PatchTest(c[node-1].i, reg))] else c)
                [node := Offset((if valued then vtarget else dtarget) - (node + 1))]
    {
      var done := PatchTestReg(node, reg);
      if done {
        FixJump(node, vtarget);
      } else {
        FixJump(node, dtarget);
      }
    }

    /** patchlistaux: jumps that bring a value go to vtarget, the others to dtarget. */
    method PatchListAux(list: int, vtarget: int, reg: int, dtarget: int, ghost jumps: seq<nat>)
      requires Threaded(code, list, jumps) && NoRepeat(jumps)
      modifies `code
      ensures PatchedWords(old(code), code, jumps, vtarget, reg, dtarget)
    {
      hide PatchTest, PatchedWords, Threaded;
      var l := list;
      ghost var c := code;
      ghost var i := 0;
      PatchNone(c, vtarget, reg, dtarget);
      while l != NO_JUMP
        invariant 0 <= i <= |jumps| && Threaded(c, l, jumps[i..])
        invariant PatchedWords(c, code, jumps[..i], vtarget, reg, dtarget)
        decreases |jumps| - i
      {
        NextInList(c, l, list, jumps, i);
        PatchNotYet(c, code, jumps, i, vtarget, reg, dtarget);
        ghost var d := code;
        var next := GetJump(l);
        PatchJump(l, vtarget, reg, dtarget);
        PatchedMore(c, d, code, jumps[..i], l, vtarget, reg, dtarget);
        l := next;
        i := i + 1;
      }
      ListDone(c, jumps, i);
    }

    /** luaK_concat: the second list is appended to the first. */
    method Concat(l1: int, l2: int, ghost a: seq<nat>, ghost b: seq<nat>) returns (l: int)
      requires Threaded(code, l1, a) && Threaded(code, l2, b) && NoRepeat(a) && forall j :: j in a ==> j !in b
      modifies `code
      ensures Threaded(code, l, a + b)
      ensures |code| == |old(code)| && forall j :: 0 <= j < |code| && !(a != [] && b != [] && j == a[|a|-1]) ==> code[j] == old(code)[j]
      ensures forall j :: 0 <= j < |code| && old(code)[j].Offset? ==> code[j].Offset?
    {
      if l2 == NO_JUMP {
        assert a + b == a;
        return l1;
      } else if l1 == NO_JUMP {
        assert a + b == b;
        return l2;
      }
      ghost var c := code;
      var list: nat := l1;
      var next := GetJump(list);
      ghost var i := 0;
      while next != NO_JUMP
        invariant 0 <= i < |a| && list == a[i] && list < |code| && code[list].Offset?
        invariant code == c && next == NextJump(code, list) && Threaded(code, next, a[i+1..])
        decreases |a| - i
      {
        assert a[i+1..][0] == a[i+1] && a[i+1..][1..] == a[i+2..];
        list := next;
        next := GetJump(list);
        i := i + 1;
      }
      assert i == |a| - 1;
      assert a[i] in a && b[0] in b;
      FixJump(list, l2);
      ThreadedIn(c, l2, b);
      ThreadedIn(c, l1, a);
      ThreadedKept(c, code, l2, b);
      ThreadedAppend(c, code, l1, a, b);
      return l1;
    }

    // ---------- Emitting ----------

    ghost predicate Shows(s: State, tail: seq<Word>)
      reads this
    {
      && |code| == |s.code| + |tail| && SameCode(code[..|s.code|], s.code) && code[|s.code|..] == tail
      && Threaded(code, jpc, s.jpc) && lasttarget == s.lasttarget && freereg == s.freereg && nactvar == s.nactvar && k == s.k
    }

    ghost predicate ShowsExp(e: ExpDesc, x: Exp, s: State)
      reads this
    {
      && Shows(s, Tail(x.k)) && e.k == KindAt(x.k, |s.code|)
      && Threaded(code, e.t, x.t) && Threaded(code, e.f, x.f)
    }

    method DischargeJpc(ghost s: State)
      requires StateOk(s) && Shows(s, [])
      modifies `code, `jpc
      ensures Shows(Discharge(s), []) && Keeps(old(code), code, s, [])
    {
      StateJumps(s);
      ghost var c := code;
      assert c == c[..|s.code|];
      PendingOnce(s.code, s.jpc);
      PatchListAux(jpc, |code|, NO_REG, |code|, s.jpc);
      PatchSame(c, code, s.code, s.jpc, |s.code|, NO_REG, |s.code|, |s.code|);
      jpc := NO_JUMP;
      assert code == code[..|s.code|];
      forall j | 0 <= j < |s.code| && s.code[j] == Jmp(Open) && j !in s.jpc
        ensures code[j] == c[j]
      {
        assert SameWord(c[j], s.code[j], j);
        assert code[j] == PatchedWord(c, j, s.jpc, |s.code|, NO_REG, |s.code|);
      }
    }

    /** luaK_code for an instruction that is no jump. */
    method Code(i: Instr, ghost s: State) returns (pc: nat)
      requires StateOk(s) && Shows(s, []) && !i.Jmp?
      modifies `code, `jpc
      ensures Shows(Emit(s, i), []) && pc == |s.code| && Keeps(old(code), code, s, [])
    {
      DischargeJpc(s);
      ghost var d := Discharge(s);
      assert code == code[..|d.code|];
      pc := |code|;
      code := code + [Op(i)];
      assert code[..|Emit(s, i).code|] == code;
    }

    /** luaK_jump. */
    method Jump(ghost s: State) returns (j: int)
      requires StateOk(s) && Shows(s, [])
      modifies `code, `jpc
      ensures Shows(JumpState(s), []) && Threaded(code, j, JumpList(s)) && Keeps(old(code), code, s, s.jpc)
    {
      StateJumps(s);
      ghost var c := code;
      assert c == c[..|s.code|];
      var jpc0 := jpc;
      jpc := NO_JUMP;
      j := |code|;
      code := code + [Offset(NO_JUMP)];
      ghost var n := |s.code|;
      assert Threaded(code, n, [n]);
      ThreadedIn(c, jpc0, s.jpc);
      ThreadedKept(c, code, jpc0, s.jpc);
      ghost var d := code;
      j := Concat(j, jpc0, [n], s.jpc);
      assert code == code[..|JumpState(s).code|];
    }

    method CondJump(i: Instr, ghost s: State) returns (j: nat)
      requires StateOk(s) && Shows(s, []) && IsTest(i)
      modifies `code, `jpc
      ensures Shows(CodeGen.CondJump(s, i), []) && j == |s.code| + 1 && Threaded(code, j, [|s.code| + 1])
      ensures Keeps(old(code), code, s, [])
      ensures code[|s.code|] == Op(i) && code[|s.code| + 1] == Offset(NO_JUMP)
    {
      var at := Code(i, s);
      ghost var d := Emit(s, i);
      assert code == code[..|d.code|];
      j := |code|;
      code := code + [Offset(NO_JUMP)];
      assert code[..|CodeGen.CondJump(s, i).code|] == code;
      assert NextJump(code, j) == NO_JUMP;
    }

    method GetLabel() returns (pc: nat)
      modifies `lasttarget
      ensures pc == |code| && lasttarget == |code|
    {
      lasttarget := |code|;
      return |code|;
    }

    /** luaK_patchtohere. */
    method PatchToHere(list: int, ghost s: State, ghost jumps: seq<nat>)
      requires Shows(s, []) && Threaded(code, list, jumps) && Pending(s.code, jumps) && Apart(jumps, s.jpc)
      requires Pending(s.code, s.jpc)
      modifies `code, `jpc, `lasttarget
      ensures Shows(ToHere(s, jumps), []) && Keeps(old(code), code, s, jumps)
    {
      PendingOnce(s.code, s.jpc);
      ghost var c := code;
      assert c == c[..|s.code|];
      var here := GetLabel();
      jpc := Concat(jpc, list, s.jpc, jumps);
      assert code == code[..|s.code|];
      LastIn(s.jpc);
    }

    // ---------- Registers and constants ----------

    /** The assertion of the source: registers are given back in the order of a stack. */
    method FreeReg(reg: nat)
      requires reg >= nactvar ==> reg + 1 == freereg
      modifies `freereg
      ensures freereg == if reg >= nactvar then reg else old(freereg)
    {
      if reg >= nactvar {
        freereg := freereg - 1;
      }
    }

    method FreeExp(e: ExpDesc)
      requires e.k.ENonReloc? ==> e.k.r >= nactvar ==> e.k.r + 1 == freereg
      modifies `freereg
      ensures freereg == if e.k.ENonReloc? && e.k.r >= nactvar then e.k.r else old(freereg)
    {
      if e.k.ENonReloc? {
        FreeReg(e.k.r);
      }
    }

    method ReserveReg()
      modifies `freereg
      ensures freereg == old(freereg) + 1
    {
      freereg := freereg + 1;
    }

    /** addk: the entry holds the value, older entries stay, and no value is entered twice. */
    method AddConstant(v: Value) returns (i: nat)
      modifies `k
      ensures i < |k| && k[i] == v && old(k) <= k && |k| == |old(k)| + if v in old(k) then 0 else 1
      ensures i == IndexOf(old(k), v) && k == AddIfNew(old(k), v)
    {
      IndexFound(k, v);
      i := IndexOf(k, v);
      if i == |k| {
        k := k + [v];
      }
    }

    // ---------- Loading values ----------

    /** luaK_nil for one register. */
    method CodeNil(from: nat, ghost s: State)
      requires StateOk(s) && Shows(s, [])
      modifies `code, `jpc
      ensures Shows(LoadNilAt(s, from), []) && Keeps(old(code), code, s, [])
    {
      assert code == code[..|s.code|];
      if |code| > lasttarget {
        if |code| == 0 {
          if from >= nactvar {
            return;
          }
        } else {
          var previous := code[|code|-1];
          assert SameWord(code[|s.code|-1], s.code[|s.code|-1], |s.code| - 1);
          if previous.Op? && previous.i.LoadNil? && previous.i.a <= from <= previous.i.b + 1 {
            if from > previous.i.b {
              code := code[|code| - 1 := Op(LoadNil(previous.i.a, from))];
            }
            NilJoined(s, from, old(code), code);
            assert code == code[..|s.code|];
            return;
          }
        }
      }
      var at := Code(LoadNil(from, from), s);
    }

    /** luaK_dischargevars. */
    method CodeVars(e: ExpDesc, ghost s: State, ghost x: Exp) returns (e1: ExpDesc)
      requires StateOk(s) && ExpOk(s, x) && ShowsExp(e, x, s)
      modifies `code, `jpc
      ensures ShowsExp(e1, DischargeVars(s, x).1, DischargeVars(s, x).0) && Keeps(old(code), code, s, [])
    {
      e1 := e;
      match e.k {
        case ELocal(r) =>
          e1 := e.(k := ENonReloc(r));
        case EUpval(u) =>
          hide StateOk, Threaded, SameCode, ExpOk, Emit;
          ExpLists(s, x);
          ghost var c := code;
          var pc := CodePending(UpvalOf(u), s);
          e1 := e.(k := ERelocable(pc));
          KeepsList(c, code, s, [], e.t, x.t);
          KeepsList(c, code, s, [], e.f, x.f);
        case _ =>
      }
    }

    /** An instruction whose register is still open. */
    method CodePending(op: Reloc, ghost s: State) returns (pc: nat)
      requires StateOk(s) && Shows(s, [])
      modifies `code, `jpc
      ensures Shows(Discharge(s), Tail(VReloc(op))) && pc == |s.code| && Keeps(old(code), code, s, [])
    {
      var i := match op case UpvalOf(u) => GetUpval(0, u) case NotOf(b) => NotI(0, b);
      pc := Code(i, s);
      ghost var w := code[..|Emit(s, i).code|];
      assert w == code;
      assert SameCode(code[..|s.code|], Discharge(s).code) by {
        assert forall p :: 0 <= p < |s.code| ==> Emit(s, i).code[p] == Discharge(s).code[p];
      }
      assert SameWord(w[|s.code|], Emit(s, i).code[|s.code|], |s.code|);
      assert code[|s.code|..] == [Op(i)];
    }

    /** SETARG_A on the instruction at the end. */
    method RelocateTo(pc: nat, reg: nat, ghost s: State, ghost op: Reloc)
      requires s.jpc == [] && Shows(s, Tail(VReloc(op))) && pc == |s.code|
      modifies `code
      ensures Shows(Emit(s, Relocate(op, reg)), []) && Keeps(old(code), code, s, [])
    {
      ghost var c := code;
      code := code[pc := Op(SetA(code[pc].i, reg))];
      EmitAtEnd(s, Relocate(op, reg));
      StoredLast(c[..|s.code|], s.code, Relocate(op, reg));
      assert code == c[..|s.code|] + [Op(Relocate(op, reg))];
      assert code == code[..|s.code| + 1];
    }

    method LoadNumber(n: int, reg: nat, ghost s: State)
      requires StateOk(s) && Shows(s, [])
      modifies `code, `jpc, `k
      ensures Shows(Load(s, VKNum(n), reg), []) && Keeps(old(code), code, s, [])
    {
      hide StateOk, Emit;
      var i := AddConstant(Number(n));
      AddKOk(s, Number(n));
      var at := Code(LoadK(reg, i), AddK(s, Number(n)));
    }

    /** discharge2reg; nothing happens to an expression that is a jump. */
    method Discharge2Reg(e: ExpDesc, reg: nat, ghost s: State, ghost x: Exp) returns (e1: ExpDesc)
      requires StateOk(s) && ExpOk(s, x) && ShowsExp(e, x, s) && !x.k.VLocal? && !x.k.VUpval?
      modifies `code, `jpc, `k
      ensures Keeps(old(code), code, s, []) && e1.t == e.t && e1.f == e.f
      ensures if x.k.VJmp? then Shows(s, Tail(x.k)) && e1 == e
              else Shows(Load(s, x.k, reg), []) && e1.k == ENonReloc(reg)
      ensures Threaded(code, e.t, x.t) && Threaded(code, e.f, x.f)
    {
      hide StateOk, Emit, LoadNilAt, Threaded, SameCode, Relocate, ExpOk, AddK;
      ExpLists(s, x);
      ghost var c := code;
      e1 := e.(k := ENonReloc(reg));
      match e.k {
        case ENil => CodeNil(reg, s);
        case ETrue => var at := Code(LoadBool(reg, true, false), s);
        case EFalse => var at := Code(LoadBool(reg, false, false), s);
        case EK(i) => var at := Code(LoadK(reg, i), s);
        case ENum(n) => LoadNumber(n, reg, s);
        case ERelocable(pc) => RelocateTo(pc, reg, s, x.k.op);
        case ENonReloc(r) =>
          if r != reg {
            var at := Code(Move(reg, r), s);
          }
        case _ =>
          e1 := e;
      }
      KeepsList(c, code, s, [], e.t, x.t);
      KeepsList(c, code, s, [], e.f, x.f);
    }

    // ---------- exp2reg ----------

    /** patchlistaux on a list that is not jpc. */
    method PatchOne(list: int, vtarget: nat, reg: int, dtarget: int, ghost used: nat, ghost s: State, ghost jumps: seq<nat>)
      requires Shows(s, []) && Threaded(code, list, jumps) && Pending(s.code, jumps) && Apart(jumps, s.jpc)
      requires Pending(s.code, s.jpc)
      requires dtarget == used || forall j :: j in jumps ==> KeepsValue(s.code, j)
      modifies `code
      ensures Shows(CodeGen.PatchList(s, jumps, vtarget, reg, used), []) && Keeps(old(code), code, s, jumps)
    {
      ghost var c := code;
      assert c == c[..|s.code|];
      PendingOnce(s.code, jumps);
      PatchListAux(list, vtarget, reg, dtarget, jumps);
      PatchSame(c, code, s.code, jumps, vtarget, reg, dtarget, used);
      assert code == code[..|s.code|];
      forall j | 0 <= j < |s.code| && s.code[j] == Jmp(Open) && j !in jumps
        ensures code[j] == c[j]
      {
        assert SameWord(c[j], s.code[j], j);
        assert code[j] == PatchedWord(c, j, jumps, vtarget, reg, dtarget);
      }
      assert forall j :: j in s.jpc ==> j !in jumps;
      ThreadedKept(c, code, jpc, s.jpc);
    }

    /** code_label, when no jump is pending to here. */
    method CodeLabel(a: nat, b: bool, jump: bool) returns (pc: nat)
      requires jpc == NO_JUMP
      modifies `code, `jpc, `lasttarget
      ensures pc == |old(code)| && code == old(code) + [Op(LoadBool(a, b, jump))] && jpc == NO_JUMP && lasttarget == pc
    {
      pc := GetLabel();
      ghost var c := code;
      PatchListAux(jpc, |code|, NO_REG, |code|, []);
      assert code == c;
      jpc := NO_JUMP;
      code := code + [Op(LoadBool(a, b, jump))];
    }

    /** The two loads, when no jump is pending to here. */
    method CodeBoth(reg: nat, ghost s: State) returns (pf: nat, pt: nat)
      requires Shows(s, []) && s.jpc == []
      modifies `code, `jpc, `lasttarget
      ensures Shows(AddLoads(s, reg).(lasttarget := |code| - 1), []) && pf == |s.code| && pt == |s.code| + 1
      ensures code == old(code) + [Op(LoadBool(reg, false, true)), Op(LoadBool(reg, true, false))]
    {
      ghost var c := code;
      assert c == c[..|s.code|];
      pf := CodeLabel(reg, false, true);
      pt := CodeLabel(reg, true, false);
      assert code == c + [Op(LoadBool(reg, false, true)), Op(LoadBool(reg, true, false))];
      LoadsStored(c, s, reg);
      assert code == code[..|s.code| + 2];
    }

    /** The two loads behind the expression, jumped over when it is no jump itself. */
    method CodeLoads(reg: nat, wasJump: bool, ghost s: State) returns (pf: nat, pt: nat)
      requires StateOk(s) && Shows(s, []) && (wasJump ==> s.jpc == [])
      modifies `code, `jpc, `lasttarget
      ensures Shows(Opened(s, reg, wasJump).(lasttarget := lasttarget), []) && Keeps(old(code), code, s, [])
      ensures |code| == |Opened(s, reg, wasJump).code| && pf == |code| - 2 && pt == |code| - 1
    {
      hide StateOk, Threaded, SameCode;
      if wasJump {
        pf, pt := CodeBoth(reg, s);
      } else {
        JumpOk(s);
        var fj := Jump(s);
        ghost var d := code;
        pf, pt := CodeBoth(reg, JumpState(s));
        ghost var l := AddLoads(JumpState(s), reg).(lasttarget := |code| - 1);
        LoadsAfterJump(s, d, code, fj, reg);
        PatchToHere(fj, l, JumpList(s));
      }
    }

    /** Both lists, patched behind the loads. */
    method CloseBoth(t: int, f: int, final: nat, reg: nat, pf: int, pt: int, ghost u: State, ghost ts: seq<nat>,
                     ghost fs: seq<nat>, ghost uf: nat, ghost ut: nat)
      requires LoadsReady(u, ts, fs, reg, uf, ut) && Shows(u, []) && Threaded(code, t, ts) && Threaded(code, f, fs)
      requires final == |u.code|
      requires pf == uf || forall j :: j in fs ==> KeepsValue(u.code, j)
      requires pt == ut || forall j :: j in ts ==> KeepsValue(u.code, j)
      modifies `code
      ensures Shows(Closed(u, ts, fs, reg, uf, ut), []) && Keeps(old(code), code, u, fs + ts)
    {
      hide Threaded, SameCode, StateOk, LoadsReady, Patch, KeepsValue;
      LoadsParts(u, ts, fs, reg, uf, ut);
      StateJumps(u);
      ListsParts(u, ts, fs);
      ghost var c := code;
      PatchOne(f, final, reg, pf, uf, u, fs);
      ghost var v := CodeGen.PatchList(u, fs, final, reg, uf);
      PatchKeeps(u, fs, final, reg, uf, ts);
      PatchKeeps(u, fs, final, reg, uf, u.jpc);
      KeepsList(c, code, u, fs, t, ts);
      ghost var d := code;
      PatchOne(t, final, reg, pt, ut, v, ts);
      PatchOpen(u, fs, final, reg, uf);
      KeepsTwo(c, d, code, u, v, fs, ts);
    }

    /** The loads when some jump needs them, and the label behind them. */
    method OpenLoads(t: int, f: int, reg: nat, wasJump: bool, ghost s: State, ghost ts: seq<nat>, ghost fs: seq<nat>)
      returns (final: nat, pf: int, pt: int)
      requires StateOk(s) && ListsOk(s, ts, fs) && Shows(s, []) && Threaded(code, t, ts) && Threaded(code, f, fs)
      requires (wasJump ==> s.jpc == []) && (ts != [] || fs != [])
      modifies `code, `jpc, `lasttarget
      ensures Shows(Ready(s, ts, fs, reg, wasJump), []) && Threaded(code, t, ts) && Threaded(code, f, fs)
      ensures Keeps(old(code), code, s, []) && final == |code| == |Ready(s, ts, fs, reg, wasJump).code|
      ensures NeedValue(s.code, ts) || NeedValue(s.code, fs) ==> pf == final - 2 && pt == final - 1
    {
      hide StateOk, Threaded, SameCode, NeedValue, KeepsValue, Opened, Pending, Apart, ListsOk, Keeps;
      ListsParts(s, ts, fs);
      ghost var c := code;
      KeepsSelf(c, s);
      pf, pt := NO_JUMP, NO_JUMP;
      var needT := NeedValueIn(t, ts);
      var needF := NeedValueIn(f, fs);
      NeedStored(c, s, ts);
      NeedStored(c, s, fs);
      if needT || needF {
        pf, pt := CodeLoads(reg, wasJump, s);
      }
      final := GetLabel();
      OpenedLabel(s, reg, wasJump);
      NoneIn(ts);
      NoneIn(fs);
      KeepsList(c, code, s, [], t, ts);
      KeepsList(c, code, s, [], f, fs);
    }

    /** exp2reg behind discharge2reg, when there are jumps. */
    method CloseSome(t: int, f: int, reg: nat, wasJump: bool, ghost s: State, ghost ts: seq<nat>, ghost fs: seq<nat>)
      requires StateOk(s) && ListsOk(s, ts, fs) && Shows(s, []) && Threaded(code, t, ts) && Threaded(code, f, fs)
      requires (wasJump ==> s.jpc == []) && (ts != [] || fs != [])
      modifies `code, `jpc, `lasttarget
      ensures Shows(CloseLists(s, ts, fs, reg, wasJump), []) && Keeps(old(code), code, s, ts + fs)
    {
      hide *;
      ListsParts(s, ts, fs);
      ghost var c := code;
      var final, pf, pt := OpenLoads(t, f, reg, wasJump, s, ts, fs);
      ghost var need := NeedValue(s.code, ts) || NeedValue(s.code, fs);
      ghost var u := Ready(s, ts, fs, reg, wasJump);
      ghost var uf, ut := if need then |u.code| - 2 else |u.code|, if need then |u.code| - 1 else |u.code|;
      ReadyOk(s, ts, fs, reg, wasJump);
      if !need {
        AllKeep(s.code, ts);
        AllKeep(s.code, fs);
        NeedSame(s, ts, fs, reg, wasJump, ts);
        NeedSame(s, ts, fs, reg, wasJump, fs);
      }
      ghost var d := code;
      CloseBoth(t, f, final, reg, pf, pt, u, ts, fs, uf, ut);
      CloseIs(s, ts, fs, reg, wasJump);
      KeepsVia(c, d, code, s, u, fs + ts, ts + fs);
    }

    /** exp2reg behind discharge2reg. */
    method CloseJumps(t: int, f: int, reg: nat, wasJump: bool, ghost s: State, ghost ts: seq<nat>, ghost fs: seq<nat>)
      requires StateOk(s) && ListsOk(s, ts, fs) && Shows(s, []) && Threaded(code, t, ts) && Threaded(code, f, fs)
      requires wasJump ==> s.jpc == []
      modifies `code, `jpc, `lasttarget
      ensures Shows(CloseLists(s, ts, fs, reg, wasJump), []) && Keeps(old(code), code, s, ts + fs)
    {
      hide StateOk, Threaded, SameCode, CloseLists, Pending, Apart, ListsOk, Keeps;
      HeadsDiffer(code, t, ts, f, fs);
      ListsParts(s, ts, fs);
      if t != f {
        CloseSome(t, f, reg, wasJump, s, ts, fs);
      } else {
        CloseNone(s, ts, fs, reg, wasJump);
        KeepsSelf(code, s);
        NoneKept(code, s, ts, fs);
      }
    }

    /** exp2reg. */
    method Exp2Reg(e: ExpDesc, reg: nat, ghost s: State, ghost x: Exp) returns (e1: ExpDesc)
      requires StateOk(s) && ExpOk(s, x) && ShowsExp(e, x, s) && !x.k.VLocal? && !x.k.VUpval?
      modifies `code, `jpc, `k, `lasttarget
      ensures Shows(CodeGen.Exp2Reg(s, x, reg), []) && Keeps(old(code), code, s, x.t + x.f)
      ensures e1 == ExpDesc(ENonReloc(reg), NO_JUMP, NO_JUMP)
    {
      hide StateOk, Threaded, SameCode, CloseLists, Load, Frame, ExpOk, Pending, CodeGen.CondJump, ListsOk, Keeps, NeedValue, Apart;
      ghost var c := code;
      ExpParts(s, x);
      e1 := Discharge2Reg(e, reg, s, x);
      ghost var d := code;
      if e1.k.EJmp? {
        ghost var u := CodeGen.CondJump(s, TestInstr(x.k.test));
        ghost var ts := x.t + [|s.code| + 1];
        JumpJoins(s, x);
        StoredJump(s, x, code);
        ListsParts(u, ts, x.f);
        var t := ConcatShown(e1.t, e1.k.pc, u, x.t, [|s.code| + 1], x.f, e1.f, []);
        ghost var d1 := code;
        CloseJumps(t, e1.f, reg, true, u, ts, x.f);
        JumpKeeps(s, u, c, d, d1, code, x);
      } else {
        ghost var u := CodeGen.Load(s, x.k, reg);
        LoadOk(s, x.k, reg);
        ExpLists(s, x);
        ListsStay(s, u, x.t, x.f, []);
        CloseJumps(e1.t, e1.f, reg, false, u, x.t, x.f);
        KeepsVia(c, d, code, s, u, x.t + x.f, x.t + x.f);
      }
      e1 := ExpDesc(ENonReloc(reg), NO_JUMP, NO_JUMP);
    }

    /** luaK_concat on two lists of an expression; a third one is not touched. */
    method ConcatShown(l1: int, l2: int, ghost s: State, ghost a: seq<nat>, ghost b: seq<nat>, ghost other: seq<nat>, ghost o: int,
                       ghost tail: seq<Word>)
      returns (l: int)
      requires Shows(s, tail) && Threaded(code, l1, a) && Threaded(code, l2, b) && Pending(s.code, a + b) && Apart(a + b, s.jpc)
      requires Threaded(code, o, other) && Apart(other, a + b)
      modifies `code
      ensures Shows(s, tail) && Threaded(code, l, a + b) && Threaded(code, o, other) && Keeps(old(code), code, s, a + b)
      ensures |code| == |old(code)|
    {
      ghost var c := code;
      PendingHalves(s.code, a, b);
      l := Concat(l1, l2, a, b);
      LastOf(a, b);
      assert forall j :: 0 <= j < |c| && j !in a + b ==> code[j] == c[j];
      ThreadedIn(c, o, other);
      ThreadedKept(c, code, o, other);
      ThreadedIn(c, jpc, s.jpc);
      assert forall j :: j in s.jpc ==> j !in a + b;
      ThreadedKept(c, code, jpc, s.jpc);
      SameConcat(c[..|s.code|], code[..|s.code|], s.code, a + b);
      assert forall j :: j in a + b ==> j < |s.code|;
      assert code[|s.code|..] == c[|s.code|..];
    }

    method Exp2NextReg(e: ExpDesc, ghost s: State, ghost x: Exp) returns (e1: ExpDesc)
      requires StateOk(s) && ExpOk(s, x) && ShowsExp(e, x, s)
      modifies this
      ensures var (u, y) := CodeGen.Exp2NextReg(s, x); ShowsExp(e1, y, u) && Keeps(old(code), code, s, x.t + x.f)
    {
      hide StateOk, Threaded, SameCode, CodeGen.Exp2Reg, Frame, ExpOk, DischargeVars, CodeGen.FreeExp;
      ghost var c := code;
      DischargeVarsOk(s, x);
      var e0 := CodeVars(e, s, x);
      ghost var (s1, x1) := DischargeVars(s, x);
      ghost var d := code;
      FreeReserve(s1, x1);
      KindRegs(s1, x1);
      FreedIsNow(s1, x1.k);
      FreeExp(e0);
      ReserveReg();
      ghost var s2 := Reserve(CodeGen.FreeExp(s1, x1.k));
      e1 := Exp2Reg(e0, freereg - 1, s2, x1);
      KeepsVia(c, d, code, s, s1, x.t + x.f, x.t + x.f);
      NoneThere(code, NO_JUMP);
    }

    method Exp2AnyReg(e: ExpDesc, ghost s: State, ghost x: Exp) returns (e1: ExpDesc)
      requires StateOk(s) && ExpOk(s, x) && ShowsExp(e, x, s)
      modifies this
      ensures var (u, y) := CodeGen.Exp2AnyReg(s, x); ShowsExp(e1, y, u) && Keeps(old(code), code, s, x.t + x.f)
    {
      hide StateOk, Threaded, SameCode, CodeGen.Exp2Reg, CodeGen.Exp2NextReg, Frame, ExpOk, DischargeVars;
      ghost var c := code;
      DischargeVarsOk(s, x);
      e1 := CodeVars(e, s, x);
      ghost var (s1, x1) := DischargeVars(s, x);
      ghost var d := code;
      ExpLists(s1, x1);
      HeadsDiffer(code, e1.t, x1.t, e1.f, x1.f);
      if e1.k.ENonReloc? {
        if e1.t == e1.f {
          return;
        }
        if e1.k.r >= nactvar {
          e1 := Exp2Reg(e1, e1.k.r, s1, x1);
          KeepsVia(c, d, code, s, s1, x.t + x.f, x.t + x.f);
          NoneThere(code, NO_JUMP);
          return;
        }
      }
      e1 := Exp2NextReg(e1, s1, x1);
      KeepsVia(c, d, code, s, s1, x.t + x.f, x.t + x.f);
    }

    method Exp2Val(e: ExpDesc, ghost s: State, ghost x: Exp) returns (e1: ExpDesc)
      requires StateOk(s) && ExpOk(s, x) && ShowsExp(e, x, s)
      modifies this
      ensures var (u, y) := CodeGen.Exp2Val(s, x); ShowsExp(e1, y, u) && Keeps(old(code), code, s, x.t + x.f)
    {
      hide StateOk, Threaded, SameCode, CodeGen.Exp2AnyReg, ExpOk, DischargeVars;
      ExpLists(s, x);
      HeadsDiffer(code, e.t, x.t, e.f, x.f);
      if e.t != e.f {
        e1 := Exp2AnyReg(e, s, x);
      } else {
        e1 := CodeVars(e, s, x);
      }
    }

    /** luaK_exp2RK; the operand is that of the description returned. */
    method Exp2RK(e: ExpDesc, ghost s: State, ghost x: Exp) returns (e1: ExpDesc)
      requires StateOk(s) && ExpOk(s, x) && ShowsExp(e, x, s)
      modifies this
      ensures var (u, y) := CodeGen.Exp2RK(s, x); ShowsExp(e1, y, u) && Keeps(old(code), code, s, x.t + x.f)
    {
      hide StateOk, Threaded, SameCode, CodeGen.Exp2AnyReg, CodeGen.Exp2Val, ExpOk, Frame, IndexOf;
      ghost var c := code;
      Exp2ValOk(s, x);
      e1 := Exp2Val(e, s, x);
      ghost var (s1, x1) := CodeGen.Exp2Val(s, x);
      ghost var d := code;
      var constant: Option<Value> :=
        match e1.k
        case ENil => Some(Nil)
        case ETrue => Some(Bool(true))
        case EFalse => Some(Bool(false))
        case ENum(n) => Some(Number(n))
        case _ => None;
      if constant.Some? && |k| <= MAXINDEXRK {
        var i := AddConstant(constant.value);
        e1 := e1.(k := EK(i));
      } else if e1.k.EK? && e1.k.i <= MAXINDEXRK {
      } else {
        e1 := Exp2AnyReg(e1, s1, x1);
        KeepsTrans2(c, d, code, s, s1, x, x1);
      }
    }

    // ---------- Conditions ----------

    method Discharge2AnyReg(e: ExpDesc, ghost s: State, ghost x: Exp) returns (e1: ExpDesc)
      requires StateOk(s) && ExpOk(s, x) && ShowsExp(e, x, s) && Loadable(x.k)
      modifies `code, `jpc, `k, `freereg
      ensures var (u, r) := CodeGen.Discharge2AnyReg(s, x.k);
        Shows(u, []) && e1 == ExpDesc(ENonReloc(r), e.t, e.f) && Keeps(old(code), code, s, [])
      ensures Threaded(code, e.t, x.t) && Threaded(code, e.f, x.f)
    {
      hide StateOk, Threaded, SameCode, Load, Frame, ExpOk;
      e1 := e;
      if !e.k.ENonReloc? {
        ghost var n := s.freereg;
        ReserveReg();
        StateNact(s);
        RegsOnly(s, n + 1);
        ReservedExp(s, x);
        e1 := Discharge2Reg(e, freereg - 1, Reserve(s), x);
      }
    }

    /** jumponcond: a stored NOT is taken away again. */
    method JumpOnCond(e: ExpDesc, cond: bool, ghost s: State, ghost x: Exp) returns (j: nat)
      requires StateOk(s) && ExpOk(s, x) && ShowsExp(e, x, s) && Loadable(x.k)
      modifies `code, `jpc, `k, `freereg
      ensures var u := CodeGen.JumpOnCond(s, x.k, cond);
        Shows(u, []) && j == |u.code| - 1 && Threaded(code, j, [j]) && Keeps(old(code), code, s, [])
      ensures Threaded(code, e.t, x.t) && Threaded(code, e.f, x.f)
    {
      hide StateOk, Threaded, SameCode, Frame, ExpOk, CodeGen.CondJump, CodeGen.Discharge2AnyReg, Keeps, Pending, Apart;
      ghost var c := code;
      ExpLists(s, x);
      if e.k.ERelocable? && code[e.k.pc].Op? && code[e.k.pc].i.NotI? {
        var b := code[e.k.pc].i.b;
        code := code[..|code|-1];
        PoppedShows(s, x, c, code, e, jpc);
        j := CondJump(Test(b, !cond), s);
        CondJumpOk(s, Test(b, !cond));
        PoppedKeeps(c, code, s, x);
      } else {
        var e1 := Discharge2AnyReg(e, s, x);
        ghost var (s1, r) := CodeGen.Discharge2AnyReg(s, x.k);
        AnyRegOk(s, x.k);
        AnyRegFree(s, x.k);
        FreeExp(e1);
        ghost var d := code;
        ghost var u := CodeGen.FreeReg(s1, r);
        j := CondJump(TestSet(NO_REG, e1.k.r, cond), u);
        KeepsVia(c, d, code, s, u, [], []);
      }
      KeepsList(c, code, s, [], e.t, x.t);
      KeepsList(c, code, s, [], e.f, x.f);
    }

    /** invertjump on the comparison in front of a stored jump. */
    method InvertJump(pc: nat, ghost s: State, ghost test: Comparison)
      requires Shows(s, Tail(VJmp(test))) && pc == |s.code| + 1 && s.jpc == []
      modifies `code
      ensures Shows(s, Tail(VJmp(Invert(test)))) && Keeps(old(code), code, s, [])
    {
      ghost var c := code;
      assert c[pc-1] == c[|s.code|..][0];
      var at := GetJumpControl(pc);
      var i := code[at].i;
      code := code[at := Op(i.(cond := !i.cond))];
      assert code[..|s.code|] == c[..|s.code|];
      ThreadedIn(c, jpc, s.jpc);
      ThreadedTail(c, code, s, jpc, s.jpc);
    }

    /** The cases of luaK_goiftrue (cond false) and luaK_goiffalse (cond true): the list of the
        jump taken when the value is true just as cond. */
    method Branch(e: ExpDesc, cond: bool, ghost s: State, ghost x: Exp) returns (pc: int)
      requires StateOk(s) && ExpOk(s, x) && ShowsExp(e, x, s) && !x.k.VLocal? && !x.k.VUpval?
      modifies `code, `jpc, `k, `freereg
      ensures var (u, list) := CodeGen.Branch(s, x.k, cond);
        Shows(u, []) && Threaded(code, pc, list) && Keeps(old(code), code, s, [])
      ensures Threaded(code, e.t, x.t) && Threaded(code, e.f, x.f)
    {
      hide StateOk, Threaded, SameCode, Frame, ExpOk, CodeGen.JumpOnCond, JumpState, JumpList, Keeps, Pending, Apart, CodeGen.CondJump;
      ghost var c := code;
      KeepsSelf(c, s);
      ExpLists(s, x);
      pc := NO_JUMP;
      if (if cond then e.k.ENil? || e.k.EFalse? else e.k.EK? || e.k.ENum? || e.k.ETrue?) {
        NoneThere(code, pc);
      } else if e.k == (if cond then ETrue else EFalse) {
        pc := Jump(s);
        KeepsJpc(c, code, s);
      } else if e.k.EJmp? {
        if !cond {
          InvertJump(e.k.pc, s, x.k.test);
        }
        pc := e.k.pc;
        StoredJump(s, x.(k := VJmp(if cond then x.k.test else Invert(x.k.test))), code);
      } else {
        pc := JumpOnCond(e, cond, s, x);
      }
      KeepsList(c, code, s, [], e.t, x.t);
      KeepsList(c, code, s, [], e.f, x.f);
    }

    /** luaK_goiftrue; the list returned leaves when the value is false. */
    method GoIfTrue(e: ExpDesc, ghost s: State, ghost x: Exp) returns (f: int)
      requires StateOk(s) && ExpOk(s, x) && ShowsExp(e, x, s)
      modifies this
      ensures var (u, list) := CodeGen.GoIfTrue(s, x);
        Shows(u, []) && Threaded(code, f, list) && Keeps(old(code), code, s, x.t + x.f)
    {
      hide StateOk, Threaded, SameCode, Frame, ExpOk, DischargeVars, CodeGen.Branch, Keeps;
      ghost var c := code;
      DischargeVarsOk(s, x);
      var e1 := CodeVars(e, s, x);
      ghost var (s1, x1) := DischargeVars(s, x);
      ghost var d := code;
      var pc := Branch(e1, false, s1, x1);
      ghost var (s2, list) := CodeGen.Branch(s1, x1.k, false);
      ghost var d1 := code;
      BranchLists(s1, x1, false);
      f := ConcatShown(e1.f, pc, s2, x.f, list, x.t, e1.t, []);
      ghost var d2 := code;
      PatchToHere(e1.t, s2, x.t);
      KeepsList(d2, code, s2, x.t, f, x.f + list);
      GoIfKeeps(s, s1, x1, false, c, d, d1, d2, code, x.f + list, x.t);
    }

    method GoIfFalse(e: ExpDesc, ghost s: State, ghost x: Exp) returns (t: int)
      requires StateOk(s) && ExpOk(s, x) && ShowsExp(e, x, s)
      modifies this
      ensures var (u, list) := CodeGen.GoIfFalse(s, x);
        Shows(u, []) && Threaded(code, t, list) && Keeps(old(code), code, s, x.t + x.f)
    {
      hide StateOk, Threaded, SameCode, Frame, ExpOk, DischargeVars, CodeGen.Branch, Keeps;
      ghost var c := code;
      DischargeVarsOk(s, x);
      var e1 := CodeVars(e, s, x);
      ghost var (s1, x1) := DischargeVars(s, x);
      ghost var d := code;
      var pc := Branch(e1, true, s1, x1);
      ghost var (s2, list) := CodeGen.Branch(s1, x1.k, true);
      ghost var d1 := code;
      BranchLists(s1, x1, true);
      t := ConcatShown(e1.t, pc, s2, x.t, list, x.f, e1.f, []);
      ghost var d2 := code;
      PatchToHere(e1.f, s2, x.f);
      KeepsList(d2, code, s2, x.f, t, x.t + list);
      GoIfKeeps(s, s1, x1, true, c, d, d1, d2, code, x.t + list, x.f);
    }

    // ---------- Negation and comparison ----------

    /** removevalues on a list of the expression. */
    method RemoveShown(list: int, ghost s: State, ghost tail: seq<Word>, ghost jumps: seq<nat>)
      requires Shows(s, tail) && Threaded(code, list, jumps) && Pending(s.code, jumps)
      modifies `code
      ensures Shows(Dropped(s, jumps), tail) && |code| == |old(code)|
      ensures forall j :: 0 <= j < |code| && old(code)[j].Offset? ==> code[j] == old(code)[j]
    {
      ghost var c := code;
      PendingOnce(s.code, jumps);
      RemoveValues(list, jumps);
      DropSame(c[..|s.code|], code[..|s.code|], s.code, jumps);
      ThreadedIn(c, jpc, s.jpc);
      ThreadedKept(c, code, jpc, s.jpc);
      assert forall j :: j in jumps ==> j < |s.code|;
      assert code[|s.code|..] == c[|s.code|..];
    }

    /** The value half of codenot. */
    method NotValue(e: ExpDesc, ghost s: State, ghost x: Exp) returns (e1: ExpDesc)
      requires StateOk(s) && ExpOk(s, x) && ShowsExp(e, x, s) && !x.k.VLocal? && !x.k.VUpval?
      modifies `code, `jpc, `k, `freereg
      ensures var (u, k1) := CodeGen.NotValue(s, x.k);
        Shows(u, Tail(k1)) && e1 == ExpDesc(KindAt(k1, |u.code|), e.t, e.f) && Keeps(old(code), code, s, [])
      ensures Threaded(code, e.t, x.t) && Threaded(code, e.f, x.f)
    {
      hide StateOk, Threaded, SameCode, Frame, ExpOk, CodeGen.Discharge2AnyReg, Discharge;
      ghost var c := code;
      ExpLists(s, x);
      e1 := e;
      if e.k.ENil? || e.k.EFalse? {
        e1 := e.(k := ETrue);
      } else if e.k.EK? || e.k.ENum? || e.k.ETrue? {
        e1 := e.(k := EFalse);
      } else if e.k.EJmp? {
        InvertJump(e.k.pc, s, x.k.test);
      } else {
        e1 := Discharge2AnyReg(e, s, x);
        ghost var (s1, r) := CodeGen.Discharge2AnyReg(s, x.k);
        AnyRegOk(s, x.k);
        AnyRegFree(s, x.k);
        FreeExp(e1);
        ghost var d := code;
        ghost var u := CodeGen.FreeReg(s1, r);
        var pc := CodePending(NotOf(e1.k.r), u);
        e1 := e1.(k := ERelocable(pc));
        DischargeParts(u);
        KeepsVia(c, d, code, s, u, [], []);
      }
      KeepsList(c, code, s, [], e.t, x.t);
      KeepsList(c, code, s, [], e.f, x.f);
    }

    method CodeNot(e: ExpDesc, ghost s: State, ghost x: Exp) returns (e1: ExpDesc)
      requires StateOk(s) && ExpOk(s, x) && ShowsExp(e, x, s)
      modifies `code, `jpc, `k, `freereg
      ensures var (u, y) := CodeGen.CodeNot(s, x); ShowsExp(e1, y, u) && Keeps(old(code), code, s, [])
    {
      hide StateOk, Threaded, SameCode, Frame, ExpOk, DischargeVars, CodeGen.NotValue, Keeps, DropValues;
      ghost var c := code;
      DischargeVarsOk(s, x);
      e1 := CodeVars(e, s, x);
      ghost var (s1, x1) := DischargeVars(s, x);
      ghost var d := code;
      ExpParts(s1, x1);
      NotValueOk(s1, x1.k);
      e1 := NotValue(e1, s1, x1);
      ghost var (s2, k1) := CodeGen.NotValue(s1, x1.k);
      ghost var d1 := code;
      NoneIn(x.t);
      NoneIn(x.f);
      ListsStay(s1, s2, x.t, x.f, []);
      ListsParts(s2, x.t, x.f);
      e1 := e1.(t := e1.f, f := e1.t);
      RemoveShown(e1.f, s2, Tail(k1), x.t);
      ghost var d2 := code;
      ThreadedOffsets(d1, d2, e1.f, x.t);
      ThreadedOffsets(d1, d2, e1.t, x.f);
      DropPending(s2.code, x.t, x.f);
      RemoveShown(e1.t, Dropped(s2, x.t), Tail(k1), x.f);
      ThreadedOffsets(d2, code, e1.f, x.t);
      ThreadedOffsets(d2, code, e1.t, x.f);
      NotKeeps(s, s1, s2, c, d, d1, d2, code);
    }

    method FreeBoth(e2: ExpDesc, e1: ExpDesc)
      requires e2.k.ENonReloc? ==> e2.k.r >= nactvar ==> e2.k.r + 1 == freereg
      requires e1.k.ENonReloc? ==> e1.k.r >= nactvar ==>
                 e1.k.r + 1 == if e2.k.ENonReloc? && e2.k.r >= nactvar then e2.k.r else freereg
      modifies `freereg
      ensures freereg == if e1.k.ENonReloc? && e1.k.r >= nactvar then e1.k.r
                         else if e2.k.ENonReloc? && e2.k.r >= nactvar then e2.k.r else old(freereg)
    {
      FreeExp(e2);
      FreeExp(e1);
    }

    /** A comparison and its jump, as an expression. */
    method CodeTest(test: Comparison, ghost s: State) returns (e: ExpDesc)
      requires StateOk(s) && Shows(s, [])
      modifies `code, `jpc
      ensures ShowsExp(e, Exp(VJmp(test), [], []), Discharge(s)) && Keeps(old(code), code, s, [])
    {
      hide StateOk, Threaded, SameCode, Discharge, CodeGen.CondJump, Keeps;
      var j := CondJump(TestInstr(test), s);
      e := ExpDesc(EJmp(j), NO_JUMP, NO_JUMP);
      CompShown(s, test, code);
    }

    /** codecomp with the operator of luaK_posfix; luaK_exp2RK on the first operand again would
        only read it. */
    method CodeComp(op: Cmp, e1: ExpDesc, e2: ExpDesc, ghost s: State, ghost k1: Kind, ghost x2: Exp) returns (e: ExpDesc)
      requires StateOk(s) && ExpOk(s, x2) && ShowsExp(e2, x2, s)
      requires (k1.VK? || k1.VNonReloc?) && e1.k == KindAt(k1, 0)
      requires OperandBelow(s, k1, BaseReg(s, x2.k)) && s.nactvar <= BaseReg(s, x2.k)
      modifies this
      ensures var (u, y) := CodeGen.CodeComp(s, op, k1, x2); ShowsExp(e, y, u) && Keeps(old(code), code, s, x2.t + x2.f)
    {
      hide StateOk, Threaded, SameCode, Frame, ExpOk, CodeGen.Exp2RK, Discharge, CodeGen.CondJump, Keeps, OperandBelow, BaseReg,
        CodeGen.FreeExp, TestOf;
      CompRegs(s, k1, x2);
      ghost var c := code;
      Exp2RKOk(s, x2);
      var e3 := Exp2RK(e2, s, x2);
      ghost var (s1, x3) := CodeGen.Exp2RK(s, x2);
      ghost var d := code;
      var o1 := if e1.k.EK? then Const(e1.k.i) else Reg(e1.k.r);
      var o2 := if e3.k.EK? then Const(e3.k.i) else Reg(e3.k.r);
      FreeBoth(e3, e1);
      ghost var s2 := CodeGen.FreeExp(CodeGen.FreeExp(s1, x3.k), k1);
      RegsOnly2(s, s1, s2, op, k1, x2);
      e := CodeTest(TestOf(op, o1, o2), s2);
      KeepsRegs(d, code, s1, s2);
      KeepsTrans(c, d, code, s, s1, x2.t + x2.f);
    }

    // ---------- Expressions ----------

    /** subexpr and simpleexp on a parsed expression. */
    method CodeExpr(x: Expr, ghost s: State) returns (e: ExpDesc)
      requires StateOk(s) && InScope(x, s.nactvar) && Shows(s, [])
      modifies this
      ensures ShowsExp(e, Compile(s, x).e, Compile(s, x).s) && Keeps(old(code), code, s, [])
      decreases x
    {
      hide StateOk, Threaded, SameCode, Frame, Keeps, CodeGen.CodeNot, CodeGen.GoIfTrue, CodeGen.GoIfFalse, CodeGen.Exp2RK,
        CodeGen.CodeComp, DischargeVars, ExpOk;
      NoneThere(code, NO_JUMP);
      ghost var c := code;
      KeepsSelf(c, s);
      match x {
        case NilE => e := ExpDesc(ENil, NO_JUMP, NO_JUMP);
        case TrueE => e := ExpDesc(ETrue, NO_JUMP, NO_JUMP);
        case FalseE => e := ExpDesc(EFalse, NO_JUMP, NO_JUMP);
        case Num(n) => e := ExpDesc(ENum(n), NO_JUMP, NO_JUMP);
        case Str(t) =>
          var i := AddConstant(Text(t));
          e := ExpDesc(EK(i), NO_JUMP, NO_JUMP);
        case Local(r) => e := ExpDesc(ELocal(r), NO_JUMP, NO_JUMP);
        case Upval(u) => e := ExpDesc(EUpval(u), NO_JUMP, NO_JUMP);
        case Paren(y) =>
          e := CodeParen(y, s);
        case Not(y) =>
          e := CodeNegation(y, s);
        case And(l, y) =>
          e := CodeAnd(l, y, s);
        case Or(l, y) =>
          e := CodeOr(l, y, s);
        case Compar(op, l, y) =>
          e := CodeComparison(op, l, y, s);
      }
    }

    method CodeParen(y: Expr, ghost s: State) returns (e: ExpDesc)
      requires StateOk(s) && InScope(y, s.nactvar) && Shows(s, [])
      modifies this
      ensures ShowsExp(e, Compile(s, Paren(y)).e, Compile(s, Paren(y)).s) && Keeps(old(code), code, s, [])
      decreases Paren(y), 0
    {
      ParenIs(s, y);
      hide Compile, InScope, StateOk, Threaded, SameCode, Frame, Keeps, DischargeVars, ExpOk, Built;
      ghost var c := code;
      CompileBuilds(s, y);
      e := CodeExpr(y, s);
      ghost var d, b := code, Compile(s, y);
      BuiltParts(s, b.s, b.e);
      e := CodeVars(e, b.s, b.e);
      KeepsVia(c, d, code, s, b.s, [], []);
    }

    method CodeNegation(y: Expr, ghost s: State) returns (e: ExpDesc)
      requires StateOk(s) && InScope(y, s.nactvar) && Shows(s, [])
      modifies this
      ensures ShowsExp(e, Compile(s, Not(y)).e, Compile(s, Not(y)).s) && Keeps(old(code), code, s, [])
      decreases Not(y), 0
    {
      NotIs(s, y);
      hide Compile, InScope, StateOk, Threaded, SameCode, Frame, Keeps, CodeGen.CodeNot, ExpOk, Built;
      ghost var c := code;
      CompileBuilds(s, y);
      e := CodeExpr(y, s);
      ghost var d, b := code, Compile(s, y);
      BuiltParts(s, b.s, b.e);
      e := CodeNot(e, b.s, b.e);
      KeepsVia(c, d, code, s, b.s, [], []);
    }

    /** luaK_infix and luaK_posfix for `and'. */
    method CodeAnd(l: Expr, y: Expr, ghost s: State) returns (e: ExpDesc)
      requires StateOk(s) && InScope(And(l, y), s.nactvar) && Shows(s, [])
      modifies this
      ensures ShowsExp(e, Compile(s, And(l, y)).e, Compile(s, And(l, y)).s) && Keeps(old(code), code, s, [])
      decreases And(l, y), 0
    {
      AndIs(s, l, y);
      ScopeParts(l, y, s.nactvar);
      hide Compile, InScope, StateOk, Threaded, SameCode, Frame, Keeps, CodeGen.GoIfTrue, DischargeVars, ExpOk, Built, Halfway;
      ghost var c := code;
      CompileBuilds(s, l);
      e := CodeExpr(l, s);
      ghost var b := Compile(s, l);
      ghost var d := code;
      BuiltParts(s, b.s, b.e);
      BuiltGoIf(s, b.s, b.e, false);
      var f := GoIfTrue(e, b.s, b.e);
      ghost var (s1, list) := CodeGen.GoIfTrue(b.s, b.e);
      ghost var d1 := code;
      HalfwayParts(s, s1, list);
      CompileBuilds(s1, y);
      e := CodeExpr(y, s1);
      ghost var d2, b2 := code, Compile(s1, y);
      BuiltParts(s1, b2.s, b2.e);
      e := CodeVars(e, b2.s, b2.e);
      ghost var (s2, x2) := DischargeVars(b2.s, b2.e);
      DischargeVarsOk(b2.s, b2.e);
      BuiltVars(s1, b2.s, b2.e);
      JoinLists(s, s1, list, s2, x2);
      KeepsVia(d1, d2, code, s1, b2.s, [], []);
      KeepsList(d1, code, s1, [], f, list);
      ghost var d3 := code;
      var joined := ConcatShown(e.f, f, s2, x2.f, list, x2.t, e.t, Tail(x2.k));
      e := e.(f := joined);
      LogicKeeps(s, b.s, b.e, s1, list, s2, x2, x2.f, c, d, d1, d3, code);
    }

    method CodeOr(l: Expr, y: Expr, ghost s: State) returns (e: ExpDesc)
      requires StateOk(s) && InScope(Or(l, y), s.nactvar) && Shows(s, [])
      modifies this
      ensures ShowsExp(e, Compile(s, Or(l, y)).e, Compile(s, Or(l, y)).s) && Keeps(old(code), code, s, [])
      decreases Or(l, y), 0
    {
      OrIs(s, l, y);
      ScopeParts(l, y, s.nactvar);
      hide Compile, InScope, StateOk, Threaded, SameCode, Frame, Keeps, CodeGen.GoIfFalse, DischargeVars, ExpOk, Built, Halfway;
      ghost var c := code;
      CompileBuilds(s, l);
      e := CodeExpr(l, s);
      ghost var b := Compile(s, l);
      ghost var d := code;
      BuiltParts(s, b.s, b.e);
      BuiltGoIf(s, b.s, b.e, true);
      var t := GoIfFalse(e, b.s, b.e);
      ghost var (s1, list) := CodeGen.GoIfFalse(b.s, b.e);
      ghost var d1 := code;
      HalfwayParts(s, s1, list);
      CompileBuilds(s1, y);
      e := CodeExpr(y, s1);
      ghost var d2, b2 := code, Compile(s1, y);
      BuiltParts(s1, b2.s, b2.e);
      e := CodeVars(e, b2.s, b2.e);
      ghost var (s2, x2) := DischargeVars(b2.s, b2.e);
      DischargeVarsOk(b2.s, b2.e);
      BuiltVars(s1, b2.s, b2.e);
      JoinLists(s, s1, list, s2, x2);
      KeepsVia(d1, d2, code, s1, b2.s, [], []);
      KeepsList(d1, code, s1, [], t, list);
      ghost var d3 := code;
      var joined := ConcatShown(e.t, t, s2, x2.t, list, x2.f, e.f, Tail(x2.k));
      e := e.(t := joined);
      LogicKeeps(s, b.s, b.e, s1, list, s2, x2, x2.t, c, d, d1, d3, code);
    }

    method CodeComparison(op: Cmp, l: Expr, y: Expr, ghost s: State) returns (e: ExpDesc)
      requires StateOk(s) && InScope(Compar(op, l, y), s.nactvar) && Shows(s, [])
      modifies this
      ensures ShowsExp(e, Compile(s, Compar(op, l, y)).e, Compile(s, Compar(op, l, y)).s) && Keeps(old(code), code, s, [])
      decreases Compar(op, l, y), 0
    {
      ComparIs(s, op, l, y);
      ScopeCompar(op, l, y, s.nactvar);
      hide Compile, InScope, StateOk, Threaded, SameCode, Frame, Keeps, CodeGen.Exp2RK, CodeGen.CodeComp, ExpOk, Built, OperandReady;
      ghost var c := code;
      CompileBuilds(s, l);
      e := CodeExpr(l, s);
      ghost var b := Compile(s, l);
      ghost var d := code;
      BuiltParts(s, b.s, b.e);
      BuiltOperand(s, b.s, b.e);
      var e1 := Exp2RK(e, b.s, b.e);
      ghost var (s1, x1) := CodeGen.Exp2RK(b.s, b.e);
      ghost var d1 := code;
      OperandParts(s, s1, x1);
      OperandKind(s, s1, x1);
      CompileBuilds(s1, y);
      var e2 := CodeExpr(y, s1);
      ghost var b2 := Compile(s1, y);
      ghost var d2 := code;
      BuiltParts(s1, b2.s, b2.e);
      BuiltComp(s, s1, x1, b2.s, op, b2.e);
      e := CodeComp(op, e1, e2, b2.s, x1.k, b2.e);
      CompareKeeps(s, b.s, b.e, s1, b2.s, b2.e, c, d, d1, d2, code);
    }
  }
}
