/** Jump lists as they are stored: threaded through the offsets of the jumps they consist of. */
module JumpLists {
  import opened LuaVm
  import opened JumpPatch

  const NO_JUMP := -1

  /** A stored instruction; a jump holds its offset, in a list the offset of the next jump. */
  datatype Word = Op(i: Instr) | Offset(sbx: int)

  /** getjump: the next jump of the list, NO_JUMP for the last. */
  function NextJump(code: seq<Word>, pc: nat): int
    requires pc < |code| && code[pc].Offset?
  {
    if code[pc].sbx == NO_JUMP then NO_JUMP else pc + 1 + code[pc].sbx
  }

  /** The jumps of the list that starts at head are those of list, in that order. */
  predicate Threaded(code: seq<Word>, head: int, list: seq<nat>)
    decreases |list|
  {
    if list == [] then head == NO_JUMP
    else head == list[0] && list[0] < |code| && code[list[0]].Offset? && Threaded(code, NextJump(code, list[0]), list[1..])
  }

  predicate SameWord(w: Word, i: Instr, pc: nat) {
    if i.Jmp? then w.Offset? && (i.dest.To? ==> w.sbx == i.dest.pc - (pc + 1)) else w == Op(i)
  }

  /** The stored code is the code, apart from the offsets of pending jumps. */
  ghost predicate SameCode(words: seq<Word>, code: seq<Instr>) {
    |words| == |code| && forall i :: 0 <= i < |code| ==> SameWord(words[i], code[i], i)
  }

  // ---------- Threaded lists ----------

  lemma {:induction false} ThreadedKept(c: seq<Word>, d: seq<Word>, head: int, list: seq<nat>)
    requires Threaded(c, head, list) && forall j :: j in list ==> j < |c| && j < |d| && d[j] == c[j]
    ensures Threaded(d, head, list)
    decreases |list|
  {
    if list != [] {
      assert list[0] in list && forall j :: j in list[1..] ==> j in list;
      ThreadedKept(c, d, NextJump(c, list[0]), list[1..]);
    }
  }

  lemma {:induction false} ThreadedIn(c: seq<Word>, head: int, list: seq<nat>)
    requires Threaded(c, head, list)
    ensures forall j :: j in list ==> j < |c| && c[j].Offset?
    decreases |list|
  {
    if list != [] {
      ThreadedIn(c, NextJump(c, list[0]), list[1..]);
      assert list == [list[0]] + list[1..];
    }
  }

  /** A list has no other reading. */
  lemma {:induction false} ThreadedOnce(c: seq<Word>, head: int, a: seq<nat>, b: seq<nat>)
    requires Threaded(c, head, a) && Threaded(c, head, b)
    ensures a == b
    decreases |a|
  {
    if a != [] && b != [] {
      ThreadedOnce(c, NextJump(c, a[0]), a[1..], b[1..]);
      assert a == [a[0]] + a[1..] && b == [b[0]] + b[1..];
    }
  }

  predicate NoRepeat(list: seq<nat>) { forall x, y :: 0 <= x < y < |list| ==> list[x] != list[y] }

  /** Linking the last jump of one list to the first of another appends the lists. */
  lemma {:induction false} ThreadedAppend(c: seq<Word>, d: seq<Word>, head: int, a: seq<nat>, b: seq<nat>)
    requires Threaded(c, head, a) && a != [] && b != [] && NoRepeat(a) && |d| == |c|
    requires Threaded(d, b[0], b) && a[|a|-1] != b[0] && a[|a|-1] < |c|
    requires d[a[|a|-1]] == Offset(b[0] as int - (a[|a|-1] as int + 1))
    requires forall j :: j in a && j != a[|a|-1] ==> j < |c| && d[j] == c[j]
    ensures Threaded(d, head, a + b)
    decreases |a|
  {
    var last := a[|a|-1];
    if |a| == 1 {
      assert (a + b)[0] == last && (a + b)[1..] == b;
      assert NextJump(d, last) == b[0];
    } else {
      assert a[0] in a && a[0] != last && d[a[0]] == c[a[0]];
      assert a[1..][|a|-2] == last;
      assert forall j :: j in a[1..] ==> j in a;
      ThreadedAppend(c, d, NextJump(c, a[0]), a[1..], b);
      assert (a + b)[0] == a[0] && (a + b)[1..] == a[1..] + b;
    }
  }

  // ---------- Patching stored code ----------

  predicate IsTestSetWord(w: Word) { w.Op? && w.i.TestSet? }

  function PatchedWord(c: seq<Word>, i: nat, list: seq<nat>, vtarget: int, reg: int, dtarget: int): Word
    requires i < |c|
  {
    if i in list then Offset((if i >= 1 && IsTestSetWord(c[i-1]) then vtarget else dtarget) - (i + 1))
    else if i + 1 in list && IsTestSetWord(c[i]) then Op(PatchTest(c[i].i, reg))
    else c[i]
  }

  ghost predicate PatchedWords(c: seq<Word>, d: seq<Word>, list: seq<nat>, vtarget: int, reg: int, dtarget: int) {
    |d| == |c| && forall i :: 0 <= i < |c| ==> d[i] == PatchedWord(c, i, list, vtarget, reg, dtarget)
  }

  function DroppedWord(c: seq<Word>, i: nat, list: seq<nat>): Word
    requires i < |c|
  {
    if i + 1 in list && IsTestSetWord(c[i]) then Op(PatchTest(c[i].i, NO_REG)) else c[i]
  }

  ghost predicate DroppedWords(c: seq<Word>, d: seq<Word>, list: seq<nat>) {
    |d| == |c| && forall i :: 0 <= i < |c| ==> d[i] == DroppedWord(c, i, list)
  }

  /** One more jump patched. */
  lemma PatchedMore(c: seq<Word>, d: seq<Word>, e: seq<Word>, done: seq<nat>, j: nat, vtarget: int, reg: int, dtarget: int)
    requires PatchedWords(c, d, done, vtarget, reg, dtarget) && j < |c| && j !in done && c[j].Offset?
    requires forall x :: x in done ==> x < |c| && c[x].Offset?
    requires var set1 := j >= 1 && IsTestSetWord(d[j-1]);
      e == (if set1 then d[j - 1 := Op(PatchTest(d[j-1].i, reg))] else d)[j := Offset((if set1 then vtarget else dtarget) - (j + 1))]
    ensures PatchedWords(c, e, done + [j], vtarget, reg, dtarget)
  {
    forall i | 0 <= i < |c|
      ensures e[i] == PatchedWord(c, i, done + [j], vtarget, reg, dtarget)
    {
      assert d[i] == PatchedWord(c, i, done, vtarget, reg, dtarget);
      if j >= 1 {
        assert d[j-1] == PatchedWord(c, j - 1, done, vtarget, reg, dtarget);
      }
    }
  }

  /** Targets that no jump of the list uses may be anything. */
  lemma PatchSame(c: seq<Word>, d: seq<Word>, code: seq<Instr>, list: seq<nat>, vtarget: nat, reg: int, dtarget: int, used: nat)
    requires SameCode(c, code) && PatchedWords(c, d, list, vtarget, reg, dtarget)
    requires dtarget == used || forall j :: j in list ==> KeepsValue(code, j)
    ensures SameCode(d, Patch(code, list, vtarget, reg, used))
  {
    var r := Patch(code, list, vtarget, reg, used);
    forall i | 0 <= i < |code|
      ensures SameWord(d[i], r[i], i)
    {
      assert SameWord(c[i], code[i], i);
      assert r[i] == PatchedAt(code, i, list, vtarget, reg, used);
      if i >= 1 {
        assert SameWord(c[i-1], code[i-1], i - 1);
      }
    }
  }

  lemma DropSame(c: seq<Word>, d: seq<Word>, code: seq<Instr>, list: seq<nat>)
    requires SameCode(c, code) && DroppedWords(c, d, list)
    ensures SameCode(d, DropValues(code, list))
  {
    var r := DropValues(code, list);
    forall i | 0 <= i < |code|
      ensures SameWord(d[i], r[i], i)
    {
      assert SameWord(c[i], code[i], i);
      assert r[i] == DroppedAt(code, i, list);
    }
  }

  /** Dropping a value touches no jump. */
  lemma DroppedAtJump(c: seq<Word>, d: seq<Word>, list: seq<nat>, j: nat)
    requires DroppedWords(c, d, list) && j < |c| && c[j].Offset?
    ensures |d| == |c| && d[j] == c[j]
  {}

  lemma DroppedNone(c: seq<Word>)
    ensures DroppedWords(c, c, [])
  {}

  /** One more test without its register. */
  lemma DroppedMore(c: seq<Word>, d: seq<Word>, e: seq<Word>, done: seq<nat>, j: nat)
    requires DroppedWords(c, d, done) && j < |c| && j !in done && c[j].Offset?
    requires e == if j >= 1 && IsTestSetWord(d[j-1]) then d[j - 1 := Op(PatchTest(d[j-1].i, NO_REG))] else d
    ensures DroppedWords(c, e, done + [j])
  {
    forall i | 0 <= i < |c|
      ensures e[i] == DroppedWord(c, i, done + [j])
    {
      assert d[i] == DroppedWord(c, i, done);
    }
  }

  lemma DroppedThreads(c: seq<Word>, d: seq<Word>, head: int, list: seq<nat>)
    requires DroppedWords(c, d, list) && Threaded(c, head, list)
    ensures Threaded(d, head, list)
  {
    ThreadedIn(c, head, list);
    ThreadedKept(c, d, head, list);
  }

  lemma NextSame(c: seq<Word>, d: seq<Word>, j: nat)
    requires |d| == |c| && j < |c| && c[j].Offset? && d[j] == c[j]
    ensures NextJump(d, j) == NextJump(c, j)
  {}

  // ---------- Walking a list ----------

  /** The walk is at its end. */
  lemma AllWalked(c: seq<Word>, l: int, jumps: seq<nat>, i: nat)
    requires i <= |jumps| && Threaded(c, l, jumps[i..]) && l == NO_JUMP
    ensures i == |jumps| && jumps[..i] == jumps
  {}

  lemma PatchNone(c: seq<Word>, vtarget: int, reg: int, dtarget: int)
    ensures PatchedWords(c, c, [], vtarget, reg, dtarget)
  {}

  /** The walk stands at jumps[i]. */
  lemma NextInList(c: seq<Word>, l: int, head: int, jumps: seq<nat>, i: nat)
    requires i <= |jumps| && Threaded(c, l, jumps[i..]) && l != NO_JUMP && Threaded(c, head, jumps)
    ensures i < |jumps| && l == jumps[i] && jumps[i] < |c| && c[jumps[i]].Offset?
    ensures Threaded(c, NextJump(c, jumps[i]), jumps[i+1..]) && jumps[..i+1] == jumps[..i] + [jumps[i]]
    ensures forall x :: x in jumps[..i] ==> x < |c| && c[x].Offset?
  {
    assert i < |jumps|;
    assert jumps[i..][0] == jumps[i] && jumps[i..][1..] == jumps[i+1..];
    ThreadedIn(c, head, jumps);
    assert forall x :: x in jumps[..i] ==> x in jumps;
  }

  lemma ListDone(c: seq<Word>, jumps: seq<nat>, i: nat)
    requires i <= |jumps| && Threaded(c, NO_JUMP, jumps[i..])
    ensures jumps[..i] == jumps
  {
    assert jumps[i..] == [];
  }

  lemma PatchNotYet(c: seq<Word>, d: seq<Word>, jumps: seq<nat>, i: nat, vtarget: int, reg: int, dtarget: int)
    requires i < |jumps| && NoRepeat(jumps) && jumps[i] < |c| && c[jumps[i]].Offset?
    requires PatchedWords(c, d, jumps[..i], vtarget, reg, dtarget)
    ensures jumps[i] !in jumps[..i] && |d| == |c| && d[jumps[i]] == c[jumps[i]]
  {
    assert d[jumps[i]] == PatchedWord(c, jumps[i], jumps[..i], vtarget, reg, dtarget);
  }
}
