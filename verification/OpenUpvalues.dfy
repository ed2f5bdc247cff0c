/** Captured variables: the list of open upvalues of a thread, against a store in which
    every variable has a cell of its own. */
module OpenUpvalues {

  type Value = int

  const NULL := -1

  /** While open, an upvalue stands for a stack slot; closed, it holds the value itself. An
      upvalue the last collection did not reach is dead. */
  datatype UpVal = UpVal(open: bool, level: nat, value: Value, dead: bool, next: int)

  /** What the links and the stack mean: the open upvalues in order, the variable each upvalue
      stands for, the variable in each slot, and the value of each variable there ever was. */
  datatype Meaning = Meaning(chain: seq<nat>, cell: map<nat, nat>, slotVar: seq<nat>, vars: seq<Value>)

  /** The chain follows the links from the head on. */
  ghost predicate Linked(head: int, heap: seq<UpVal>, chain: seq<nat>) {
    && (head == if chain == [] then NULL else chain[0])
    && (forall i :: 0 <= i < |chain| ==> chain[i] < |heap|)
    && (forall i, j :: 0 <= i < j < |chain| && j == i + 1 ==> heap[chain[i]].next == chain[j])
    && (chain != [] ==> heap[chain[|chain|-1]].next == NULL)
  }

  /** It goes strictly down the stack and has exactly the open upvalues. */
  ghost predicate Descending(heap: seq<UpVal>, m: Meaning) {
    && (forall i :: 0 <= i < |m.chain| ==> m.chain[i] < |heap| && m.chain[i] in m.cell && heap[m.chain[i]].open)
    && (forall i, j :: 0 <= i < j < |m.chain| ==> heap[m.chain[i]].level > heap[m.chain[j]].level)
    && (forall u :: u in m.cell ==> u < |heap| && (heap[u].open ==> u in m.chain))
  }

  /** Every slot holds the value of its own variable. */
  ghost predicate Slots(stack: seq<Value>, m: Meaning) {
    && |m.slotVar| == |stack|
    && (forall i :: 0 <= i < |stack| ==> m.slotVar[i] < |m.vars| && stack[i] == m.vars[m.slotVar[i]])
    && (forall i, j :: 0 <= i < j < |stack| ==> m.slotVar[i] != m.slotVar[j])
  }

  /** An open upvalue stands for the variable in its slot, a closed one holds the value of a
      variable that has left the stack; no two stand for the same variable. */
  ghost predicate Cells(heap: seq<UpVal>, m: Meaning) {
    && (forall u :: u in m.cell ==> u < |heap| && m.cell[u] < |m.vars|)
    && (forall u :: u in m.cell && heap[u].open ==> heap[u].level < |m.slotVar| && m.cell[u] == m.slotVar[heap[u].level])
    && (forall u :: u in m.cell && !heap[u].open ==> heap[u].value == m.vars[m.cell[u]] && m.cell[u] !in m.slotVar)
    && (forall u, v :: u in m.cell && v in m.cell && u != v ==> m.cell[u] != m.cell[v])
  }

  ghost predicate Ok(stack: seq<Value>, heap: seq<UpVal>, head: int, m: Meaning) {
    Linked(head, heap, m.chain) && Descending(heap, m) && Slots(stack, m) && Cells(heap, m)
  }

  /** No variable that was there has another value. */
  ghost predicate Keeps(m: Meaning, m1: Meaning) {
    |m.vars| <= |m1.vars| && m1.vars[..|m.vars|] == m.vars
    && forall u :: u in m1.cell && u in m.cell ==> m1.cell[u] == m.cell[u]
  }

  class Thread {
    var stack: seq<Value>
    var heap: seq<UpVal>
    var openupval: int
    ghost var m: Meaning

    ghost predicate Valid()
      reads this
    {
      Ok(stack, heap, openupval, m)
    }

    constructor (s: seq<Value>)
      ensures Valid() && stack == s && m.cell == map[] && m.vars == s
    {
      stack, heap, openupval := s, [], NULL;
      m := Meaning([], map[], seq(|s|, i => i), s);
    }

    // ---------- Variables ----------

    /** Reading through an upvalue gives the value of its variable. */
    method Get(u: nat) returns (v: Value)
      requires Valid() && u in m.cell
      ensures m.cell[u] < |m.vars| && v == m.vars[m.cell[u]]
    {
      v := if heap[u].open then stack[heap[u].level] else heap[u].value;
    }

    /** Writing through an upvalue changes its variable and no other. */
    method Set(u: nat, v: Value)
      requires Valid() && u in m.cell
      modifies this`stack, this`heap, this`m
      ensures Valid() && old(m.cell[u]) < |old(m).vars| && m == old(m).(vars := old(m).vars[old(m.cell[u]) := v])
      ensures SameMarks(old(heap), heap)
    {
      hide Linked, Descending, Slots, Cells;
      UpvalKnown(stack, heap, openupval, m, u);
      hide Ok;
      if heap[u].open {
        SlotWritten(stack, heap, openupval, m, heap[u].level, v);
        stack := stack[heap[u].level := v];
      } else {
        CellWritten(stack, heap, openupval, m, u, v);
        heap := heap[u := heap[u].(value := v)];
      }
      m := m.(vars := m.vars[m.cell[u] := v]);
    }

    /** Assigning to a local variable. */
    method SetLocal(i: nat, v: Value)
      requires Valid() && i < |stack|
      modifies this`stack, this`m
      ensures Valid() && i < |m.slotVar| && m.slotVar[i] < |old(m).vars|
      ensures stack == old(stack)[i := v] && m == old(m).(vars := old(m).vars[m.slotVar[i] := v])
    {
      SlotWritten(stack, heap, openupval, m, i, v);
      hide Ok;
      stack := stack[i := v];
      m := m.(vars := m.vars[m.slotVar[i] := v]);
    }

    // ---------- The list ----------

    /** luaF_findupval: the upvalue of a slot, the one there is or a new one. */
    method FindUpval(level: nat) returns (uv: nat)
      requires Valid() && level < |stack|
      modifies this`heap, this`openupval, this`m
      ensures Valid() && uv in m.cell && heap[uv].open && heap[uv].level == level && !heap[uv].dead
      ensures m.slotVar == old(m).slotVar && m.vars == old(m).vars && m.cell == old(m).cell[uv := m.slotVar[level]]
      ensures if uv in old(m).cell then m.cell == old(m).cell else uv == |old(heap)|
      ensures forall u :: 0 <= u < |old(heap)| && !old(heap)[u].dead ==> u < |heap| && !heap[u].dead
      ensures forall u :: u in old(m).cell && u < |old(heap)| && old(heap)[u].open && old(heap)[u].level == level ==> uv == u
    {
      var prev, p;
      ghost var i;
      hide Linked, Descending, Slots, Cells, WithNew, WithVariable;
      prev, p, i := Search(level);
      hide Ok;
      if p != NULL && heap[p].level == level {
        Revived(stack, heap, openupval, m, i);
        assert m.cell == m.cell[p := m.slotVar[level]];
        OnlyOne(stack, heap, openupval, m, p);
        heap := heap[p := heap[p].(dead := false)];
        return p;
      }
      uv := |heap|;
      Inserted(stack, heap, openupval, m, level, i);
      NewFacts(heap, m, level, i, prev, p);
      NoneThere(stack, heap, openupval, m, level, i);
      heap := WithNew(heap, level, prev, p);
      openupval := if prev == NULL then uv else openupval;
      m := WithVariable(m, level, i, uv);
    }

    /** The place in the chain for a slot: behind all higher ones. */
    method Search(level: nat) returns (prev: int, p: int, ghost i: nat)
      requires Valid()
      ensures i <= |m.chain| && p == (if i < |m.chain| then m.chain[i] else NULL) && prev == if i > 0 then m.chain[i-1] else NULL
      ensures (forall j :: 0 <= j < i ==> m.chain[j] < |heap|) && forall j :: 0 <= j < i ==> heap[m.chain[j]].level > level
      ensures p != NULL ==> 0 <= p < |heap| && heap[p].level <= level
    {
      hide Slots, Cells;
      prev, p, i := NULL, openupval, 0;
      while p != NULL && heap[p].level > level
        invariant 0 <= i <= |m.chain|
        invariant p == if i < |m.chain| then m.chain[i] else NULL
        invariant prev == if i > 0 then m.chain[i-1] else NULL
        invariant forall j :: 0 <= j < i ==> heap[m.chain[j]].level > level
        decreases |m.chain| - i
      {
        prev, p := p, heap[p].next;
        i := i + 1;
      }
    }

    /** luaF_close: the variables from level on leave the stack. What a closure sees through an
        upvalue stays the same, and the slots are free for new variables. */
    method Close(level: nat)
      requires Valid() && level <= |stack|
      modifies this`heap, this`openupval, this`m
      ensures Valid() && Keeps(old(m), m) && m.cell.Keys <= old(m).cell.Keys
      ensures forall u :: u in old(m).cell && u < |old(heap)| && !old(heap)[u].dead ==> u in m.cell
      ensures forall u :: u in m.cell ==> Seen(stack, heap, u) == old(Seen(stack, heap, u))
      ensures forall u :: u in m.cell && u < |heap| && heap[u].open ==> heap[u].level < level
      ensures |m.slotVar| == |old(m).slotVar| == |stack|
      ensures forall i :: 0 <= i < level ==> m.slotVar[i] == old(m).slotVar[i]
      ensures forall i :: level <= i < |stack| ==> m.slotVar[i] >= |old(m).vars|
      ensures SameMarks(old(heap), heap)
    {
      hide Ok, Keeps, Seen, Closing, Vacated;
      CloseOpen(level);
      ghost var m1 := m;
      VacatedOk(stack, heap, openupval, m, level);
      m := Vacated(m, level, stack);
      ClosedDown(stack, old(heap), old(openupval), old(m), heap, openupval, m1, level);
      MarksOf(old(heap), old(m), heap, m1, level);
    }

    /** What a collection leaves: the upvalues it did not reach are dead. */
    method Collect(reached: set<nat>)
      requires Valid()
      modifies this`heap
      ensures Valid() && |heap| == |old(heap)| && forall u :: 0 <= u < |heap| ==> (heap[u].dead <==> u !in reached)
    {
      ghost var h := heap;
      heap := seq(|heap|, i requires 0 <= i < |heap| reads this => heap[i].(dead := i !in reached));
      MarksOnly(stack, h, heap, openupval, m);
    }

    /** The loop of luaF_close. */
    method CloseOpen(level: nat)
      requires Valid()
      modifies this`heap, this`openupval, this`m
      ensures Valid() && Closing(old(heap), old(m), heap, m, level)
      ensures openupval != NULL ==> 0 <= openupval < |heap| && heap[openupval].level < level
    {
      hide Ok, Closing;
      ClosingStart(heap, m, level);
      SizesOf(stack, heap, openupval, m);
      while openupval != NULL && heap[openupval].level >= level
        invariant Valid() && Closing(old(heap), old(m), heap, m, level)
        invariant openupval == NULL || 0 <= openupval < |heap|
        decreases |m.chain|
      {
        ghost var h1, m1, u := heap, m, openupval;
        CloseFirst();
        ClosingStep(old(heap), old(m), h1, m1, heap, m, level, u);
        SizesOf(stack, heap, openupval, m);
      }
    }

    /** One round of luaF_close: the first open upvalue takes the value of its slot and leaves
        the list; a new variable has the slot. */
    method CloseFirst()
      requires Valid() && openupval != NULL
      modifies this`heap, this`openupval, this`m
      ensures 0 <= old(openupval) < |old(heap)| && old(m).chain != []
      ensures Valid() && Keeps(old(m), m) && m.chain == old(m).chain[1..]
      ensures |m.slotVar| == |old(m).slotVar| && old(m).chain[0] == old(openupval) < |heap| == |old(heap)|
      ensures forall i :: 0 <= i < |m.slotVar| && i != old(heap)[old(openupval)].level ==> m.slotVar[i] == old(m).slotVar[i]
      ensures m.cell == if old(heap)[old(openupval)].dead then old(m).cell - {old(openupval)} else old(m).cell
      ensures forall u :: 0 <= u < |heap| && u != old(openupval) ==> heap[u] == old(heap)[u]
      ensures heap[old(openupval)].dead == old(heap)[old(openupval)].dead && old(heap)[old(openupval)].level < |m.slotVar|
    {
      var uv := openupval;
      hide Linked, Descending, Slots, Cells, Keeps, Retired;
      HeadKnown(stack, heap, openupval, m);
      hide Ok;
      if heap[uv].dead {
        Freed(stack, heap, openupval, m);
        m := m.(chain := m.chain[1..], cell := m.cell - {uv});
        openupval := heap[uv].next;
      } else {
        Closed(stack, heap, openupval, m);
        RetiredFacts(m, heap[uv].level, stack[heap[uv].level]);
        ghost var level := heap[uv].level;
        var v := stack[heap[uv].level];
        openupval := heap[uv].next;
        heap := heap[uv := heap[uv].(value := v, open := false)];
        m := Retired(m, level, v);
      }
    }
  }

  ghost predicate SameMarks(h0: seq<UpVal>, h: seq<UpVal>) {
    |h| == |h0| && forall u :: 0 <= u < |h| ==> h[u].dead == h0[u].dead
  }

  lemma MarksOf(h0: seq<UpVal>, m0: Meaning, heap: seq<UpVal>, m: Meaning, level: nat)
    requires Closing(h0, m0, heap, m, level)
    ensures SameMarks(h0, heap)
  {}

  lemma MarksOnly(stack: seq<Value>, heap: seq<UpVal>, h: seq<UpVal>, head: int, m: Meaning)
    requires Ok(stack, heap, head, m) && |h| == |heap| && forall u :: 0 <= u < |h| ==> h[u] == heap[u].(dead := h[u].dead)
    ensures Ok(stack, h, head, m)
  {
    hide Linked, Descending, Slots, Cells;
    LinkedSame(head, heap, h, m.chain);
    DescendingSame(heap, h, m, m);
    CellsSame(heap, h, m);
  }

  /** The state m with heap has come from m0 with h0 by closing upvalues from level on. */
  ghost predicate Closing(h0: seq<UpVal>, m0: Meaning, heap: seq<UpVal>, m: Meaning, level: nat) {
    && Keeps(m0, m) && m.cell.Keys <= m0.cell.Keys && |heap| == |h0|
    && (forall u :: u in m0.cell && u < |h0| && !h0[u].dead ==> u in m.cell)
    && (forall u :: 0 <= u < |heap| ==> heap[u].dead == h0[u].dead)
    && |m.slotVar| == |m0.slotVar|
    && forall i :: 0 <= i < level && i < |m.slotVar| ==> m.slotVar[i] == m0.slotVar[i]
  }

  lemma ClosingStart(heap: seq<UpVal>, m: Meaning, level: nat)
    ensures Closing(heap, m, heap, m, level)
  {}

  lemma ClosingStep(h0: seq<UpVal>, m0: Meaning, h1: seq<UpVal>, m1: Meaning, heap: seq<UpVal>, m: Meaning, level: nat, u: int)
    requires Closing(h0, m0, h1, m1, level) && 0 <= u < |h1| && h1[u].level >= level
    requires Keeps(m1, m) && |m.slotVar| == |m1.slotVar| && |heap| == |h1|
    requires forall i :: 0 <= i < |m.slotVar| && i != h1[u].level ==> m.slotVar[i] == m1.slotVar[i]
    requires m.cell == if h1[u].dead then m1.cell - {u} else m1.cell
    requires forall v :: 0 <= v < |heap| && v != u ==> heap[v] == h1[v]
    requires heap[u].dead == h1[u].dead
    ensures Closing(h0, m0, heap, m, level)
  {
    KeepsTrans(m0, m1, m);
    hide Keeps;
  }

  /** After the loop the slots are given away, and nothing has changed for the closures. */
  lemma ClosedDown(stack: seq<Value>, h0: seq<UpVal>, head0: int, m0: Meaning, heap: seq<UpVal>, head: int, m1: Meaning, level: nat)
    requires Ok(stack, h0, head0, m0) && level <= |stack| == |m1.slotVar| && Closing(h0, m0, heap, m1, level)
    requires Ok(stack, heap, head, Vacated(m1, level, stack)) && Keeps(m1, Vacated(m1, level, stack))
    requires head != NULL ==> 0 <= head < |heap| && heap[head].level < level
    ensures var m := Vacated(m1, level, stack);
      && Keeps(m0, m) && m.cell.Keys <= m0.cell.Keys
      && (forall u :: u in m0.cell && u < |h0| && !h0[u].dead ==> u in m.cell)
      && (forall u :: u in m.cell ==> Seen(stack, heap, u) == Seen(stack, h0, u))
      && (forall u :: u in m.cell && u < |heap| && heap[u].open ==> heap[u].level < level)
      && |m.slotVar| == |m0.slotVar| == |stack|
      && (forall i :: 0 <= i < level ==> m.slotVar[i] == m0.slotVar[i])
      && (forall i :: level <= i < |stack| ==> m.slotVar[i] >= |m0.vars|)
  {
    var m := Vacated(m1, level, stack);
    hide Ok, Seen, Keeps;
    KeepsTrans(m0, m1, m);
    SeenSame(stack, h0, head0, m0, heap, head, m);
    BelowNow(stack, heap, head, m, level);
    KeepsSize(m0, m1);
  }

  /** What a closure sees through an upvalue. */
  ghost function Seen(stack: seq<Value>, heap: seq<UpVal>, u: nat): Value {
    if u < |heap| then
      if !heap[u].open then heap[u].value else if heap[u].level < |stack| then stack[heap[u].level] else 0
    else 0
  }

  // ---------- What each operation keeps ----------

  lemma SeenIs(stack: seq<Value>, heap: seq<UpVal>, head: int, m: Meaning, u: nat)
    requires Ok(stack, heap, head, m) && u in m.cell
    ensures m.cell[u] < |m.vars| && Seen(stack, heap, u) == m.vars[m.cell[u]]
  {
    hide Linked, Descending;
  }

  lemma SeenSame(stack: seq<Value>, heap: seq<UpVal>, head: int, m: Meaning, h: seq<UpVal>, head1: int, m1: Meaning)
    requires Ok(stack, heap, head, m) && Ok(stack, h, head1, m1) && Keeps(m, m1) && m1.cell.Keys <= m.cell.Keys
    ensures forall u :: u in m1.cell ==> Seen(stack, h, u) == Seen(stack, heap, u)
  {
    hide Ok, Seen;
    forall u | u in m1.cell
      ensures Seen(stack, h, u) == Seen(stack, heap, u)
    {
      assert u in m.cell;
      SeenIs(stack, heap, head, m, u);
      SeenIs(stack, h, head1, m1, u);
      assert m1.vars[..|m.vars|][m.cell[u]] == m.vars[m.cell[u]];
    }
  }

  lemma KeepsTrans(a: Meaning, b: Meaning, c: Meaning)
    requires Keeps(a, b) && Keeps(b, c) && b.cell.Keys >= c.cell.Keys
    ensures Keeps(a, c)
  {
    assert c.vars[..|a.vars|] == c.vars[..|b.vars|][..|a.vars|];
  }

  lemma OnlyOne(stack: seq<Value>, heap: seq<UpVal>, head: int, m: Meaning, p: nat)
    requires Ok(stack, heap, head, m) && p in m.cell && p < |heap| && heap[p].open
    ensures forall u :: u in m.cell && u < |heap| && heap[u].open && heap[u].level == heap[p].level ==> u == p
  {
    hide Linked, Slots;
  }

  lemma NoneThere(stack: seq<Value>, heap: seq<UpVal>, head: int, m: Meaning, level: nat, i: nat)
    requires Ok(stack, heap, head, m) && i <= |m.chain|
    requires (forall j :: 0 <= j < i ==> m.chain[j] < |heap|) && forall j :: 0 <= j < i ==> heap[m.chain[j]].level > level
    requires i < |m.chain| ==> m.chain[i] < |heap| && heap[m.chain[i]].level < level
    ensures forall u :: u in m.cell && u < |heap| && heap[u].open ==> heap[u].level != level
  {
    LevelFree(heap, m, level, i);
    hide Linked, Descending, Slots, Cells;
  }

  lemma LevelFree(heap: seq<UpVal>, m: Meaning, level: nat, i: nat)
    requires Descending(heap, m) && i <= |m.chain|
    requires forall j :: 0 <= j < i ==> heap[m.chain[j]].level > level
    requires i < |m.chain| ==> heap[m.chain[i]].level < level
    ensures forall u :: u in m.cell && u < |heap| && heap[u].open ==> heap[u].level != level
  {
    forall u | u in m.cell && u < |heap| && heap[u].open
      ensures heap[u].level != level
    {
      var j :| 0 <= j < |m.chain| && m.chain[j] == u;
      assert j > i ==> heap[m.chain[i]].level > heap[m.chain[j]].level;
    }
  }

  /** Without open upvalues at or above level the slots there can be given to new variables. */
  ghost function Vacated(m: Meaning, level: nat, stack: seq<Value>): Meaning
    requires level <= |stack| == |m.slotVar|
  {
    m.(slotVar := seq(|stack|, i requires 0 <= i < |stack| => if i < level then m.slotVar[i] else |m.vars| + (i - level)),
       vars := m.vars + stack[level..])
  }

  lemma VacatedOk(stack: seq<Value>, heap: seq<UpVal>, head: int, m: Meaning, level: nat)
    requires Ok(stack, heap, head, m) && level <= |stack| && (head != NULL ==> 0 <= head < |heap| && heap[head].level < level)
    ensures |m.slotVar| == |stack|
    ensures Ok(stack, heap, head, Vacated(m, level, stack)) && Keeps(m, Vacated(m, level, stack))
  {
    var m1 := Vacated(m, level, stack);
    AllBelow(heap, head, m, level);
    DescendingSame(heap, heap, m, m1);
    hide Linked, Descending;
  }

  lemma AllBelow(heap: seq<UpVal>, head: int, m: Meaning, level: nat)
    requires Linked(head, heap, m.chain) && Descending(heap, m) && (head != NULL ==> 0 <= head < |heap| && heap[head].level < level)
    ensures forall u :: u in m.cell && u < |heap| && heap[u].open ==> heap[u].level < level
  {
    forall u | u in m.cell && u < |heap| && heap[u].open
      ensures heap[u].level < level
    {
      var j :| 0 <= j < |m.chain| && m.chain[j] == u;
      assert j > 0 ==> heap[m.chain[0]].level > heap[m.chain[j]].level;
    }
  }

  lemma UpvalKnown(stack: seq<Value>, heap: seq<UpVal>, head: int, m: Meaning, u: nat)
    requires Ok(stack, heap, head, m) && u in m.cell
    ensures u < |heap| && m.cell[u] < |m.vars|
    ensures heap[u].open ==> heap[u].level < |stack| && |stack| == |m.slotVar| && m.cell[u] == m.slotVar[heap[u].level]
  {}

  lemma HeadKnown(stack: seq<Value>, heap: seq<UpVal>, head: int, m: Meaning)
    requires Ok(stack, heap, head, m) && head != NULL
    ensures m.chain != [] && head == m.chain[0] && head in m.cell && 0 <= head < |heap| && heap[head].open && heap[head].level < |stack| == |m.slotVar|
  {}

  lemma LinkedSame(head: int, heap: seq<UpVal>, h: seq<UpVal>, chain: seq<nat>)
    requires Linked(head, heap, chain) && |h| == |heap| && forall u :: 0 <= u < |heap| ==> h[u].next == heap[u].next
    ensures Linked(head, h, chain)
  {}

  lemma DescendingSame(heap: seq<UpVal>, h: seq<UpVal>, m: Meaning, m1: Meaning)
    requires Descending(heap, m) && |h| == |heap| && m1.chain == m.chain && m1.cell == m.cell
    requires forall u :: 0 <= u < |heap| ==> h[u].open == heap[u].open && h[u].level == heap[u].level
    ensures Descending(h, m1)
  {}

  lemma CellsSame(heap: seq<UpVal>, h: seq<UpVal>, m: Meaning)
    requires Cells(heap, m) && |h| == |heap|
    requires forall u :: 0 <= u < |heap| ==> h[u].open == heap[u].open && h[u].level == heap[u].level && h[u].value == heap[u].value
    ensures Cells(h, m)
  {}

  lemma SlotWritten(stack: seq<Value>, heap: seq<UpVal>, head: int, m: Meaning, i: nat, v: Value)
    requires Ok(stack, heap, head, m) && i < |stack|
    ensures i < |m.slotVar| && m.slotVar[i] < |m.vars|
    ensures Ok(stack[i := v], heap, head, m.(vars := m.vars[m.slotVar[i] := v]))
  {
    var m1 := m.(vars := m.vars[m.slotVar[i] := v]);
    DescendingSame(heap, heap, m, m1);
    hide Linked, Descending;
  }

  lemma CellWritten(stack: seq<Value>, heap: seq<UpVal>, head: int, m: Meaning, u: nat, v: Value)
    requires Ok(stack, heap, head, m) && u in m.cell && u < |heap| && !heap[u].open && m.cell[u] < |m.vars|
    ensures Ok(stack, heap[u := heap[u].(value := v)], head, m.(vars := m.vars[m.cell[u] := v]))
  {
    var h, m1 := heap[u := heap[u].(value := v)], m.(vars := m.vars[m.cell[u] := v]);
    LinkedSame(head, heap, h, m.chain);
    DescendingSame(heap, h, m, m1);
    hide Linked, Descending;
  }

  lemma InChain(heap: seq<UpVal>, m: Meaning, i: nat)
    requires Descending(heap, m) && Cells(heap, m) && i < |m.chain|
    ensures var u := m.chain[i]; u < |heap| && u in m.cell && heap[u].open && heap[u].level < |m.slotVar| && m.cell[u] == m.slotVar[heap[u].level]
  {}

  /** Marking an upvalue as reached changes nothing else. */
  lemma Revived(stack: seq<Value>, heap: seq<UpVal>, head: int, m: Meaning, i: nat)
    requires Ok(stack, heap, head, m) && i < |m.chain|
    ensures var u := m.chain[i];
      && u < |heap| && u in m.cell && heap[u].open && heap[u].level < |m.slotVar| && m.cell[u] == m.slotVar[heap[u].level]
      && Ok(stack, heap[u := heap[u].(dead := false)], head, m)
  {
    InChain(heap, m, i);
    hide Linked, Descending, Slots, Cells;
    var h := heap[m.chain[i] := heap[m.chain[i]].(dead := false)];
    LinkedSame(head, heap, h, m.chain);
    DescendingSame(heap, h, m, m);
    CellsSame(heap, h, m);
  }

  lemma SizesOf(stack: seq<Value>, heap: seq<UpVal>, head: int, m: Meaning)
    requires Ok(stack, heap, head, m)
    ensures |m.slotVar| == |stack| && (head == NULL || 0 <= head < |heap|)
  {}

  lemma KeepsSize(a: Meaning, b: Meaning)
    requires Keeps(a, b)
    ensures |a.vars| <= |b.vars|
  {}

  lemma BelowNow(stack: seq<Value>, heap: seq<UpVal>, head: int, m: Meaning, level: nat)
    requires Ok(stack, heap, head, m) && (head != NULL ==> 0 <= head < |heap| && heap[head].level < level)
    ensures forall u :: u in m.cell && u < |heap| && heap[u].open ==> heap[u].level < level
  {
    AllBelow(heap, head, m, level);
  }

  // A new upvalue, chained in behind prev.

  function WithNew(heap: seq<UpVal>, level: nat, prev: int, p: int): seq<UpVal>
    requires prev == NULL || 0 <= prev < |heap|
  {
    (if prev == NULL then heap else heap[prev := heap[prev].(next := |heap|)]) + [UpVal(true, level, 0, false, p)]
  }

  ghost function WithVariable(m: Meaning, level: nat, i: nat, uv: nat): Meaning
    requires i <= |m.chain| && level < |m.slotVar|
  {
    m.(chain := Spliced(m.chain, i, uv), cell := m.cell[uv := m.slotVar[level]])
  }

  lemma NewFacts(heap: seq<UpVal>, m: Meaning, level: nat, i: nat, prev: int, p: int)
    requires (prev == NULL || 0 <= prev < |heap|) && i <= |m.chain| && level < |m.slotVar|
    ensures var h, m1 := WithNew(heap, level, prev, p), WithVariable(m, level, i, |heap|);
      && |h| == |heap| + 1 && h[|heap|] == UpVal(true, level, 0, false, p)
      && (forall u :: 0 <= u < |heap| ==> h[u].dead == heap[u].dead)
      && m1.cell == m.cell[|heap| := m.slotVar[level]] && m1.slotVar == m.slotVar && m1.vars == m.vars
  {}

  lemma Inserted(stack: seq<Value>, heap: seq<UpVal>, head: int, m: Meaning, level: nat, i: nat)
    requires Ok(stack, heap, head, m) && level < |stack| && i <= |m.chain|
    requires (forall j :: 0 <= j < i ==> m.chain[j] < |heap|) && forall j :: 0 <= j < i ==> heap[m.chain[j]].level > level
    requires i < |m.chain| ==> m.chain[i] < |heap| && heap[m.chain[i]].level < level
    ensures |m.slotVar| == |stack| && |heap| !in m.cell
    ensures var prev := if i > 0 then m.chain[i-1] else NULL;
      var h := WithNew(heap, level, prev, if i < |m.chain| then m.chain[i] else NULL);
      Ok(stack, h, if prev == NULL then |heap| else head, WithVariable(m, level, i, |heap|))
  {
    var prev: int := if i > 0 then m.chain[i-1] else NULL;
    var p: int := if i < |m.chain| then m.chain[i] else NULL;
    hide Linked, Descending, Cells, Slots, WithNew, WithVariable, Extends;
    InsertedSlots(stack, heap, m, level, i);
    var h, m1 := WithNew(heap, level, prev, p), WithVariable(m, level, i, |heap|);
    InsertedLinks(heap, head, m, level, i);
    InsertedExtends(heap, level, prev, p);
    InsertedOrder(heap, m, level, i, h);
    InsertedCells(heap, m, level, i, h);
  }

  lemma InsertedSlots(stack: seq<Value>, heap: seq<UpVal>, m: Meaning, level: nat, i: nat)
    requires Slots(stack, m) && Cells(heap, m) && level < |stack| && i <= |m.chain|
    ensures |m.slotVar| == |stack| && |heap| !in m.cell && Slots(stack, WithVariable(m, level, i, |heap|))
    ensures forall a :: 0 <= a < |m.slotVar| ==> m.slotVar[a] < |m.vars|
    ensures forall a, b :: 0 <= a < b < |m.slotVar| ==> m.slotVar[a] != m.slotVar[b]
    ensures i > 0 ==> m.chain[i-1] >= 0
  {}

  lemma InsertedExtends(heap: seq<UpVal>, level: nat, prev: int, p: int)
    requires prev == NULL || 0 <= prev < |heap|
    ensures Extends(heap, WithNew(heap, level, prev, p), level)
  {}

  function Spliced(chain: seq<nat>, i: nat, u: nat): (c: seq<nat>)
    requires i <= |chain|
    ensures |c| == |chain| + 1 && c[i] == u
    ensures forall a :: 0 <= a < i ==> c[a] == chain[a]
    ensures forall a :: i < a < |c| ==> c[a] == chain[a-1]
  {
    chain[..i] + [u] + chain[i..]
  }

  /** h is the heap with a new upvalue linked in at place i of the chain. */
  ghost predicate NewLink(heap: seq<UpVal>, h: seq<UpVal>, chain: seq<nat>, i: nat) {
    && i <= |chain| && |h| == |heap| + 1
    && h[|heap|].next == (if i < |chain| then chain[i] else NULL)
    && (i > 0 ==> chain[i-1] < |heap| && h[chain[i-1]].next == |heap|)
    && forall u :: 0 <= u < |heap| && (i > 0 ==> u != chain[i-1]) ==> h[u] == heap[u]
  }

  lemma InsertedLinks(heap: seq<UpVal>, head: int, m: Meaning, level: nat, i: nat)
    requires Linked(head, heap, m.chain) && Descending(heap, m) && i <= |m.chain| && level < |m.slotVar|
    ensures var prev := if i > 0 then m.chain[i-1] else NULL;
      var h := WithNew(heap, level, prev, if i < |m.chain| then m.chain[i] else NULL);
      Linked(if prev == NULL then |heap| else head, h, WithVariable(m, level, i, |heap|).chain)
  {
    var prev: int := if i > 0 then m.chain[i-1] else NULL;
    var p: int := if i < |m.chain| then m.chain[i] else NULL;
    var h := WithNew(heap, level, prev, p);
    var c := Spliced(m.chain, i, |heap|);
    Different(heap, m);
    LinksOf(heap, level, prev, p);
    hide Descending, Spliced, WithNew;
    assert NewLink(heap, h, m.chain, i);
    forall a | 0 <= a < |c|
      ensures c[a] < |h| && h[c[a]].next == if a + 1 < |c| then c[a+1] else NULL
    {
      InsertedLink(heap, head, m, i, h, c, a);
    }
  }

  lemma InsertedLink(heap: seq<UpVal>, head: int, m: Meaning, i: nat, h: seq<UpVal>, c: seq<nat>, a: nat)
    requires Linked(head, heap, m.chain) && NewLink(heap, h, m.chain, i) && c == Spliced(m.chain, i, |heap|) && a < |c|
    requires forall i, j :: 0 <= i < j < |m.chain| ==> m.chain[i] != m.chain[j]
    ensures c[a] < |h| && h[c[a]].next == if a + 1 < |c| then c[a+1] else NULL
  {
    hide Spliced;
    if a + 1 < i {
      assert c[a] == m.chain[a] && c[a+1] == m.chain[a+1] && m.chain[a] != m.chain[i-1];
    } else if a > i {
      assert c[a] == m.chain[a-1] && (i > 0 ==> m.chain[i-1] != m.chain[a-1]);
      assert a + 1 < |c| ==> c[a+1] == m.chain[a];
    }
  }

  lemma LinksOf(heap: seq<UpVal>, level: nat, prev: int, p: int)
    requires prev == NULL || 0 <= prev < |heap|
    ensures var h := WithNew(heap, level, prev, p);
      && |h| == |heap| + 1 && h[|heap|].next == p && (prev != NULL ==> h[prev].next == |heap|)
      && forall u :: 0 <= u < |heap| && u != prev ==> h[u] == heap[u]
  {}

  lemma Different(heap: seq<UpVal>, m: Meaning)
    requires Descending(heap, m)
    ensures forall i, j :: 0 <= i < j < |m.chain| ==> m.chain[i] != m.chain[j]
  {}

  /** Only links of the old upvalues have changed. */
  ghost predicate Extends(heap: seq<UpVal>, h: seq<UpVal>, level: nat) {
    && |h| == |heap| + 1 && h[|heap|].open && h[|heap|].level == level
    && forall u :: 0 <= u < |heap| ==> h[u].open == heap[u].open && h[u].level == heap[u].level && h[u].value == heap[u].value
  }

  lemma InsertedOrder(heap: seq<UpVal>, m: Meaning, level: nat, i: nat, h: seq<UpVal>)
    requires Descending(heap, m) && Extends(heap, h, level) && level < |m.slotVar| && i <= |m.chain|
    requires forall j :: 0 <= j < i ==> heap[m.chain[j]].level > level
    requires i < |m.chain| ==> heap[m.chain[i]].level < level
    ensures Descending(h, WithVariable(m, level, i, |heap|))
  {
    var c := Spliced(m.chain, i, |heap|);
    assert c[i] == |heap|;
    SplicedHas(m.chain, i, |heap|);
    SplicedOrder(heap, m, level, i, h);
    hide Spliced;
  }

  lemma SplicedHas(chain: seq<nat>, i: nat, n: nat)
    requires i <= |chain|
    ensures forall u :: u in Spliced(chain, i, n) <==> u == n || u in chain
  {
    forall u | u in chain
      ensures u in Spliced(chain, i, n)
    {
      var j :| 0 <= j < |chain| && chain[j] == u;
      assert Spliced(chain, i, n)[if j < i then j else j + 1] == u;
    }
    assert Spliced(chain, i, n)[i] == n;
  }

  lemma SplicedOrder(heap: seq<UpVal>, m: Meaning, level: nat, i: nat, h: seq<UpVal>)
    requires Descending(heap, m) && Extends(heap, h, level) && i <= |m.chain|
    requires forall j :: 0 <= j < i ==> heap[m.chain[j]].level > level
    requires i < |m.chain| ==> heap[m.chain[i]].level < level
    ensures forall a :: 0 <= a <= |m.chain| ==> Spliced(m.chain, i, |heap|)[a] < |h|
    ensures forall a, b :: 0 <= a < b <= |m.chain| ==>
      h[Spliced(m.chain, i, |heap|)[a]].level > h[Spliced(m.chain, i, |heap|)[b]].level
  {
    hide Spliced;
    var c := Spliced(m.chain, i, |heap|);
    forall j | i <= j < |m.chain|
      ensures heap[m.chain[j]].level < level
    {
      assert j > i ==> heap[m.chain[i]].level > heap[m.chain[j]].level;
    }
    forall a, b | 0 <= a < b < |c|
      ensures c[a] < |h| && c[b] < |h| && h[c[a]].level > h[c[b]].level
    {
      if a != i && b != i {
        var x, y := if a < i then a else a - 1, if b < i then b else b - 1;
        assert heap[m.chain[x]].level > heap[m.chain[y]].level;
      }
    }
  }

  lemma InsertedCells(heap: seq<UpVal>, m: Meaning, level: nat, i: nat, h: seq<UpVal>)
    requires Descending(heap, m) && Cells(heap, m) && Extends(heap, h, level) && level < |m.slotVar| && i <= |m.chain|
    requires (forall a :: 0 <= a < |m.slotVar| ==> m.slotVar[a] < |m.vars|)
    requires forall a, b :: 0 <= a < b < |m.slotVar| ==> m.slotVar[a] != m.slotVar[b]
    requires forall j :: 0 <= j < i ==> heap[m.chain[j]].level > level
    requires i < |m.chain| ==> heap[m.chain[i]].level < level
    ensures Cells(h, WithVariable(m, level, i, |heap|))
  {
    NoVariableYet(heap, m, level, i);
    hide Descending, Spliced;
  }

  lemma NoVariableYet(heap: seq<UpVal>, m: Meaning, level: nat, i: nat)
    requires Descending(heap, m) && Cells(heap, m) && level < |m.slotVar| && i <= |m.chain|
    requires forall a, b :: 0 <= a < b < |m.slotVar| ==> m.slotVar[a] != m.slotVar[b]
    requires forall j :: 0 <= j < i ==> heap[m.chain[j]].level > level
    requires i < |m.chain| ==> heap[m.chain[i]].level < level
    ensures forall u :: u in m.cell ==> m.cell[u] != m.slotVar[level]
  {
    LevelFree(heap, m, level, i);
    hide Descending;
    forall u | u in m.cell
      ensures m.cell[u] != m.slotVar[level]
    {
      assert heap[u].open ==> heap[u].level != level;
    }
  }

  // The first upvalue leaves the chain.

  lemma LinkedRest(head: int, heap: seq<UpVal>, chain: seq<nat>)
    requires Linked(head, heap, chain) && chain != []
    ensures head == chain[0] < |heap| && Linked(heap[head].next, heap, chain[1..])
  {
    var rest := chain[1..];
    assert rest != [] ==> rest[|rest|-1] == chain[|chain|-1];
    forall i, j | 0 <= i < j < |rest| && j == i + 1
      ensures heap[rest[i]].next == rest[j]
    {
      assert rest[i] == chain[i+1] && rest[j] == chain[j+1];
    }
  }

  lemma DescendingRest(heap: seq<UpVal>, m: Meaning, u: nat)
    requires Descending(heap, m) && m.chain != [] && u == m.chain[0]
    ensures Descending(heap, m.(chain := m.chain[1..], cell := m.cell - {u}))
  {
    Different(heap, m);
  }

  lemma CellsRest(heap: seq<UpVal>, m: Meaning, u: nat)
    requires Cells(heap, m) && m.chain != []
    ensures Cells(heap, m.(chain := m.chain[1..], cell := m.cell - {u}))
  {}

  lemma Freed(stack: seq<Value>, heap: seq<UpVal>, head: int, m: Meaning)
    requires Ok(stack, heap, head, m) && m.chain != [] && head == m.chain[0] < |heap|
    ensures var m1 := m.(chain := m.chain[1..], cell := m.cell - {head}); Ok(stack, heap, heap[head].next, m1) && Keeps(m, m1)
  {
    LinkedRest(head, heap, m.chain);
    DescendingRest(heap, m, head);
    CellsRest(heap, m, head);
    hide Linked, Descending, Cells;
  }

  ghost function Retired(m: Meaning, level: nat, v: Value): Meaning
    requires m.chain != [] && level < |m.slotVar|
  {
    m.(chain := m.chain[1..], slotVar := m.slotVar[level := |m.vars|], vars := m.vars + [v])
  }

  lemma RetiredFacts(m: Meaning, level: nat, v: Value)
    requires m.chain != [] && level < |m.slotVar|
    ensures var m1 := Retired(m, level, v);
      && m1.chain == m.chain[1..] && m1.cell == m.cell && |m1.slotVar| == |m.slotVar|
      && forall i :: 0 <= i < |m.slotVar| && i != level ==> m1.slotVar[i] == m.slotVar[i]
  {}

  lemma Closed(stack: seq<Value>, heap: seq<UpVal>, head: int, m: Meaning)
    requires Ok(stack, heap, head, m) && m.chain != [] && head == m.chain[0] < |heap| && heap[head].open
    requires heap[head].level < |stack| == |m.slotVar|
    ensures var v := stack[heap[head].level];
      var m1 := Retired(m, heap[head].level, v);
      Ok(stack, heap[head := heap[head].(value := v, open := false)], heap[head].next, m1) && Keeps(m, m1)
  {
    var level := heap[head].level;
    var v := stack[level];
    var h, m1 := heap[head := heap[head].(value := v, open := false)], Retired(m, level, v);
    LinkedRest(head, heap, m.chain);
    LinkedSame(heap[head].next, heap, h, m.chain[1..]);
    ClosedOrder(heap, m, h, m1);
    ClosedSlots(stack, m, level, v);
    ClosedCells(stack, heap, m, head, h, m1);
    hide Linked, Descending, Slots, Cells;
  }

  lemma ClosedOrder(heap: seq<UpVal>, m: Meaning, h: seq<UpVal>, m1: Meaning)
    requires Descending(heap, m) && m.chain != [] && |h| == |heap| && m1.chain == m.chain[1..] && m1.cell == m.cell
    requires m.chain[0] < |heap| && !h[m.chain[0]].open
    requires forall u :: 0 <= u < |heap| && u != m.chain[0] ==> h[u] == heap[u]
    ensures Descending(h, m1)
  {
    Different(heap, m);
    forall u | u in m.cell && h[u].open
      ensures u in m.chain[1..]
    {
      assert u in m.chain;
    }
  }

  lemma ClosedSlots(stack: seq<Value>, m: Meaning, level: nat, v: Value)
    requires Slots(stack, m) && level < |stack| == |m.slotVar| && v == stack[level] && m.chain != []
    ensures Slots(stack, Retired(m, level, v))
  {}

  lemma ClosedCells(stack: seq<Value>, heap: seq<UpVal>, m: Meaning, x: nat, h: seq<UpVal>, m1: Meaning)
    requires Slots(stack, m) && Cells(heap, m) && Descending(heap, m) && m.chain != [] && x == m.chain[0] < |heap| && heap[x].open
    requires heap[x].level < |stack| == |m.slotVar|
    requires h == heap[x := heap[x].(value := stack[heap[x].level], open := false)] && m1 == Retired(m, heap[x].level, stack[heap[x].level])
    ensures Cells(h, m1)
  {
    forall u | u in m.cell && u != x
      ensures heap[u].open ==> heap[u].level != heap[x].level
    {
      assert m.cell[u] != m.cell[x];
    }
    hide Descending;
  }

  // ---------- Runs ----------

  /** Closures over variables that have a cell each: the variable in every slot, the value of
      every variable, and the variable of every upvalue that the program holds. */
  datatype Store = Store(slotVar: seq<nat>, vars: seq<Value>, held: map<nat, nat>)

  datatype Op =
    | Capture(level: nat) | Assign(u: nat, v: Value) | AssignLocal(i: nat, v: Value)
    | Leave(level: nat) | Collection(reached: set<nat>)

  /** One operation on the store. Closures that capture the same variable share an upvalue; slots
      that are left hold new variables; what a collection does not reach is no longer held. */
  ghost predicate Moves(a: Store, op: Op, b: Store) {
    match op
    case Capture(level) =>
      level < |a.slotVar| && exists u :: CapturedBy(a, a.slotVar[level], u) && b == a.(held := a.held[u := a.slotVar[level]])
    case Assign(u, v) => u in a.held && a.held[u] < |a.vars| && b == a.(vars := a.vars[a.held[u] := v])
    case AssignLocal(i, v) => i < |a.slotVar| && a.slotVar[i] < |a.vars| && b == a.(vars := a.vars[a.slotVar[i] := v])
    case Leave(level) =>
      && b.held == a.held && a.vars <= b.vars && level <= |b.slotVar| == |a.slotVar| && b.slotVar[..level] == a.slotVar[..level]
      && forall i :: level <= i < |b.slotVar| ==> b.slotVar[i] >= |a.vars|
    case Collection(reached) => b == a.(held := map u | u in a.held && u in reached :: a.held[u])
  }

  ghost predicate CapturedBy(a: Store, x: nat, u: nat) { forall w :: w in a.held ==> (a.held[w] == x <==> w == u) }

  ghost predicate IsRun(run: seq<Store>, ops: seq<Op>) {
    |run| == |ops| + 1 && forall i :: 0 <= i < |ops| ==> Moves(run[i], ops[i], run[i+1])
  }

  /** The store that the thread stands for, and what makes its held upvalues usable. */
  ghost function StoreOf(m: Meaning, held: set<nat>): Store { Store(m.slotVar, m.vars, map u | u in held && u in m.cell :: m.cell[u]) }

  ghost predicate Alive(heap: seq<UpVal>, m: Meaning, held: set<nat>) {
    forall u :: u in held ==> u in m.cell && u < |heap| && !heap[u].dead
  }

  /** The program may do this: it writes through upvalues it holds and to slots there are. */
  predicate Fits(op: Op, held: set<nat>, top: nat) {
    match op
    case Capture(level) => level < top
    case Assign(u, v) => u in held
    case AssignLocal(i, v) => i < top
    case Leave(level) => level <= top
    case Collection(reached) => true
  }

  /** The upvalue found is shared exactly by the closures that captured the same variable. */
  lemma CaptureShared(stack: seq<Value>, heap: seq<UpVal>, head: int, m: Meaning, level: nat, uv: nat, w: nat)
    requires Ok(stack, heap, head, m) && w in m.cell && level < |stack| == |m.slotVar|
    requires if uv in m.cell then m.cell[uv] == m.slotVar[level] else uv == |heap|
    requires forall u :: u in m.cell && u < |heap| && heap[u].open && heap[u].level == level ==> uv == u
    ensures m.cell[w] == m.slotVar[level] <==> w == uv
  {
    hide Linked, Descending;
    if m.cell[w] == m.slotVar[level] {
      assert heap[w].open;
      assert m.slotVar[heap[w].level] == m.slotVar[level];
    }
  }

  lemma CaptureMoves(stack: seq<Value>, heap: seq<UpVal>, head: int, m: Meaning, held: set<nat>, level: nat, uv: nat, m1: Meaning)
    requires Ok(stack, heap, head, m) && Alive(heap, m, held) && level < |stack| == |m.slotVar|
    requires m1.slotVar == m.slotVar && m1.vars == m.vars && m1.cell == m.cell[uv := m.slotVar[level]]
    requires if uv in m.cell then m1.cell == m.cell else uv == |heap|
    requires forall u :: u in m.cell && u < |heap| && heap[u].open && heap[u].level == level ==> uv == u
    ensures Moves(StoreOf(m, held), Capture(level), StoreOf(m1, held + {uv}))
  {
    hide Ok;
    var a, b := StoreOf(m, held), StoreOf(m1, held + {uv});
    forall w | w in a.held
      ensures a.held[w] == m.slotVar[level] <==> w == uv
    {
      CaptureShared(stack, heap, head, m, level, uv, w);
    }
    assert CapturedBy(a, m.slotVar[level], uv);
    assert b.held == a.held[uv := m.slotVar[level]];
  }

  lemma AssignMoves(m: Meaning, held: set<nat>, u: nat, v: Value)
    requires u in held && u in m.cell && m.cell[u] < |m.vars|
    ensures Moves(StoreOf(m, held), Assign(u, v), StoreOf(m.(vars := m.vars[m.cell[u] := v]), held))
  {}

  lemma LocalMoves(m: Meaning, held: set<nat>, i: nat, v: Value)
    requires i < |m.slotVar| && m.slotVar[i] < |m.vars|
    ensures Moves(StoreOf(m, held), AssignLocal(i, v), StoreOf(m.(vars := m.vars[m.slotVar[i] := v]), held))
  {}

  lemma LeaveMoves(m: Meaning, held: set<nat>, level: nat, m1: Meaning)
    requires Keeps(m, m1) && (forall u :: u in held ==> u in m.cell && u in m1.cell)
    requires level <= |m1.slotVar| == |m.slotVar| && (forall i :: 0 <= i < level ==> m1.slotVar[i] == m.slotVar[i])
    requires forall i :: level <= i < |m1.slotVar| ==> m1.slotVar[i] >= |m.vars|
    ensures Moves(StoreOf(m, held), Leave(level), StoreOf(m1, held))
  {
    assert StoreOf(m1, held).held == StoreOf(m, held).held;
  }

  lemma CollectionMoves(m: Meaning, held: set<nat>, reached: set<nat>)
    ensures Moves(StoreOf(m, held), Collection(reached), StoreOf(m, held * reached))
  {
    assert StoreOf(m, held * reached).held == map u | u in StoreOf(m, held).held && u in reached :: StoreOf(m, held).held[u];
  }

  lemma StackSize(stack: seq<Value>, heap: seq<UpVal>, head: int, m: Meaning)
    requires Ok(stack, heap, head, m)
    ensures |m.slotVar| == |stack|
  {}

  lemma StillAlive(h0: seq<UpVal>, h: seq<UpVal>, m: Meaning, held: set<nat>)
    requires Alive(h0, m, held) && SameMarks(h0, h)
    ensures Alive(h, m, held)
  {}

  lemma CaptureAlive(heap: seq<UpVal>, m: Meaning, held: set<nat>, uv: nat, x: nat, h: seq<UpVal>, m1: Meaning)
    requires Alive(heap, m, held) && uv in m1.cell && uv < |h| && !h[uv].dead && m1.cell == m.cell[uv := x]
    requires forall u :: 0 <= u < |heap| && !heap[u].dead ==> u < |h| && !h[u].dead
    ensures Alive(h, m1, held + {uv})
  {}

  method DoCapture(t: Thread, level: nat, held: set<nat>) returns (held1: set<nat>)
    requires t.Valid() && Alive(t.heap, t.m, held) && level < |t.stack|
    modifies t
    ensures t.Valid() && Alive(t.heap, t.m, held1) && |t.stack| == old(|t.stack|)
    ensures Moves(old(StoreOf(t.m, held)), Capture(level), StoreOf(t.m, held1))
  {
    ghost var m, heap, stack, head := t.m, t.heap, t.stack, t.openupval;
    StackSize(t.stack, t.heap, t.openupval, t.m);
    hide *;
    var uv := t.FindUpval(level);
    CaptureAlive(heap, m, held, uv, m.slotVar[level], t.heap, t.m);
    CaptureMoves(stack, heap, head, m, held, level, uv, t.m);
    held1 := held + {uv};
  }

  method DoLeave(t: Thread, level: nat, ghost held: set<nat>)
    requires t.Valid() && Alive(t.heap, t.m, held) && level <= |t.stack|
    modifies t
    ensures t.Valid() && Alive(t.heap, t.m, held) && |t.stack| == old(|t.stack|)
    ensures Moves(old(StoreOf(t.m, held)), Leave(level), StoreOf(t.m, held))
  {
    ghost var m := t.m;
    hide Ok, Moves, StoreOf, Keeps, Seen;
    t.Close(level);
    LeaveMoves(m, held, level, t.m);
  }

  method DoAssign(t: Thread, u: nat, v: Value, ghost held: set<nat>)
    requires t.Valid() && Alive(t.heap, t.m, held) && u in held
    modifies t
    ensures t.Valid() && Alive(t.heap, t.m, held) && |t.stack| == old(|t.stack|)
    ensures Moves(old(StoreOf(t.m, held)), Assign(u, v), StoreOf(t.m, held))
  {
    ghost var m, heap := t.m, t.heap;
    StackSize(t.stack, t.heap, t.openupval, t.m);
    hide Ok, Moves, StoreOf, SameMarks;
    t.Set(u, v);
    StackSize(t.stack, t.heap, t.openupval, t.m);
    AssignMoves(m, held, u, v);
    StillAlive(heap, t.heap, t.m, held);
  }

  method DoAssignLocal(t: Thread, i: nat, v: Value, ghost held: set<nat>)
    requires t.Valid() && Alive(t.heap, t.m, held) && i < |t.stack|
    modifies t
    ensures t.Valid() && Alive(t.heap, t.m, held) && |t.stack| == old(|t.stack|)
    ensures Moves(old(StoreOf(t.m, held)), AssignLocal(i, v), StoreOf(t.m, held))
  {
    ghost var m := t.m;
    StackSize(t.stack, t.heap, t.openupval, t.m);
    hide Ok, Moves, StoreOf;
    t.SetLocal(i, v);
    LocalMoves(m, held, i, v);
  }

  method DoCollection(t: Thread, reached: set<nat>, held: set<nat>) returns (held1: set<nat>)
    requires t.Valid() && Alive(t.heap, t.m, held)
    modifies t
    ensures t.Valid() && Alive(t.heap, t.m, held1) && |t.stack| == old(|t.stack|)
    ensures Moves(old(StoreOf(t.m, held)), Collection(reached), StoreOf(t.m, held1))
  {
    ghost var m := t.m;
    hide Ok, Moves, StoreOf;
    t.Collect(reached);
    CollectionMoves(m, held, reached);
    held1 := held * reached;
  }

  /** One operation on the thread is one on the store. */
  method Perform(t: Thread, op: Op, held: set<nat>) returns (held1: set<nat>)
    requires t.Valid() && Alive(t.heap, t.m, held) && Fits(op, held, |t.stack|)
    modifies t
    ensures t.Valid() && Alive(t.heap, t.m, held1) && |t.stack| == old(|t.stack|)
    ensures Moves(old(StoreOf(t.m, held)), op, StoreOf(t.m, held1))
  {
    hide Ok, Moves, StoreOf, Alive;
    held1 := held;
    match op {
      case Capture(level) => held1 := DoCapture(t, level, held);
      case Assign(u, v) => DoAssign(t, u, v, held);
      case AssignLocal(i, v) => DoAssignLocal(t, i, v, held);
      case Leave(level) => DoLeave(t, level, held);
      case Collection(reached) => held1 := DoCollection(t, reached, held);
    }
  }

  /** Every run of the operations is a run of the store: whatever is captured, closed and
      collected in between, each upvalue that is held stands for its own variable. */
  method Run(t: Thread, ops: seq<Op>) returns (held: set<nat>, done: nat, ghost run: seq<Store>)
    requires t.Valid()
    modifies t
    ensures t.Valid() && Alive(t.heap, t.m, held) && done <= |ops|
    ensures done < |ops| ==> !Fits(ops[done], held, |t.stack|)
    ensures IsRun(run, ops[..done]) && run[0] == old(StoreOf(t.m, {})) && run[done] == StoreOf(t.m, held)
  {
    held, done := {}, 0;
    run := [StoreOf(t.m, {})];
    assert IsRun(run, ops[..0]);
    hide *;
    while done < |ops| && Fits(ops[done], held, |t.stack|)
      invariant done <= |ops| && t.Valid() && Alive(t.heap, t.m, held)
      invariant IsRun(run, ops[..done]) && run[0] == old(StoreOf(t.m, {})) && run[done] == StoreOf(t.m, held)
    {
      held := Perform(t, ops[done], held);
      RunGrows(run, ops, done, StoreOf(t.m, held));
      run := run + [StoreOf(t.m, held)];
      done := done + 1;
    }
  }

  lemma RunGrows(run: seq<Store>, ops: seq<Op>, k: nat, b: Store)
    requires k < |ops| && IsRun(run, ops[..k]) && Moves(run[k], ops[k], b)
    ensures IsRun(run + [b], ops[..k+1]) && (run + [b])[0] == run[0] && (run + [b])[k+1] == b
  {
    hide Moves;
    assert ops[..k+1][..k] == ops[..k];
  }

  /** An upvalue that every collection reaches stands for the variable it captured. */
  lemma {:induction false} HeldVariable(run: seq<Store>, ops: seq<Op>, u: nat)
    requires IsRun(run, ops) && u in run[0].held
    requires forall i :: 0 <= i < |ops| && ops[i].Collection? ==> u in ops[i].reached
    ensures u in run[|ops|].held && run[|ops|].held[u] == run[0].held[u]
    decreases |ops|
  {
    if ops != [] {
      var n := |ops| - 1;
      assert IsRun(run[..n+1], ops[..n]) && Moves(run[n], ops[n], run[n+1]);
      HeldVariable(run[..n+1], ops[..n], u);
    }
  }
}
