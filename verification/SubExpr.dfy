/** Operator precedence in the parser: subexpr against a printer that writes parentheses
    only where the priorities demand them. */
module SubExpr {
  import opened Options

  datatype BinOpr = Add | Sub | Mul | Div | Mod | Pow | Concat | Ne | Eq | Lt | Le | Gt | Ge | And | Or
  datatype UnOpr = NotOp | Minus | Len

  /** Tokens. A simple expression (a name, a literal, a constructor, a call) counts as one
      token; the minus sign is one token for both operators. */
  datatype Token = Atom(n: int) | Open | Close | Sign(op: BinOpr) | NotWord | Hash | Other

  datatype Expr = Leaf(n: int) | Unary(uop: UnOpr, arg: Expr) | Binary(op: BinOpr, left: Expr, right: Expr)

  const MAXCCALLS := 200
  const UNARY_PRIORITY := 8

  function Left(op: BinOpr): nat {
    match op
    case Add | Sub => 6
    case Mul | Div | Mod => 7
    case Pow => 10
    case Concat => 5
    case Ne | Eq | Lt | Le | Gt | Ge => 3
    case And => 2
    case Or => 1
  }

  /** Power and concatenation associate to the right. */
  function Right(op: BinOpr): nat {
    match op
    case Pow => 9
    case Concat => 4
    case _ => Left(op)
  }

  function GetUnOpr(ts: seq<Token>): Option<UnOpr> {
    if ts == [] then None
    else match ts[0]
         case NotWord => Some(NotOp)
         case Sign(Sub) => Some(Minus)
         case Hash => Some(Len)
         case _ => None
  }

  function GetBinOpr(ts: seq<Token>): Option<BinOpr> {
    if ts != [] && ts[0].Sign? then Some(ts[0].op) else None
  }

  /** What a parse leaves: a tree and the tokens behind it, or an error. */
  datatype Parsed = Ok(e: Expr, rest: seq<Token>) | Unexpected | TooManyLevels

  // ---------- The grammar as the parser reads it ----------

  /** subexpr at a depth of nested calls: one operand, then all operators above the limit. */
  function Parse(level: nat, limit: nat, ts: seq<Token>): (r: Parsed)
    ensures r.Ok? ==> |r.rest| < |ts|
    decreases |ts|, 1
  {
    if level >= MAXCCALLS then TooManyLevels
    else
      var v := Operand(level + 1, ts);
      if v.Ok? then Operators(level + 1, limit, v.e, v.rest) else v
  }

  function Operand(level: nat, ts: seq<Token>): (r: Parsed)
    ensures r.Ok? ==> |r.rest| < |ts|
    decreases |ts|, 0
  {
    var uop := GetUnOpr(ts);
    if uop.Some? then
      var v := Parse(level, UNARY_PRIORITY, ts[1..]);
      if v.Ok? then Ok(Unary(uop.value, v.e), v.rest) else v
    else if ts != [] && ts[0].Atom? then Ok(Leaf(ts[0].n), ts[1..])
    else if ts != [] && ts[0].Open? then
      var v := Parse(level, 0, ts[1..]);
      if v.Ok? then if v.rest != [] && v.rest[0].Close? then Ok(v.e, v.rest[1..]) else Unexpected
      else v
    else Unexpected
  }

  function Operators(level: nat, limit: nat, e: Expr, ts: seq<Token>): (r: Parsed)
    ensures r.Ok? ==> |r.rest| <= |ts|
    decreases |ts|, 0
  {
    var op := GetBinOpr(ts);
    if op.Some? && Left(op.value) > limit then
      var v := Parse(level, Right(op.value), ts[1..]);
      if v.Ok? then Operators(level, limit, Binary(op.value, e, v.e), v.rest) else v
    else Ok(e, ts)
  }

  // ---------- The parser ----------

  /** The lexical state: the tokens not read yet and the depth of nested calls. */
  class LexState {
    var tokens: seq<Token>
    var level: nat

    /** subexpr; without ok the state is that of a raised error. */
    method SubExpr(limit: nat) returns (ok: bool, v: Expr, nextop: Option<BinOpr>)
      requires level <= MAXCCALLS
      modifies this
      ensures ok <==> Parse(old(level), limit, old(tokens)).Ok?
      ensures ok ==> Parse(old(level), limit, old(tokens)) == Ok(v, tokens) && level == old(level)
      ensures ok ==> nextop == GetBinOpr(tokens) && |tokens| < |old(tokens)|
      decreases |tokens|, 1
    {
      v, nextop := Leaf(0), None;
      level := level + 1;
      if level > MAXCCALLS {
        return false, v, nextop;
      }
      var uop := GetUnOpr(tokens);
      if uop.Some? {
        tokens := tokens[1..];
        ok, v, nextop := SubExpr(UNARY_PRIORITY);
        if !ok {
          return;
        }
        v := Unary(uop.value, v);
      } else {
        ok, v := SimpleExp();
        if !ok {
          return;
        }
      }
      assert Operand(level, old(tokens)) == Ok(v, tokens);
      var op := GetBinOpr(tokens);
      while op.Some? && Left(op.value) > limit
        invariant |tokens| < |old(tokens)| && level == old(level) + 1 <= MAXCCALLS && op == GetBinOpr(tokens)
        invariant Parse(old(level), limit, old(tokens)) == Operators(level, limit, v, tokens)
        decreases |tokens|
      {
        tokens := tokens[1..];
        var good, v2, next := SubExpr(Right(op.value));
        if !good {
          return false, v, nextop;
        }
        v := Binary(op.value, v, v2);
        op := next;
      }
      level := level - 1;
      return true, v, op;
    }

    /** simpleexp, with an expression in parentheses as prefixexp reads it. */
    method SimpleExp() returns (ok: bool, v: Expr)
      requires level <= MAXCCALLS && GetUnOpr(tokens).None?
      modifies this
      ensures ok <==> Operand(old(level), old(tokens)).Ok?
      ensures ok ==> Operand(old(level), old(tokens)) == Ok(v, tokens) && level == old(level)
      decreases |tokens|, 0
    {
      v := Leaf(0);
      if tokens != [] && tokens[0].Atom? {
        v := Leaf(tokens[0].n);
        tokens := tokens[1..];
        return true, v;
      }
      if tokens == [] || !tokens[0].Open? {
        return false, v;
      }
      tokens := tokens[1..];
      var next;
      ok, v, next := SubExpr(0);
      if !ok || tokens == [] || !tokens[0].Close? {
        return false, v;
      }
      tokens := tokens[1..];
    }
  }

  // ---------- The order of the operators ----------

  datatype Operator = Bin(op: BinOpr) | Un

  /** Section 2.5.6 of the Lua 5.1 reference manual, from lower to higher precedence. */
  const RANKING: seq<set<Operator>> := [
    {Bin(Or)}, {Bin(And)}, {Bin(Lt), Bin(Gt), Bin(Le), Bin(Ge), Bin(Ne), Bin(Eq)}, {Bin(Concat)},
    {Bin(Add), Bin(Sub)}, {Bin(Mul), Bin(Div), Bin(Mod)}, {Un}, {Bin(Pow)}]

  /** The operators that associate to the right. */
  const TO_THE_RIGHT: set<BinOpr> := {Concat, Pow}

  ghost predicate Higher(a: Operator, b: Operator) {
    exists i, j :: 0 <= i < j < |RANKING| && b in RANKING[i] && a in RANKING[j]
  }

  ghost predicate Equal(a: Operator, b: Operator) {
    exists i :: 0 <= i < |RANKING| && a in RANKING[i] && b in RANKING[i]
  }

  /** The operand between a sign and the operator o behind it goes to o. */
  ghost predicate Takes(a: Operator, o: BinOpr) { Higher(Bin(o), a) || (Equal(Bin(o), a) && o in TO_THE_RIGHT) }

  /** Where the sign stands in the ranking. */
  function Place(a: Operator): (p: nat)
    ensures p < |RANKING|
  {
    match a
    case Un => 6
    case Bin(Or) => 0
    case Bin(And) => 1
    case Bin(Concat) => 3
    case Bin(Add) | Bin(Sub) => 4
    case Bin(Mul) | Bin(Div) | Bin(Mod) => 5
    case Bin(Pow) => 7
    case Bin(_) => 2
  }

  lemma PlaceIs(a: Operator)
    ensures forall i :: 0 <= i < |RANKING| ==> (a in RANKING[i] <==> i == Place(a))
  {
    assert |RANKING| == 8;
  }

  lemma RanksAre(a: Operator, b: Operator)
    ensures Higher(a, b) <==> Place(a) > Place(b)
    ensures Equal(a, b) <==> Place(a) == Place(b)
  {
    PlaceIs(a);
    PlaceIs(b);
    hide Place;
    assert a in RANKING[Place(a)] && b in RANKING[Place(b)];
  }

  /** The limit with which the parser reads what stands behind the sign. */
  function Limit(before: Option<Operator>): nat {
    match before
    case None => 0
    case Some(Un) => UNARY_PRIORITY
    case Some(Bin(op)) => Right(op)
  }

  /** The priorities say the same as the ranking. */
  lemma PrioritiesRank(before: Option<Operator>, o: BinOpr)
    ensures Left(o) > Limit(before) <==> before.None? || Takes(before.value, o)
  {
    if before.Some? {
      RanksAre(Bin(o), before.value);
      hide Higher, Equal;
    }
  }

  // ---------- Printing ----------

  function UnToken(u: UnOpr): Token {
    match u
    case NotOp => NotWord
    case Minus => Sign(Sub)
    case Len => Hash
  }

  /** No parentheses needed between the sign before and the operator behind. */
  ghost predicate Fits(e: Expr, before: Option<Operator>, after: Option<BinOpr>) {
    match e
    case Leaf(_) => true
    case Unary(_, _) => after.Some? ==> !Takes(Un, after.value)
    case Binary(op, _, _) =>
      (before.Some? ==> Takes(before.value, op)) && (after.Some? ==> !Takes(Bin(op), after.value))
  }

  ghost function Print(e: Expr, before: Option<Operator>, after: Option<BinOpr>): seq<Token>
    decreases e, 1
  {
    if Fits(e, before, after) then Bare(e, before, after) else [Open] + Bare(e, None, None) + [Close]
  }

  ghost function Bare(e: Expr, before: Option<Operator>, after: Option<BinOpr>): seq<Token>
    decreases e, 0
  {
    match e
    case Leaf(n) => [Atom(n)]
    case Unary(u, x) => [UnToken(u)] + Print(x, Some(Un), after)
    case Binary(op, l, r) => Print(l, before, Some(op)) + [Sign(op)] + Print(r, Some(Bin(op)), after)
  }

  /** Nested calls of subexpr that reading the printed expression takes. */
  ghost function Levels(e: Expr, before: Option<Operator>, after: Option<BinOpr>): (k: nat)
    ensures k > 0
    decreases e, 1
  {
    if Fits(e, before, after) then BareLevels(e, before, after) else 1 + BareLevels(e, None, None)
  }

  ghost function BareLevels(e: Expr, before: Option<Operator>, after: Option<BinOpr>): (k: nat)
    ensures k > 0
    decreases e, 0
  {
    match e
    case Leaf(_) => 1
    case Unary(_, x) => 1 + Levels(x, Some(Un), after)
    case Binary(op, l, r) => Max(Levels(l, before, Some(op)), 1 + Levels(r, Some(Bin(op)), after))
  }

  function Max(a: nat, b: nat): nat { if a > b then a else b }

  /** Reading a printed expression inside subexpr: the operand has become the expression. */
  ghost predicate ReadsAs(level: nat, limit: nat, ts: seq<Token>, e: Expr, rest: seq<Token>, levels: nat) {
    if level + levels <= MAXCCALLS then Parse(level, limit, ts) == Operators(level + 1, limit, e, rest)
    else !Parse(level, limit, ts).Ok?
  }

  /** An operator that does not take the operand ends the loop. */
  lemma LoopEnds(level: nat, before: Option<Operator>, e: Expr, rest: seq<Token>)
    requires GetBinOpr(rest).Some? ==> before.Some? && !Takes(before.value, GetBinOpr(rest).value)
    ensures Operators(level, Limit(before), e, rest) == Ok(e, rest)
  {
    if GetBinOpr(rest).Some? {
      PrioritiesRank(before, GetBinOpr(rest).value);
    }
  }

  lemma {:induction false} PrintReads(level: nat, before: Option<Operator>, e: Expr, after: Option<BinOpr>, rest: seq<Token>)
    requires GetBinOpr(rest) == after
    ensures ReadsAs(level, Limit(before), Print(e, before, after) + rest, e, rest, Levels(e, before, after))
    decreases e, 1
  {
    if Fits(e, before, after) {
      BareReads(level, before, e, after, rest);
    } else {
      ParensRead(level, before, e, rest);
    }
  }

  lemma {:induction false} ParensRead(level: nat, before: Option<Operator>, e: Expr, rest: seq<Token>)
    ensures ReadsAs(level, Limit(before), [Open] + Bare(e, None, None) + [Close] + rest, e, rest, 1 + BareLevels(e, None, None))
    decreases e, 0, 3
  {
    var ts := [Open] + Bare(e, None, None) + [Close] + rest;
    assert ts[1..] == Bare(e, None, None) + ([Close] + rest);
    BareReads(level + 1, None, e, None, [Close] + rest);
    assert ([Close] + rest)[1..] == rest;
    LoopEnds(level + 2, None, e, [Close] + rest);
    hide Bare, BareLevels, Operators;
    assert ts[0] == Open && Limit(None) == 0;
    var v := Parse(level + 1, 0, ts[1..]);
    assert level < MAXCCALLS ==> Operand(level + 1, ts) == if v.Ok? then Ok(e, rest) else v;
  }

  lemma {:induction false} BareReads(level: nat, before: Option<Operator>, e: Expr, after: Option<BinOpr>, rest: seq<Token>)
    requires GetBinOpr(rest) == after && Fits(e, before, after)
    ensures ReadsAs(level, Limit(before), Bare(e, before, after) + rest, e, rest, BareLevels(e, before, after))
    decreases e, 0, 2
  {
    match e {
      case Leaf(n) =>
        assert ([Atom(n)] + rest)[1..] == rest;
      case Unary(u, x) => UnaryReads(level, before, u, x, after, rest);
      case Binary(op, l, r) => BinaryReads(level, before, op, l, r, after, rest);
    }
  }

  /** Behind a unary operator its argument is read first. */
  lemma UnaryOpens(level: nat, limit: nat, u: UnOpr, inner: seq<Token>)
    ensures Parse(level, limit, [UnToken(u)] + inner) ==
      if level >= MAXCCALLS then TooManyLevels
      else
        var v := Parse(level + 1, Limit(Some(Un)), inner);
        if v.Ok? then Operators(level + 1, limit, Unary(u, v.e), v.rest) else v
  {
    var ts := [UnToken(u)] + inner;
    assert ts[1..] == inner && GetUnOpr(ts) == Some(u);
    hide Operators, GetUnOpr;
    var v := Parse(level + 1, UNARY_PRIORITY, inner);
    assert level < MAXCCALLS ==> Operand(level + 1, ts) == if v.Ok? then Ok(Unary(u, v.e), v.rest) else v;
  }

  lemma BareUnary(u: UnOpr, x: Expr, before: Option<Operator>, after: Option<BinOpr>, rest: seq<Token>)
    ensures Bare(Unary(u, x), before, after) + rest == [UnToken(u)] + (Print(x, Some(Un), after) + rest)
    ensures BareLevels(Unary(u, x), before, after) == 1 + Levels(x, Some(Un), after)
  {
    hide Print, Levels;
  }

  lemma {:induction false} UnaryReads(level: nat, before: Option<Operator>, u: UnOpr, x: Expr, after: Option<BinOpr>, rest: seq<Token>)
    requires GetBinOpr(rest) == after && Fits(Unary(u, x), before, after)
    ensures ReadsAs(level, Limit(before), Bare(Unary(u, x), before, after) + rest, Unary(u, x), rest, BareLevels(Unary(u, x), before, after))
    decreases Unary(u, x), 0, 1
  {
    BareUnary(u, x, before, after, rest);
    PrintReads(level + 1, Some(Un), x, after, rest);
    LoopEnds(level + 2, Some(Un), x, rest);
    hide Bare, Print, Levels, Takes, Parse, Operators;
    UnaryOpens(level, Limit(before), u, Print(x, Some(Un), after) + rest);
  }

  /** An operator that takes the operand reads its right operand next. */
  lemma BinaryOpens(level: nat, before: Option<Operator>, l: Expr, op: BinOpr, right: seq<Token>)
    requires before.None? || Takes(before.value, op)
    ensures Operators(level, Limit(before), l, [Sign(op)] + right) ==
      var v := Parse(level, Limit(Some(Bin(op))), right);
      if v.Ok? then Operators(level, Limit(before), Binary(op, l, v.e), v.rest) else v
  {
    PrioritiesRank(before, op);
    assert ([Sign(op)] + right)[1..] == right;
    hide Takes, Parse;
  }

  lemma BareBinary(op: BinOpr, l: Expr, r: Expr, before: Option<Operator>, after: Option<BinOpr>, rest: seq<Token>)
    ensures Bare(Binary(op, l, r), before, after) + rest ==
      Print(l, before, Some(op)) + ([Sign(op)] + (Print(r, Some(Bin(op)), after) + rest))
    ensures BareLevels(Binary(op, l, r), before, after) == Max(Levels(l, before, Some(op)), 1 + Levels(r, Some(Bin(op)), after))
  {
    hide Print, Levels;
  }

  lemma {:induction false} BinaryReads(level: nat, before: Option<Operator>, op: BinOpr, l: Expr, r: Expr, after: Option<BinOpr>, rest: seq<Token>)
    requires GetBinOpr(rest) == after && Fits(Binary(op, l, r), before, after)
    ensures var e := Binary(op, l, r);
      ReadsAs(level, Limit(before), Bare(e, before, after) + rest, e, rest, BareLevels(e, before, after))
    decreases Binary(op, l, r), 0, 1
  {
    var right := Print(r, Some(Bin(op)), after) + rest;
    var behind := [Sign(op)] + right;
    hide Bare, BareLevels, Print, Levels, Takes, Limit, Parse, Operators;
    BareBinary(op, l, r, before, after, rest);
    PrintReads(level, before, l, Some(op), behind);
    PrintReads(level + 1, Some(Bin(op)), r, after, rest);
    LoopEnds(level + 2, Some(Bin(op)), r, rest);
    BinaryOpens(level + 1, before, l, op, right);
  }

  /** Reading what was printed gives the expression back and takes exactly the printed
      tokens; it fails exactly when the calls nest too deep. */
  lemma RoundTrip(level: nat, e: Expr, rest: seq<Token>)
    requires GetBinOpr(rest).None?
    ensures level + Levels(e, None, None) <= 200 ==> Parse(level, 0, Print(e, None, None) + rest) == Ok(e, rest)
    ensures level + Levels(e, None, None) > 200 ==> !Parse(level, 0, Print(e, None, None) + rest).Ok?
  {
    PrintReads(level, None, e, None, rest);
  }

  lemma LeafPrinted(n: int, before: Option<Operator>, after: Option<BinOpr>)
    ensures Print(Leaf(n), before, after) == [Atom(n)] && Levels(Leaf(n), before, after) == 1
  {}

  lemma UnaryPrinted(u: UnOpr, a: int, before: Option<Operator>, after: Option<BinOpr>)
    requires Fits(Unary(u, Leaf(a)), before, after)
    ensures Print(Unary(u, Leaf(a)), before, after) == [UnToken(u), Atom(a)] && Levels(Unary(u, Leaf(a)), before, after) == 2
  {
    LeafPrinted(a, Some(Un), after);
  }

  lemma PairPrinted(a: int, o: BinOpr, b: int, before: Option<Operator>, after: Option<BinOpr>)
    requires Fits(Binary(o, Leaf(a), Leaf(b)), before, after)
    ensures var e := Binary(o, Leaf(a), Leaf(b));
      Print(e, before, after) == [Atom(a), Sign(o), Atom(b)] && Levels(e, before, after) == 2
  {
    LeafPrinted(a, before, Some(o));
    LeafPrinted(b, Some(Bin(o)), after);
  }

  /** Three operands: the one in the middle goes to the operator that ranks higher; of two of
      the same rank to the first, unless they associate to the right. */
  lemma Grouping(level: nat, a: int, o1: BinOpr, b: int, o2: BinOpr, c: int)
    requires level + 3 <= MAXCCALLS
    ensures var left := Higher(Bin(o1), Bin(o2)) || (Equal(Bin(o1), Bin(o2)) && o1 !in {Concat, Pow});
      Parse(level, 0, [Atom(a), Sign(o1), Atom(b), Sign(o2), Atom(c)]) ==
      Ok(if left then Binary(o2, Binary(o1, Leaf(a), Leaf(b)), Leaf(c)) else Binary(o1, Leaf(a), Binary(o2, Leaf(b), Leaf(c))), [])
  {
    RanksAre(Bin(o1), Bin(o2));
    RanksAre(Bin(o2), Bin(o1));
    hide Higher, Equal;
    assert Place(Bin(o1)) == Place(Bin(o2)) ==> (o1 in TO_THE_RIGHT <==> o2 in TO_THE_RIGHT);
    hide Place;
    if Takes(Bin(o1), o2) {
      hide Takes;
      GroupedRight(level, a, o1, b, o2, c);
    } else {
      hide Takes;
      GroupedLeft(level, a, o1, b, o2, c);
    }
  }

  lemma GroupedRight(level: nat, a: int, o1: BinOpr, b: int, o2: BinOpr, c: int)
    requires level + 3 <= MAXCCALLS && Takes(Bin(o1), o2)
    ensures Parse(level, 0, [Atom(a), Sign(o1), Atom(b), Sign(o2), Atom(c)]) ==
      Ok(Binary(o1, Leaf(a), Binary(o2, Leaf(b), Leaf(c))), [])
  {
    hide Takes;
    var e := Binary(o1, Leaf(a), Binary(o2, Leaf(b), Leaf(c)));
    LeafPrinted(a, None, Some(o1));
    PairPrinted(b, o2, c, Some(Bin(o1)), None);
    assert Print(e, None, None) == [Atom(a), Sign(o1), Atom(b), Sign(o2), Atom(c)] && Levels(e, None, None) <= 3;
    hide *;
    ReadBack(level, e);
  }

  lemma GroupedLeft(level: nat, a: int, o1: BinOpr, b: int, o2: BinOpr, c: int)
    requires level + 3 <= MAXCCALLS && !Takes(Bin(o1), o2)
    ensures Parse(level, 0, [Atom(a), Sign(o1), Atom(b), Sign(o2), Atom(c)]) ==
      Ok(Binary(o2, Binary(o1, Leaf(a), Leaf(b)), Leaf(c)), [])
  {
    hide Takes;
    var e := Binary(o2, Binary(o1, Leaf(a), Leaf(b)), Leaf(c));
    PairPrinted(a, o1, b, None, Some(o2));
    LeafPrinted(c, Some(Bin(o2)), None);
    assert Print(e, None, None) == [Atom(a), Sign(o1), Atom(b), Sign(o2), Atom(c)] && Levels(e, None, None) <= 3;
    hide *;
    ReadBack(level, e);
  }

  lemma ReadBack(level: nat, e: Expr)
    requires level + Levels(e, None, None) <= MAXCCALLS
    ensures Parse(level, 0, Print(e, None, None)) == Ok(e, [])
  {
    var none: seq<Token> := [];
    hide Parse, Print, Levels;
    RoundTrip(level, e, none);
    assert Print(e, None, None) + none == Print(e, None, None);
  }

  /** A unary operator gives its operand up to power only. */
  lemma UnaryGrouping(level: nat, u: UnOpr, a: int, o: BinOpr, b: int)
    requires level + 3 <= MAXCCALLS
    ensures Parse(level, 0, [UnToken(u), Atom(a), Sign(o), Atom(b)]) ==
      Ok(if o == Pow then Unary(u, Binary(o, Leaf(a), Leaf(b))) else Binary(o, Unary(u, Leaf(a)), Leaf(b)), [])
  {
    RanksAre(Bin(o), Un);
    hide Higher, Equal;
    var e := if o == Pow then Unary(u, Binary(o, Leaf(a), Leaf(b))) else Binary(o, Unary(u, Leaf(a)), Leaf(b));
    var ts := [UnToken(u), Atom(a), Sign(o), Atom(b)];
    assert Print(e, None, None) == ts && Levels(e, None, None) <= 3 by {
      if o == Pow {
        PairPrinted(a, o, b, Some(Un), None);
      } else {
        UnaryPrinted(u, a, None, Some(o));
        LeafPrinted(b, Some(Bin(o)), None);
      }
    }
    hide Takes, Print, Levels, Parse;
    ReadBack(level, e);
  }

  // ---------- The parentheses printed are needed ----------

  /** An operator that takes the operand takes the expression read so far. */
  lemma OneMore(level: nat, before: Option<Operator>, e: Expr, o: BinOpr, n: int)
    requires level < MAXCCALLS
    ensures Operators(level, Limit(before), e, [Sign(o), Atom(n)]) ==
      if before.None? || Takes(before.value, o) then Ok(Binary(o, e, Leaf(n)), []) else Ok(e, [Sign(o), Atom(n)])
  {
    PrioritiesRank(before, o);
    hide Takes, Limit;
    var ts := [Sign(o), Atom(n)];
    assert ts[1..] == [Atom(n)] && ts[1..][1..] == [];
    assert Operators(level + 1, Right(o), Leaf(n), []) == Ok(Leaf(n), []);
    assert Parse(level, Right(o), ts[1..]) == Ok(Leaf(n), []);
  }

  lemma NothingLeft(level: nat, limit: nat, e: Expr)
    ensures Operators(level, limit, e, []) == Ok(e, [])
  {}

  /** Without its parentheses the expression is not what is read. */
  lemma ParensNeeded(level: nat, before: Option<Operator>, e: Expr, o: BinOpr, n: int)
    requires !Fits(e, before, Some(o)) && level + BareLevels(e, before, Some(o)) + 1 <= MAXCCALLS
    ensures Parse(level, Limit(before), Bare(e, before, Some(o)) + [Sign(o), Atom(n)])
         != Operators(level + 1, Limit(before), e, [Sign(o), Atom(n)])
  {
    OneMore(level + 1, before, e, o, n);
    match e {
      case Unary(u, x) => UnaryNeeds(level, before, u, x, o, n);
      case Binary(op, l, r) => BinaryNeeds(level, before, op, l, r, o, n);
    }
  }

  /** The operator would go to the argument. */
  lemma UnaryNeeds(level: nat, before: Option<Operator>, u: UnOpr, x: Expr, o: BinOpr, n: int)
    requires Takes(Un, o) && level + BareLevels(Unary(u, x), before, Some(o)) + 1 <= MAXCCALLS
    ensures Parse(level, Limit(before), Bare(Unary(u, x), before, Some(o)) + [Sign(o), Atom(n)])
         == Ok(Unary(u, Binary(o, x, Leaf(n))), [])
  {
    var rest := [Sign(o), Atom(n)];
    var inner := Print(x, Some(Un), Some(o)) + rest;
    BareUnary(u, x, before, Some(o), rest);
    hide Bare, Print, Levels, BareLevels, Takes, Parse, Operators, Limit;
    PrintReads(level + 1, Some(Un), x, Some(o), rest);
    OneMore(level + 2, Some(Un), x, o, n);
    UnaryOpens(level, Limit(before), u, inner);
    NothingLeft(level + 1, Limit(before), Unary(u, Binary(o, x, Leaf(n))));
  }

  /** The operator would go to the right operand, or the left operand would be all that is read. */
  lemma BinaryNeeds(level: nat, before: Option<Operator>, op: BinOpr, l: Expr, r: Expr, o: BinOpr, n: int)
    requires !Fits(Binary(op, l, r), before, Some(o))
    requires level + BareLevels(Binary(op, l, r), before, Some(o)) + 1 <= MAXCCALLS
    ensures var p := Parse(level, Limit(before), Bare(Binary(op, l, r), before, Some(o)) + [Sign(o), Atom(n)]);
      if before.None? || Takes(before.value, op) then p == Ok(Binary(op, l, Binary(o, r, Leaf(n))), [])
      else p.Ok? && p.e == l && |p.rest| > 2
  {
    var rest := [Sign(o), Atom(n)];
    var right := Print(r, Some(Bin(op)), Some(o)) + rest;
    var behind := [Sign(op)] + right;
    BareBinary(op, l, r, before, Some(o), rest);
    PrintReads(level, before, l, Some(op), behind);
    PrioritiesRank(before, op);
    hide Bare, Print, Takes, Limit, Parse;
    if before.None? || Takes(before.value, op) {
      RightGoesOn(level, before, op, l, r, o, n);
    }
  }

  lemma RightGoesOn(level: nat, before: Option<Operator>, op: BinOpr, l: Expr, r: Expr, o: BinOpr, n: int)
    requires Takes(Bin(op), o) && (before.None? || Takes(before.value, op))
    requires level + 1 + Levels(r, Some(Bin(op)), Some(o)) + 1 <= MAXCCALLS
    ensures Operators(level + 1, Limit(before), l, [Sign(op)] + (Print(r, Some(Bin(op)), Some(o)) + [Sign(o), Atom(n)]))
         == Ok(Binary(op, l, Binary(o, r, Leaf(n))), [])
  {
    var right := Print(r, Some(Bin(op)), Some(o)) + [Sign(o), Atom(n)];
    hide Print, Levels, Takes, Limit, Parse, Operators;
    BinaryOpens(level + 1, before, l, op, right);
    PrintReads(level + 1, Some(Bin(op)), r, Some(o), [Sign(o), Atom(n)]);
    OneMore(level + 2, Some(Bin(op)), r, o, n);
    NothingLeft(level + 1, Limit(before), Binary(op, l, Binary(o, r, Leaf(n))));
  }

  // ---------- What is read from any text ----------

  function NoParens(ts: seq<Token>): seq<Token> {
    if ts == [] then []
    else if ts[0].Open? || ts[0].Close? then NoParens(ts[1..])
    else [ts[0]] + NoParens(ts[1..])
  }

  /** The operators and operands of an expression from left to right. */
  function Flat(e: Expr): seq<Token> {
    match e
    case Leaf(n) => [Atom(n)]
    case Unary(u, x) => [UnToken(u)] + Flat(x)
    case Binary(op, l, r) => Flat(l) + [Sign(op)] + Flat(r)
  }

  lemma {:induction false} NoParensJoin(a: seq<Token>, b: seq<Token>)
    ensures NoParens(a + b) == NoParens(a) + NoParens(b)
    decreases |a|
  {
    if a == [] {
      assert a + b == b;
    } else {
      NoParensJoin(a[1..], b);
      assert (a + b)[1..] == a[1..] + b;
      assert [a[0]] + (NoParens(a[1..]) + NoParens(b)) == [a[0]] + NoParens(a[1..]) + NoParens(b);
    }
  }

  lemma NoParensOne(t: Token)
    ensures NoParens([t]) == if t.Open? || t.Close? then [] else [t]
  {
    assert [t][1..] == [];
  }

  /** ts is some text for e, with whatever parentheses, followed by rest. */
  ghost predicate TextOf(ts: seq<Token>, e: Expr, rest: seq<Token>) {
    exists text :: ts == text + rest && NoParens(text) == Flat(e)
  }

  /** Whatever is read, its tree has the tokens of the text in their order, and the
      text ends where the rest begins. */
  lemma {:induction false} ParseKeepsTokens(level: nat, limit: nat, ts: seq<Token>)
    requires Parse(level, limit, ts).Ok?
    ensures TextOf(ts, Parse(level, limit, ts).e, Parse(level, limit, ts).rest)
    decreases |ts|, 1
  {
    var v := Operand(level + 1, ts);
    OperandKeepsTokens(level + 1, ts);
    var text :| ts == text + v.rest && NoParens(text) == Flat(v.e);
    OperatorsKeepTokens(level + 1, limit, v.e, v.rest, text);
  }

  lemma {:induction false} OperandKeepsTokens(level: nat, ts: seq<Token>)
    requires Operand(level, ts).Ok?
    ensures TextOf(ts, Operand(level, ts).e, Operand(level, ts).rest)
    decreases |ts|, 0
  {
    var head, tail := ts[0], ts[1..];
    assert ts == [head] + tail;
    NoParensOne(head);
    if GetUnOpr(ts).Some? {
      ParseKeepsTokens(level, UNARY_PRIORITY, tail);
      UnaryText(head, tail, GetUnOpr(ts).value, Parse(level, UNARY_PRIORITY, tail));
    } else if head.Open? {
      ParseKeepsTokens(level, 0, tail);
      ParenText(head, tail, Parse(level, 0, tail));
    }
  }

  lemma UnaryText(head: Token, tail: seq<Token>, u: UnOpr, v: Parsed)
    requires head == UnToken(u) && v.Ok? && TextOf(tail, v.e, v.rest)
    ensures TextOf([head] + tail, Unary(u, v.e), v.rest)
  {
    var text :| tail == text + v.rest && NoParens(text) == Flat(v.e);
    NoParensOne(head);
    NoParensJoin([head], text);
    assert [head] + tail == ([head] + text) + v.rest;
  }

  lemma ParenText(head: Token, tail: seq<Token>, v: Parsed)
    requires head.Open? && v.Ok? && TextOf(tail, v.e, v.rest) && v.rest != [] && v.rest[0].Close?
    ensures TextOf([head] + tail, v.e, v.rest[1..])
  {
    var text :| tail == text + v.rest && NoParens(text) == Flat(v.e);
    var end := v.rest[0];
    NoParensOne(head);
    NoParensOne(end);
    NoParensJoin([head], text);
    NoParensJoin([head] + text, [end]);
    assert v.rest == [end] + v.rest[1..];
    assert [head] + tail == ([head] + text + [end]) + v.rest[1..];
  }

  lemma {:induction false} OperatorsKeepTokens(level: nat, limit: nat, e: Expr, ts: seq<Token>, before: seq<Token>)
    requires Operators(level, limit, e, ts).Ok? && NoParens(before) == Flat(e)
    ensures TextOf(before + ts, Operators(level, limit, e, ts).e, Operators(level, limit, e, ts).rest)
    decreases |ts|, 0
  {
    var op := GetBinOpr(ts);
    if op.Some? && Left(op.value) > limit {
      var tail := ts[1..];
      ParseKeepsTokens(level, Right(op.value), tail);
      var v := Parse(level, Right(op.value), tail);
      assert ts == [Sign(op.value)] + tail;
      hide Parse, NoParens, Flat, Left, Right, TextOf;
      var more := OneOperator(before, op.value, tail, e, v);
      OperatorsKeepTokens(level, limit, Binary(op.value, e, v.e), v.rest, more);
    } else {
      hide Parse, Left, Right;
    }
  }

  /** The text up to the end of the right operand. */
  lemma OneOperator(before: seq<Token>, op: BinOpr, tail: seq<Token>, e: Expr, v: Parsed) returns (more: seq<Token>)
    requires NoParens(before) == Flat(e) && v.Ok? && TextOf(tail, v.e, v.rest)
    ensures before + ([Sign(op)] + tail) == more + v.rest && NoParens(more) == Flat(Binary(op, e, v.e))
  {
    var text :| tail == text + v.rest && NoParens(text) == Flat(v.e);
    BinaryText(before, op, text, e, v.e);
    hide NoParens, Flat;
    more := before + [Sign(op)] + text;
    assert before + ([Sign(op)] + (text + v.rest)) == more + v.rest;
  }

  lemma BinaryText(before: seq<Token>, op: BinOpr, text: seq<Token>, l: Expr, r: Expr)
    requires NoParens(before) == Flat(l) && NoParens(text) == Flat(r)
    ensures NoParens(before + [Sign(op)] + text) == Flat(Binary(op, l, r))
  {
    NoParensJoin(before, [Sign(op)]);
    NoParensJoin(before + [Sign(op)], text);
    NoParensOne(Sign(op));
  }
}
