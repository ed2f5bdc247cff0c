/** What the single-character classes of a pattern stand for, from the way they are written. */
module PatternClass {
  import opened Options
  import opened PatternMatch

  /** A member of a set: a character, a range, or a class or character behind a percent sign. */
  datatype Member = One(c: char) | Range(lo: char, hi: char) | Escaped(l: char)

  datatype Class = Any | Letter(l: char) | Plain(c: char) | Set(negated: bool, ms: seq<Member>)

  // ---------- Meaning ----------

  predicate Has(v: Env, m: Member, c: char) {
    match m
    case One(d) => c == d
    case Range(lo, hi) => lo <= c <= hi
    case Escaped(l) => v.cls(c, l)
  }

  ghost predicate Belongs(v: Env, ms: seq<Member>, c: char) { exists m :: m in ms && Has(v, m, c) }

  ghost predicate Denotes(v: Env, x: Class, c: char) {
    match x
    case Any => true
    case Letter(l) => v.cls(c, l)
    case Plain(d) => c == d
    case Set(negated, ms) => Belongs(v, ms, c) != negated
  }

  // ---------- Text ----------

  function MemberText(m: Member): (t: string)
    ensures t != ""
  {
    match m
    case One(c) => [c]
    case Range(lo, hi) => [lo, '-', hi]
    case Escaped(l) => ['%', l]
  }

  function MembersText(ms: seq<Member>): string { if ms == [] then "" else MemberText(ms[0]) + MembersText(ms[1..]) }

  function ClassText(x: Class): string {
    match x
    case Any => "."
    case Letter(l) => ['%', l]
    case Plain(c) => [c]
    case Set(negated, ms) => "[" + (if negated then "^" else "") + MembersText(ms) + "]"
  }

  /** Members that can be told apart: a closing bracket stands by itself at the beginning only,
      and a minus sign behind a character at the end only. */
  predicate Distinguished(ms: seq<Member>, first: bool) {
    ms != [] ==>
      && (match ms[0]
          case One(c) => Begins(c, first) && (|ms| > 1 && MemberText(ms[1])[0] == '-' ==> ms[1..] == [One('-')])
          case Range(lo, hi) => Begins(lo, first) && hi != '%' && hi != '\0' && hi != ']'
          case Escaped(l) => l != '\0')
      && Distinguished(ms[1..], false)
  }

  predicate Begins(c: char, first: bool) { c != '%' && c != '\0' && (c == ']' ==> first) }

  predicate Written(x: Class) {
    match x
    case Any => true
    case Letter(l) => l != '\0'
    case Plain(c) => c != '.' && c != '%' && c != '[' && c != '\0'
    case Set(negated, ms) => ms != [] && Distinguished(ms, true) && (negated || MemberText(ms[0])[0] != '^')
  }

  // ---------- Membership ----------

  lemma {:induction false} MembersAre(v: Env, c: char, ms: seq<Member>, first: bool, k: nat, ec: nat)
    requires k <= ec <= |v.p| && v.p[k..ec] == MembersText(ms) && Distinguished(ms, first)
    ensures InSet(v, c, k, ec) <==> Belongs(v, ms, c)
    decreases |ms|
  {
    if ms != [] {
      var t, next := MemberText(ms[0]), k + |MemberText(ms[0])|;
      FirstText(v, ms, k, ec);
      FirstMember(v, c, ms, first, k, ec);
      MembersAre(v, c, ms[1..], false, next, ec);
      hide InSet, MemberText, MembersText, Distinguished, Has;
      assert forall m :: m in ms <==> m == ms[0] || m in ms[1..];
    }
  }

  lemma TextAt(v: Env, k: nat, t: string, j: nat)
    requires k + |t| <= |v.p| && v.p[k..k + |t|] == t && j < |t|
    ensures v.At(k + j) == v.p[k + j] == t[j]
  {
    assert v.p[k..k + |t|][j] == v.p[k + j];
  }

  /** The text of the first member and that of the others. */
  lemma FirstText(v: Env, ms: seq<Member>, k: nat, ec: nat)
    requires k <= ec <= |v.p| && v.p[k..ec] == MembersText(ms) && ms != []
    ensures var t := MemberText(ms[0]);
      k + |t| <= ec && v.p[k..k + |t|] == t && v.p[k + |t|..ec] == MembersText(ms[1..])
      && forall j :: 0 <= j < |t| ==> v.At(k + j) == t[j]
  {
    var t, u := MemberText(ms[0]), MembersText(ms[1..]);
    assert v.p[k..ec] == t + u;
    hide MemberText, MembersText;
    TwoParts(v.p, k, ec, t, u);
    forall j | 0 <= j < |t|
      ensures v.At(k + j) == t[j]
    {
      TextAt(v, k, t, j);
    }
  }

  lemma TwoParts(p: string, k: nat, ec: nat, t: string, u: string)
    requires k <= ec <= |p| && p[k..ec] == t + u
    ensures k + |t| <= ec && p[k..k + |t|] == t && p[k + |t|..ec] == u
  {
    assert (t + u)[..|t|] == t && (t + u)[|t|..] == u;
    assert p[k..ec][..|t|] == p[k..k + |t|] && p[k..ec][|t|..] == p[k + |t|..ec];
  }

  /** The set is the first member and the others. */
  lemma FirstMember(v: Env, c: char, ms: seq<Member>, first: bool, k: nat, ec: nat)
    requires k <= ec <= |v.p| && v.p[k..ec] == MembersText(ms) && ms != [] && Distinguished(ms, first)
    ensures InSet(v, c, k, ec) <==> Has(v, ms[0], c) || InSet(v, c, k + |MemberText(ms[0])|, ec)
  {
    FirstText(v, ms, k, ec);
    match ms[0]
    case One(d) =>
      assert v.At(k + 0) == d;
      if |ms| == 1 {
        assert MembersText(ms[1..]) == "";
      } else {
        FirstText(v, ms[1..], k + 1, ec);
        assert v.At(k + 1 + 0) == MemberText(ms[1])[0];
        if v.At(k + 1) == '-' {
          assert MembersText([One('-')]) == "-";
        }
      }
    case Range(lo, hi) => assert v.At(k + 0) == lo && v.At(k + 1) == '-' && v.At(k + 2) == hi;
    case Escaped(l) => assert v.At(k + 0) == '%' && v.At(k + 1) == l;
  }

  /** The set ends behind its members. */
  lemma {:induction false} MembersEnd(v: Env, ms: seq<Member>, first: bool, k: nat, ec: nat)
    requires k <= ec < |v.p| && v.p[k..ec] == MembersText(ms) && ms != [] && Distinguished(ms, first) && v.p[ec] == ']'
    ensures SetEnd(v, k) == Some(ec + 1)
    decreases |ms|
  {
    var next := k + |MemberText(ms[0])|;
    FirstText(v, ms, k, ec);
    FirstEnd(v, ms, first, k, ec);
    if |ms| > 1 {
      NoBracket(v, ms[1..], next, ec);
      assert Distinguished(ms[1..], false);
      hide MemberText, MembersText, Distinguished, SetEnd;
      MembersEnd(v, ms[1..], false, next, ec);
    } else {
      assert MembersText(ms[1..]) == "";
      hide SetEnd;
    }
  }

  /** Behind the first member no other begins with a closing bracket. */
  lemma NoBracket(v: Env, ms: seq<Member>, k: nat, ec: nat)
    requires k <= ec <= |v.p| && v.p[k..ec] == MembersText(ms) && ms != [] && Distinguished(ms, false)
    ensures v.At(k) != ']'
  {
    FirstText(v, ms, k, ec);
    assert v.At(k + 0) == MemberText(ms[0])[0];
    hide MembersText;
  }

  /** No member hides the closing bracket. */
  lemma FirstEnd(v: Env, ms: seq<Member>, first: bool, k: nat, ec: nat)
    requires k <= ec < |v.p| && v.p[k..ec] == MembersText(ms) && ms != [] && Distinguished(ms, first)
    ensures var next := k + |MemberText(ms[0])|;
      SetEnd(v, k) == if v.At(next) == ']' then Some(next + 1) else SetEnd(v, next)
  {
    FirstText(v, ms, k, ec);
    match ms[0]
    case One(d) => assert v.At(k + 0) == d;
    case Range(lo, hi) =>
      assert v.At(k + 0) == lo && v.At(k + 1) == '-' && v.At(k + 2) == hi;
      assert SetEnd(v, k) == SetEnd(v, k + 1) == SetEnd(v, k + 2);
    case Escaped(l) => assert v.At(k + 0) == '%' && v.At(k + 1) == l;
  }

  lemma PartAt(p: string, k: nat, t: string, x: nat, y: nat)
    requires k + |t| <= |p| && p[k..k + |t|] == t && x <= y <= |t|
    ensures p[k + x..k + y] == t[x..y]
  {
    forall j | 0 <= j < y - x
      ensures p[k + x..k + y][j] == t[x..y][j]
    {
      assert p[k..k + |t|][x + j] == p[k + (x + j)];
    }
  }

  /** A class ends where its text ends and matches exactly the characters that it denotes. */
  lemma ClassIs(v: Env, i: nat, k: nat, x: Class)
    requires Written(x) && k + |ClassText(x)| <= |v.p| && v.p[k..k + |ClassText(x)|] == ClassText(x)
    ensures ClassText(x) != "" && v.At(k) != '\0' && ClassEnd(v, k) == Some(k + |ClassText(x)|)
    ensures Single(v, i, k, k + |ClassText(x)|) <==> i < |v.s| && Denotes(v, x, v.s[i])
  {
    var t := ClassText(x);
    TextAt(v, k, t, 0);
    match x
    case Set(negated, ms) => SetIs(v, i, k, negated, ms);
    case Letter(l) => TextAt(v, k, t, 1);
    case _ =>
  }

  lemma SetIs(v: Env, i: nat, k: nat, negated: bool, ms: seq<Member>)
    requires var x := Set(negated, ms);
      Written(x) && k + |ClassText(x)| <= |v.p| && v.p[k..k + |ClassText(x)|] == ClassText(x)
    ensures var x := Set(negated, ms);
      && ClassEnd(v, k) == Some(k + |ClassText(x)|)
      && (Single(v, i, k, k + |ClassText(x)|) <==> i < |v.s| && Denotes(v, x, v.s[i]))
  {
    var a, ec := if negated then k + 2 else k + 1, k + |ClassText(Set(negated, ms))| - 1;
    SetParts(v, k, negated, ms);
    MembersEnd(v, ms, true, a, ec);
    hide MembersText, MemberText, InSet, SetEnd, Distinguished, Belongs;
    if i < |v.s| {
      MembersAre(v, v.s[i], ms, true, a, ec);
    }
  }

  /** Brackets, a sign if the set is negated, and the members. */
  lemma SetParts(v: Env, k: nat, negated: bool, ms: seq<Member>)
    requires var x := Set(negated, ms);
      Written(x) && k + |ClassText(x)| <= |v.p| && v.p[k..k + |ClassText(x)|] == ClassText(x)
    ensures var a, ec := if negated then k + 2 else k + 1, k + |ClassText(Set(negated, ms))| - 1;
      && a <= ec < |v.p| && v.p[a..ec] == MembersText(ms) && v.p[ec] == ']' && v.At(k) == '['
      && (v.At(k + 1) == '^' <==> negated)
  {
    var t := ClassText(Set(negated, ms));
    var a, ec := if negated then k + 2 else k + 1, k + |t| - 1;
    TextAt(v, k, t, 0);
    TextAt(v, k, t, |t| - 1);
    hide MembersText, Distinguished;
    assert t[a - k..|t| - 1] == MembersText(ms);
    PartAt(v.p, k, t, a - k, |t| - 1);
    if negated {
      TextAt(v, k, t, 1);
    } else {
      FirstText(v, ms, a, ec);
      assert v.At(a + 0) == MemberText(ms[0])[0];
    }
  }
}
