/** Lua patterns: the backtracking matcher as a function, and the language it decides. */
module PatternMatch {
  import opened Options

  const UNFINISHED := -1
  const POSITION := -2
  const MAXCAPTURES := 32
  const ESC := '%'

  datatype Capture = Capture(init: nat, len: int)

  /** A subject, a pattern, and what the letters behind a percent sign stand for. */
  datatype Env = Env(s: string, p: string, cls: (char, char) -> bool) {
    /** The pattern ends at its first NUL or where the string ends. */
    function At(k: nat): char { if k < |p| then p[k] else '\0' }

    /** The subject ends in a NUL. */
    function Char(i: nat): char { if i < |s| then s[i] else '\0' }
  }

  datatype Outcome = Found(e: nat, caps: seq<Capture>) | Fail | Error

  // ---------- Single characters ----------

  /** Behind the members of a set in brackets. */
  function SetEnd(v: Env, k: nat): (r: Option<nat>)
    ensures r.Some? ==> k < r.value <= |v.p|
    decreases |v.p| - k
  {
    if v.At(k) == '\0' then None
    else
      var next := if v.At(k) == ESC && v.At(k + 1) != '\0' then k + 2 else k + 1;
      if v.At(next) == ']' then Some(next + 1) else SetEnd(v, next)
  }

  /** classend: behind the single-character class at k. */
  function ClassEnd(v: Env, k: nat): (r: Option<nat>)
    requires v.At(k) != '\0'
    ensures r.Some? ==> k < r.value <= |v.p|
  {
    if v.At(k) == ESC then if v.At(k + 1) == '\0' then None else Some(k + 2)
    else if v.At(k) == '[' then SetEnd(v, if v.At(k + 1) == '^' then k + 2 else k + 1)
    else Some(k + 1)
  }

  /** c is one of the members from k on, up to the closing bracket at ec. */
  predicate InSet(v: Env, c: char, k: nat, ec: nat)
    decreases ec - k
  {
    k < ec &&
    if v.At(k) == ESC then v.cls(c, v.At(k + 1)) || InSet(v, c, k + 2, ec)
    else if v.At(k + 1) == '-' && k + 2 < ec then v.At(k) <= c <= v.At(k + 2) || InSet(v, c, k + 3, ec)
    else v.At(k) == c || InSet(v, c, k + 1, ec)
  }

  /** matchbracketclass. */
  predicate InBrackets(v: Env, c: char, k: nat, ec: nat) {
    if v.At(k + 1) == '^' then !InSet(v, c, k + 2, ec) else InSet(v, c, k + 1, ec)
  }

  /** singlematch, at a place in the subject. */
  predicate Single(v: Env, i: nat, k: nat, ep: nat)
    requires ep > 0
  {
    i < |v.s| &&
    if v.At(k) == '.' then true
    else if v.At(k) == ESC then v.cls(v.s[i], v.At(k + 1))
    else if v.At(k) == '[' then InBrackets(v, v.s[i], k, ep - 1)
    else v.At(k) == v.s[i]
  }

  /** How often the class matches from i on. */
  function Run(v: Env, i: nat, k: nat, ep: nat): (n: nat)
    requires ep > 0 && i <= |v.s|
    ensures i + n <= |v.s|
    decreases |v.s| - i
  {
    if Single(v, i, k, ep) then 1 + Run(v, i + 1, k, ep) else 0
  }

  // ---------- Captures ----------

  /** The last capture not closed yet, -1 if there is none. */
  function ToClose(caps: seq<Capture>): (l: int)
    ensures -1 <= l < |caps| && (l >= 0 ==> caps[l].len == UNFINISHED)
    ensures forall j :: l < j < |caps| ==> caps[j].len != UNFINISHED
  {
    if caps == [] then -1
    else if caps[|caps|-1].len == UNFINISHED then |caps| - 1
    else ToClose(caps[..|caps|-1])
  }

  // ---------- The matcher ----------

  predicate Repeated(c: char) { c == '?' || c == '*' || c == '+' || c == '-' }

  predicate Digit(c: char) { '0' <= c <= '9' }

  /** %b, %f or a reference to a capture stands at k. */
  predicate Special(v: Env, k: nat) {
    v.At(k) == ESC && (v.At(k + 1) == 'b' || v.At(k + 1) == 'f' || Digit(v.At(k + 1)))
  }

  /** The loop of matchbalance: depth opening characters wait for their closing ones. */
  function Balance(v: Env, i: nat, depth: nat, x: char, y: char): (r: Option<nat>)
    requires depth > 0
    ensures r.Some? ==> i < r.value <= |v.s|
    decreases |v.s| - i
  {
    if i >= |v.s| then None
    else if v.s[i] == y then if depth == 1 then Some(i + 1) else Balance(v, i + 1, depth - 1, x, y)
    else Balance(v, i + 1, if v.s[i] == x then depth + 1 else depth, x, y)
  }

  /** The set behind %f has the character here but not the one before. */
  predicate Frontier(v: Env, i: nat, k: nat, ep: nat)
    requires ep > 0 && i <= |v.s|
  {
    !InBrackets(v, if i == 0 then '\0' else v.s[i-1], k, ep - 1) && InBrackets(v, v.Char(i), k, ep - 1)
  }

  /** The text of the capture stands at i, too; a position has no text. Captures of a match
      lie inside the subject (MatchGood), so the third condition always holds. */
  predicate SameText(v: Env, i: nat, c: Capture) {
    c.len >= 0 && i + c.len <= |v.s| && c.init + c.len <= |v.s| && v.s[c.init..c.init + c.len] == v.s[i..i + c.len]
  }

  function Index(c: char): int { c as int - '1' as int }

  /** Where the match goes on behind such an item. */
  datatype Step = Go(i: nat, k: nat) | NoMatch | Bad

  function Escape(v: Env, i: nat, k: nat, caps: seq<Capture>): (r: Step)
    requires i <= |v.s| && Special(v, k)
    ensures r.Go? ==> i <= r.i <= |v.s| && k < r.k <= |v.p|
  {
    var c := v.At(k + 1);
    if c == 'b' then
      if v.At(k + 2) == '\0' || v.At(k + 3) == '\0' then Bad
      else if v.Char(i) != v.At(k + 2) then NoMatch
      else
        match Balance(v, i + 1, 1, v.At(k + 2), v.At(k + 3))
        case Some(e) => Go(e, k + 4)
        case None => NoMatch
    else if c == 'f' then
      if v.At(k + 2) != '[' || ClassEnd(v, k + 2).None? then Bad
      else
        var ep := ClassEnd(v, k + 2).value;
        if Frontier(v, i, k + 2, ep) then Go(i, ep) else NoMatch
    else
      var l := Index(c);
      if l < 0 || l >= |caps| || caps[l].len == UNFINISHED then Bad
      else if SameText(v, i, caps[l]) then Go(i + caps[l].len, k + 2) else NoMatch
  }

  function Match(v: Env, i: nat, k: nat, caps: seq<Capture>): (r: Outcome)
    requires i <= |v.s|
    decreases |v.p| - k, 2, 0
  {
    var c := v.At(k);
    if c == '(' then
      if v.At(k + 1) == ')' then Start(v, i, k + 2, caps, POSITION) else Start(v, i, k + 1, caps, UNFINISHED)
    else if c == ')' then End(v, i, k + 1, caps)
    else if Special(v, k) then
      match Escape(v, i, k, caps)
      case Go(i1, k1) => Match(v, i1, k1, caps)
      case NoMatch => Fail
      case Bad => Error
    else if c == '\0' then Found(i, caps)
    else if c == '$' && v.At(k + 1) == '\0' then if i == |v.s| then Found(i, caps) else Fail
    else
      var ep := ClassEnd(v, k);
      if ep.None? then Error else Item(v, i, k, ep.value, caps)
  }

  function Start(v: Env, i: nat, k: nat, caps: seq<Capture>, what: int): (r: Outcome)
    requires i <= |v.s|
    decreases |v.p| - k, 3, 0
  {
    if |caps| >= MAXCAPTURES then Error else Match(v, i, k, caps + [Capture(i, what)])
  }

  function End(v: Env, i: nat, k: nat, caps: seq<Capture>): (r: Outcome)
    requires i <= |v.s|
    decreases |v.p| - k, 3, 0
  {
    var l := ToClose(caps);
    if l < 0 then Error else Match(v, i, k, caps[l := caps[l].(len := i - caps[l].init)])
  }

  /** A class and what stands behind it. */
  function Item(v: Env, i: nat, k: nat, ep: nat, caps: seq<Capture>): (r: Outcome)
    requires i <= |v.s| && k < ep <= |v.p|
    decreases |v.p| - k, 1, 0
  {
    var m := Single(v, i, k, ep);
    match v.At(ep)
    case '?' =>
      var r := if m then Match(v, i + 1, ep + 1, caps) else Fail;
      if r.Fail? then Match(v, i, ep + 1, caps) else r
    case '*' => MaxExpand(v, i, Run(v, i, k, ep), ep + 1, caps)
    case '+' => if m then MaxExpand(v, i + 1, Run(v, i + 1, k, ep), ep + 1, caps) else Fail
    case '-' => MinExpand(v, i, k, ep, caps)
    case _ => if m then Match(v, i + 1, ep, caps) else Fail
  }

  /** From n repetitions downwards. */
  function MaxExpand(v: Env, i: nat, n: nat, k: nat, caps: seq<Capture>): (r: Outcome)
    requires i + n <= |v.s|
    decreases |v.p| - k, 3, n
  {
    var r := Match(v, i + n, k, caps);
    if r.Fail? && n > 0 then MaxExpand(v, i, n - 1, k, caps) else r
  }

  /** From no repetition upwards. */
  function MinExpand(v: Env, i: nat, k: nat, ep: nat, caps: seq<Capture>): (r: Outcome)
    requires i <= |v.s| && k < ep <= |v.p|
    decreases |v.p| - k, 0, |v.s| - i
  {
    var r := Match(v, i, ep + 1, caps);
    if r.Fail? && Single(v, i, k, ep) then MinExpand(v, i + 1, k, ep, caps) else r
  }

  // ---------- The language ----------

  /** Opening less closing characters from a to b, and the one before a. */
  ghost function Depth(v: Env, a: nat, b: nat, x: char, y: char): int
    requires b <= |v.s|
    decreases b
  {
    if b <= a then 1 else Depth(v, a, b - 1, x, y) + if v.s[b-1] == y then -1 else if v.s[b-1] == x then 1 else 0
  }

  /** From an x to the y that brings the count to zero. */
  ghost predicate Balanced(v: Env, i: nat, e: nat, x: char, y: char) {
    i < e <= |v.s| && v.s[i] == x && Depth(v, i + 1, e, x, y) == 0 && Waiting(v, i + 1, e, x, y)
  }

  /** The count is not zero yet anywhere before e. */
  ghost predicate Waiting(v: Env, a: nat, e: nat, x: char, y: char)
    requires e <= |v.s|
  {
    forall j :: a <= j < e ==> Depth(v, a, j, x, y) > 0
  }

  /** The class matches n times from i on. */
  ghost predicate Repeats(v: Env, i: nat, n: nat, k: nat, ep: nat)
    requires ep > 0
  {
    forall j :: i <= j < i + n ==> Single(v, j, k, ep)
  }

  ghost predicate InLanguageTimes(v: Env, i: nat, n: nat, k: nat, ep: nat, caps: seq<Capture>, t: Outcome)
    requires k < ep <= |v.p|
    decreases |v.p| - ep, 1
  {
    Repeats(v, i, n, k, ep) && i + n <= |v.s| && InLanguage(v, i + n, ep + 1, caps, t)
  }

  /** The part from i to e is what the %b at k asks for. */
  ghost predicate BalancedAt(v: Env, i: nat, e: nat, k: nat) {
    v.At(k + 2) != '\0' && v.At(k + 3) != '\0' && Balanced(v, i, e, v.At(k + 2), v.At(k + 3))
  }

  /** The characters from i on can be divided among the items of the pattern from k on so that
      the match ends, with its captures, as t says. */
  ghost predicate InLanguage(v: Env, i: nat, k: nat, caps: seq<Capture>, t: Outcome)
    decreases |v.p| - k, 0
  {
    i <= |v.s| &&
    var c := v.At(k);
    if c == '(' then
      if v.At(k + 1) == ')' then InLanguage(v, i, k + 2, caps + [Capture(i, POSITION)], t)
      else InLanguage(v, i, k + 1, caps + [Capture(i, UNFINISHED)], t)
    else if c == ')' then
      var l := ToClose(caps);
      l >= 0 && InLanguage(v, i, k + 1, caps[l := caps[l].(len := i - caps[l].init)], t)
    else if Special(v, k) then
      if v.At(k + 1) == 'b' then
        exists e: nat :: BalancedAt(v, i, e, k) && InLanguage(v, e, k + 4, caps, t)
      else if v.At(k + 1) == 'f' then
        v.At(k + 2) == '[' && ClassEnd(v, k + 2).Some? &&
        Frontier(v, i, k + 2, ClassEnd(v, k + 2).value) && InLanguage(v, i, ClassEnd(v, k + 2).value, caps, t)
      else
        var l := Index(v.At(k + 1));
        0 <= l < |caps| && SameText(v, i, caps[l]) && InLanguage(v, i + caps[l].len, k + 2, caps, t)
    else if c == '\0' then t == Found(i, caps)
    else if c == '$' && v.At(k + 1) == '\0' then i == |v.s| && t == Found(i, caps)
    else if ClassEnd(v, k).None? then false
    else
      var ep := ClassEnd(v, k).value;
      match v.At(ep)
      case '?' => InLanguageTimes(v, i, 0, k, ep, caps, t) || InLanguageTimes(v, i, 1, k, ep, caps, t)
      case '*' => exists n: nat :: InLanguageTimes(v, i, n, k, ep, caps, t)
      case '-' => exists n: nat :: InLanguageTimes(v, i, n, k, ep, caps, t)
      case '+' => exists n: nat :: n >= 1 && InLanguageTimes(v, i, n, k, ep, caps, t)
      case _ => Single(v, i, k, ep) && InLanguage(v, i + 1, ep, caps, t)
  }

  /** The result from i on is right about the language of what is behind k. */
  ghost predicate Decides(v: Env, i: nat, k: nat, caps: seq<Capture>, r: Outcome) {
    && (r.Found? ==> InLanguage(v, i, k, caps, r))
    && (r.Fail? ==> forall t :: !InLanguage(v, i, k, caps, t))
  }

  /** The loop finds the end of the balanced part, if there is one. */
  lemma {:induction false} BalanceFrom(v: Env, a: nat, j: nat, x: char, y: char)
    requires a <= j <= |v.s| && forall m :: a <= m <= j ==> Depth(v, a, m, x, y) > 0
    ensures match Balance(v, j, Depth(v, a, j, x, y), x, y)
            case Some(e) => Depth(v, a, e, x, y) == 0 && Waiting(v, a, e, x, y)
            case None => Waiting(v, a, |v.s|, x, y) && Depth(v, a, |v.s|, x, y) > 0
    decreases |v.s| - j
  {
    if j < |v.s| {
      var d := Depth(v, a, j, x, y);
      assert Depth(v, a, j + 1, x, y) == d + if v.s[j] == y then -1 else if v.s[j] == x then 1 else 0;
      if !(v.s[j] == y && d == 1) {
        BalanceFrom(v, a, j + 1, x, y);
      }
    }
  }

  lemma BalanceIs(v: Env, i: nat, x: char, y: char)
    requires i < |v.s| && v.s[i] == x
    ensures forall e: nat :: Balanced(v, i, e, x, y) <==> Balance(v, i + 1, 1, x, y) == Some(e)
  {
    BalanceFrom(v, i + 1, i + 1, x, y);
  }

  /** %b goes on behind the only balanced part there is, if there is one. */
  lemma BalanceDecides(v: Env, i: nat, k: nat, caps: seq<Capture>)
    requires i <= |v.s| && Special(v, k) && v.At(k + 1) == 'b'
    ensures var s := Escape(v, i, k, caps);
      && (s.Go? ==> s.k == k + 4) && forall e: nat :: BalancedAt(v, i, e, k) <==> s.Go? && e == s.i
  {
    var x, y := v.At(k + 2), v.At(k + 3);
    if x != '\0' && y != '\0' && v.Char(i) == x && i < |v.s| {
      BalanceIs(v, i, x, y);
      hide Balanced;
    }
    hide Balance, Depth, Waiting;
  }

  /** The three escapes decide where to go on. */
  lemma EscapeDecides(v: Env, i: nat, k: nat, caps: seq<Capture>, t: Outcome)
    requires i <= |v.s| && Special(v, k)
    ensures InLanguage(v, i, k, caps, t) <==>
            (var s := Escape(v, i, k, caps); s.Go? && InLanguage(v, s.i, s.k, caps, t))
  {
    if v.At(k + 1) == 'b' {
      BalanceDecides(v, i, k, caps);
      hide Escape, BalancedAt;
      var s := Escape(v, i, k, caps);
      if InLanguage(v, i, k, caps, t) {
        var e: nat :| BalancedAt(v, i, e, k) && InLanguage(v, e, k + 4, caps, t);
        assert e == s.i;
      } else if s.Go? {
        assert BalancedAt(v, i, s.i, k);
      }
    } else {
      hide InBrackets, ClassEnd, Frontier;
    }
  }

  /** The run is the greatest number of repetitions. */
  lemma {:induction false} RunIs(v: Env, i: nat, k: nat, ep: nat, n: nat)
    requires ep > 0 && i <= |v.s|
    ensures Repeats(v, i, n, k, ep) <==> n <= Run(v, i, k, ep)
    decreases |v.s| - i
  {
    if n > 0 {
      RepeatsShift(v, i, n - 1, k, ep);
      if Single(v, i, k, ep) {
        RunIs(v, i + 1, k, ep, n - 1);
      }
    }
  }

  lemma RepeatsShift(v: Env, i: nat, n: nat, k: nat, ep: nat)
    requires ep > 0
    ensures Repeats(v, i, n + 1, k, ep) <==> Single(v, i, k, ep) && Repeats(v, i + 1, n, k, ep)
  {}

  lemma {:induction false} MatchDecides(v: Env, i: nat, k: nat, caps: seq<Capture>)
    requires i <= |v.s|
    ensures Decides(v, i, k, caps, Match(v, i, k, caps))
    decreases |v.p| - k, 2, 0
  {
    var c := v.At(k);
    if c == '(' {
      if v.At(k + 1) == ')' {
        StartDecides(v, i, k + 2, caps, POSITION);
      } else {
        StartDecides(v, i, k + 1, caps, UNFINISHED);
      }
    } else if c == ')' {
      EndDecides(v, i, k, caps);
    } else if Special(v, k) {
      SpecialDecides(v, i, k, caps);
    } else if Ordinary(v, k) && ClassEnd(v, k).Some? {
      ItemDecides(v, i, k, ClassEnd(v, k).value, caps);
    }
  }

  lemma LanguageOfEnd(v: Env, i: nat, k: nat, caps: seq<Capture>)
    requires i <= |v.s| && v.At(k) == ')'
    ensures var l := ToClose(caps);
      l >= 0 ==> forall t :: InLanguage(v, i, k, caps, t) <==> InLanguage(v, i, k + 1, caps[l := caps[l].(len := i - caps[l].init)], t)
  {}

  lemma {:induction false} SpecialDecides(v: Env, i: nat, k: nat, caps: seq<Capture>)
    requires i <= |v.s| && Special(v, k)
    ensures Decides(v, i, k, caps, Match(v, i, k, caps))
    decreases |v.p| - k, 1, 0
  {
    var s := Escape(v, i, k, caps);
    assert Match(v, i, k, caps) == match s case Go(i1, k1) => Match(v, i1, k1, caps) case NoMatch => Fail case Bad => Error;
    hide InLanguage, Match, Escape, Special;
    if s.Go? {
      MatchDecides(v, s.i, s.k, caps);
    }
    forall t
      ensures InLanguage(v, i, k, caps, t) <==> s.Go? && InLanguage(v, s.i, s.k, caps, t)
    {
      EscapeDecides(v, i, k, caps, t);
    }
  }

  lemma RunFrom(v: Env, i: nat, k: nat, ep: nat)
    requires ep > 0 && i <= |v.s| && Single(v, i, k, ep)
    ensures i < |v.s| && Run(v, i, k, ep) == 1 + Run(v, i + 1, k, ep)
  {}

  /** A single-character class stands at k. */
  predicate Ordinary(v: Env, k: nat) {
    var c := v.At(k);
    c != '(' && c != ')' && c != '\0' && !Special(v, k) && !(c == '$' && v.At(k + 1) == '\0')
  }

  lemma {:induction false} StartDecides(v: Env, i: nat, k: nat, caps: seq<Capture>, what: int)
    requires i <= |v.s|
    ensures Decides(v, i, k, caps + [Capture(i, what)], Start(v, i, k, caps, what))
    decreases |v.p| - k, 3, 0
  {
    if |caps| < MAXCAPTURES {
      MatchDecides(v, i, k, caps + [Capture(i, what)]);
    }
  }

  lemma {:induction false} EndDecides(v: Env, i: nat, k: nat, caps: seq<Capture>)
    requires i <= |v.s| && v.At(k) == ')'
    ensures Decides(v, i, k, caps, Match(v, i, k, caps))
    decreases |v.p| - k, 1, 0
  {
    var l := ToClose(caps);
    if l >= 0 {
      var closed := caps[l := caps[l].(len := i - caps[l].init)];
      assert Match(v, i, k, caps) == Match(v, i, k + 1, closed);
      LanguageOfEnd(v, i, k, caps);
      hide Match, InLanguage;
      MatchDecides(v, i, k + 1, closed);
    }
  }

  lemma {:induction false} ItemDecides(v: Env, i: nat, k: nat, ep: nat, caps: seq<Capture>)
    requires i <= |v.s| && Ordinary(v, k) && ClassEnd(v, k) == Some(ep)
    ensures Decides(v, i, k, caps, Item(v, i, k, ep, caps))
    decreases |v.p| - k, 1, 0
  {
    InLanguageItem(v, i, k, ep, caps);
    hide ClassEnd, InLanguageTimes, Ordinary, InLanguage, Single, Run;
    if Single(v, i, k, ep) {
      RunFrom(v, i, k, ep);
    }
    match v.At(ep) {
      case '?' =>
        OptionDecides(v, i, k, ep, caps);
      case '*' =>
        MaxDecides(v, i, 0, Run(v, i, k, ep), k, ep, caps);
      case '+' =>
        if Single(v, i, k, ep) {
          MaxDecides(v, i, 1, Run(v, i + 1, k, ep), k, ep, caps);
        } else {
          NeedsOne(v, i, k, ep, caps);
        }
      case '-' =>
        MinDecides(v, i, k, ep, caps);
      case _ =>
        if Single(v, i, k, ep) {
          MatchDecides(v, i + 1, ep, caps);
        }
    }
  }

  lemma {:induction false} OptionDecides(v: Env, i: nat, k: nat, ep: nat, caps: seq<Capture>)
    requires i <= |v.s| && k < ep < |v.p| && v.At(ep) == '?'
    ensures var r := Item(v, i, k, ep, caps);
      && (r.Found? ==> ItemLanguage(v, i, k, ep, caps, r))
      && (r.Fail? ==> forall t :: !ItemLanguage(v, i, k, ep, caps, t))
    decreases |v.p| - k, 0, 0
  {
    forall t
      ensures ItemLanguage(v, i, k, ep, caps, t) <==>
              InLanguage(v, i, ep + 1, caps, t) || (Single(v, i, k, ep) && InLanguage(v, i + 1, ep + 1, caps, t))
    {
      AtMostOnce(v, i, k, ep, caps, t);
    }
    hide InLanguageTimes, InLanguage, Single, ItemLanguage;
    if Single(v, i, k, ep) {
      InSubject(v, i, k, ep);
      MatchDecides(v, i + 1, ep + 1, caps);
    }
    MatchDecides(v, i, ep + 1, caps);
  }

  /** The language of an item, by the numbers of repetitions its suffix allows. */
  ghost predicate ItemLanguage(v: Env, i: nat, k: nat, ep: nat, caps: seq<Capture>, t: Outcome)
    requires k < ep <= |v.p| && i <= |v.s|
  {
    match v.At(ep)
    case '?' => InLanguageTimes(v, i, 0, k, ep, caps, t) || InLanguageTimes(v, i, 1, k, ep, caps, t)
    case '*' => exists n: nat :: InLanguageTimes(v, i, n, k, ep, caps, t)
    case '-' => exists n: nat :: InLanguageTimes(v, i, n, k, ep, caps, t)
    case '+' => exists n: nat :: n >= 1 && InLanguageTimes(v, i, n, k, ep, caps, t)
    case _ => Single(v, i, k, ep) && InLanguage(v, i + 1, ep, caps, t)
  }

  lemma InLanguageItem(v: Env, i: nat, k: nat, ep: nat, caps: seq<Capture>)
    requires i <= |v.s| && Ordinary(v, k) && ClassEnd(v, k) == Some(ep)
    ensures forall t :: InLanguage(v, i, k, caps, t) <==> ItemLanguage(v, i, k, ep, caps, t)
  {
    hide ClassEnd, Single, Special;
  }

  lemma TimesZero(v: Env, i: nat, k: nat, ep: nat, caps: seq<Capture>, t: Outcome)
    requires i <= |v.s| && k < ep <= |v.p|
    ensures InLanguageTimes(v, i, 0, k, ep, caps, t) <==> InLanguage(v, i, ep + 1, caps, t)
  {
    hide InLanguage;
  }

  lemma TimesNext(v: Env, i: nat, n: nat, k: nat, ep: nat, caps: seq<Capture>, t: Outcome)
    requires i < |v.s| && k < ep <= |v.p|
    ensures InLanguageTimes(v, i, n + 1, k, ep, caps, t) <==> Single(v, i, k, ep) && InLanguageTimes(v, i + 1, n, k, ep, caps, t)
  {
    RepeatsShift(v, i, n, k, ep);
    hide InLanguage, Single, Repeats;
    assert i + (n + 1) == (i + 1) + n;
  }

  lemma AtMostOnce(v: Env, i: nat, k: nat, ep: nat, caps: seq<Capture>, t: Outcome)
    requires i <= |v.s| && k < ep <= |v.p|
    ensures InLanguageTimes(v, i, 0, k, ep, caps, t) <==> InLanguage(v, i, ep + 1, caps, t)
    ensures InLanguageTimes(v, i, 1, k, ep, caps, t) <==> Single(v, i, k, ep) && InLanguage(v, i + 1, ep + 1, caps, t)
  {
    TimesZero(v, i, k, ep, caps, t);
    if i < |v.s| {
      TimesZero(v, i + 1, k, ep, caps, t);
      TimesNext(v, i, 0, k, ep, caps, t);
    }
  }

  lemma NeedsOne(v: Env, i: nat, k: nat, ep: nat, caps: seq<Capture>)
    requires i <= |v.s| && k < ep <= |v.p| && !Single(v, i, k, ep)
    ensures forall n: nat, t :: n >= 1 ==> !InLanguageTimes(v, i, n, k, ep, caps, t)
  {
    forall n: nat, t | n >= 1
      ensures !InLanguageTimes(v, i, n, k, ep, caps, t)
    {
      if i < |v.s| {
        TimesNext(v, i, n - 1, k, ep, caps, t);
      }
    }
  }

  /** No place in the subject behind lo, up to hi, leads to an end. */
  ghost predicate NoneBetween(v: Env, lo: int, hi: int, k: nat, caps: seq<Capture>) {
    forall y: nat, t :: lo < y <= hi ==> !InLanguage(v, y, k, caps, t)
  }

  /** n repetitions lead to t, and more do not lead to any end. */
  ghost predicate Longest(v: Env, i: nat, n: nat, k: nat, ep: nat, caps: seq<Capture>, t: Outcome)
    requires k < ep <= |v.p|
  {
    InLanguageTimes(v, i, n, k, ep, caps, t) && forall m: nat, x :: m > n ==> !InLanguageTimes(v, i, m, k, ep, caps, x)
  }

  /** n repetitions lead to t, and fewer do not lead to any end. */
  ghost predicate Shortest(v: Env, i: nat, n: nat, k: nat, ep: nat, caps: seq<Capture>, t: Outcome)
    requires k < ep <= |v.p|
  {
    InLanguageTimes(v, i, n, k, ep, caps, t) && forall m: nat, x :: m < n ==> !InLanguageTimes(v, i, m, k, ep, caps, x)
  }

  lemma {:induction false} MaxTries(v: Env, i: nat, n: nat, k: nat, caps: seq<Capture>)
    requires i + n <= |v.s|
    ensures var r := MaxExpand(v, i, n, k, caps);
      && (r.Found? ==> exists x :: i <= x <= i + n && InLanguage(v, x, k, caps, r) && NoneBetween(v, x, i + n, k, caps))
      && (r.Fail? ==> forall x, t :: i <= x <= i + n ==> !InLanguage(v, x, k, caps, t))
    decreases |v.p| - k, 3, n
  {
    hide InLanguage, Match;
    MatchDecides(v, i + n, k, caps);
    if Match(v, i + n, k, caps).Fail? && n > 0 {
      MaxTries(v, i, n - 1, k, caps);
    }
  }

  /** Greedy repetition finds an end if any number of repetitions from lo on leads to one. */
  lemma {:induction false} MaxDecides(v: Env, i: nat, lo: nat, n: nat, k: nat, ep: nat, caps: seq<Capture>)
    requires i <= |v.s| && k < ep < |v.p| && lo + n == Run(v, i, k, ep)
    ensures var r := MaxExpand(v, i + lo, n, ep + 1, caps);
      && (r.Found? ==> exists c: nat :: c >= lo && Longest(v, i, c, k, ep, caps, r))
      && (r.Fail? ==> forall c: nat, t :: c >= lo ==> !InLanguageTimes(v, i, c, k, ep, caps, t))
    decreases |v.p| - k, 0, 0
  {
    MaxTries(v, i + lo, n, ep + 1, caps);
    hide InLanguage, Match, MaxExpand, Single, Repeats;
    var r := MaxExpand(v, i + lo, n, ep + 1, caps);
    if r.Found? {
      var x :| i + lo <= x <= i + lo + n && InLanguage(v, x, ep + 1, caps, r) && NoneBetween(v, x, i + lo + n, ep + 1, caps);
      RunIs(v, i, k, ep, x - i);
      forall m: nat, t | m > x - i
        ensures !InLanguageTimes(v, i, m, k, ep, caps, t)
      {
        RunIs(v, i, k, ep, m);
        assert m <= lo + n ==> !InLanguage(v, i + m, ep + 1, caps, t);
      }
      assert Longest(v, i, x - i, k, ep, caps, r);
    }
    if r.Fail? {
      forall c: nat, t | c >= lo
        ensures !InLanguageTimes(v, i, c, k, ep, caps, t)
      {
        RunIs(v, i, k, ep, c);
        assert c <= lo + n ==> !InLanguage(v, i + c, ep + 1, caps, t);
      }
    }
  }

  lemma {:induction false} MinDecides(v: Env, i: nat, k: nat, ep: nat, caps: seq<Capture>)
    requires i <= |v.s| && k < ep < |v.p|
    ensures var r := MinExpand(v, i, k, ep, caps);
      && (r.Found? ==> exists n: nat :: Shortest(v, i, n, k, ep, caps, r))
      && (r.Fail? ==> forall n: nat, t :: !InLanguageTimes(v, i, n, k, ep, caps, t))
    decreases |v.p| - k, 0, |v.s| - i
  {
    hide InLanguage, Match, Single, InLanguageTimes;
    MatchDecides(v, i, ep + 1, caps);
    var r := MinExpand(v, i, k, ep, caps);
    if !Match(v, i, ep + 1, caps).Fail? {
      if r.Found? {
        TimesZero(v, i, k, ep, caps, r);
        assert Shortest(v, i, 0, k, ep, caps, r);
      }
    } else if Single(v, i, k, ep) {
      InSubject(v, i, k, ep);
      MinDecides(v, i + 1, k, ep, caps);
      if r.Found? {
        var n: nat :| Shortest(v, i + 1, n, k, ep, caps, r);
        TimesNext(v, i, n, k, ep, caps, r);
        forall m: nat, x | m < n + 1
          ensures !InLanguageTimes(v, i, m, k, ep, caps, x)
        {
          if m == 0 {
            TimesZero(v, i, k, ep, caps, x);
          } else {
            TimesNext(v, i, m - 1, k, ep, caps, x);
          }
        }
        assert Shortest(v, i, n + 1, k, ep, caps, r);
      }
      if r.Fail? {
        forall n: nat, t
          ensures !InLanguageTimes(v, i, n, k, ep, caps, t)
        {
          if n == 0 {
            TimesZero(v, i, k, ep, caps, t);
          } else {
            TimesNext(v, i, n - 1, k, ep, caps, t);
          }
        }
      }
    } else {
      NeedsOne(v, i, k, ep, caps);
      forall t
        ensures !InLanguageTimes(v, i, 0, k, ep, caps, t)
      {
        TimesZero(v, i, k, ep, caps, t);
      }
    }
  }

  lemma InSubject(v: Env, i: nat, k: nat, ep: nat)
    requires ep > 0 && Single(v, i, k, ep)
    ensures i < |v.s|
  {}

  // ---------- Order of the attempts ----------

  /** A star takes as many repetitions as the rest of the pattern allows. */
  lemma StarIsGreedy(v: Env, i: nat, k: nat, ep: nat, caps: seq<Capture>)
    requires i <= |v.s| && Ordinary(v, k) && ClassEnd(v, k) == Some(ep) && v.At(ep) == '*' && Match(v, i, k, caps).Found?
    ensures exists n: nat :: Longest(v, i, n, k, ep, caps, Match(v, i, k, caps))
  {
    MaxDecides(v, i, 0, Run(v, i, k, ep), k, ep, caps);
    assert Match(v, i, k, caps) == Item(v, i, k, ep, caps);
    hide Longest, ClassEnd, Run, MaxExpand;
  }

  /** A minus sign takes as few as the rest allows. */
  lemma MinusIsLazy(v: Env, i: nat, k: nat, ep: nat, caps: seq<Capture>)
    requires i <= |v.s| && Ordinary(v, k) && ClassEnd(v, k) == Some(ep) && v.At(ep) == '-' && Match(v, i, k, caps).Found?
    ensures exists n: nat :: Shortest(v, i, n, k, ep, caps, Match(v, i, k, caps))
  {
    MinDecides(v, i, k, ep, caps);
    assert Match(v, i, k, caps) == Item(v, i, k, ep, caps);
    hide Shortest, ClassEnd, MinExpand;
  }

  // ---------- Well-formed patterns ----------

  /** The captures so far, by whether they are closed. */
  type Shape = seq<bool>

  function LastOpen(shape: Shape): (l: int)
    ensures -1 <= l < |shape|
  {
    if shape == [] then -1 else if !shape[|shape|-1] then |shape| - 1 else LastOpen(shape[..|shape|-1])
  }

  /** Classes are complete, captures are closed only when open and referred to only when closed,
      and there are not too many. */
  predicate WellFormed(v: Env, k: nat, shape: Shape)
    decreases |v.p| - k
  {
    var c := v.At(k);
    if c == '(' then
      |shape| < MAXCAPTURES &&
      if v.At(k + 1) == ')' then WellFormed(v, k + 2, shape + [true]) else WellFormed(v, k + 1, shape + [false])
    else if c == ')' then LastOpen(shape) >= 0 && WellFormed(v, k + 1, shape[LastOpen(shape) := true])
    else if Special(v, k) then
      if v.At(k + 1) == 'b' then v.At(k + 2) != '\0' && v.At(k + 3) != '\0' && WellFormed(v, k + 4, shape)
      else if v.At(k + 1) == 'f' then
        v.At(k + 2) == '[' && ClassEnd(v, k + 2).Some? && WellFormed(v, ClassEnd(v, k + 2).value, shape)
      else
        var l := Index(v.At(k + 1));
        0 <= l < |shape| && shape[l] && WellFormed(v, k + 2, shape)
    else if c == '\0' || (c == '$' && v.At(k + 1) == '\0') then true
    else
      ClassEnd(v, k).Some? &&
      var ep := ClassEnd(v, k).value;
      WellFormed(v, if Repeated(v.At(ep)) then ep + 1 else ep, shape)
  }

  function ShapeOf(caps: seq<Capture>): (shape: Shape)
    ensures |shape| == |caps| && forall j :: 0 <= j < |caps| ==> shape[j] == (caps[j].len != UNFINISHED)
  {
    seq(|caps|, j requires 0 <= j < |caps| => caps[j].len != UNFINISHED)
  }

  /** The capture to close is the last one that is open, and closing it changes no other. */
  lemma {:induction false} CloseOne(caps: seq<Capture>, len: int)
    requires len != UNFINISHED
    ensures ToClose(caps) == LastOpen(ShapeOf(caps))
    ensures var l := ToClose(caps); l >= 0 ==> ShapeOf(caps[l := caps[l].(len := len)]) == ShapeOf(caps)[l := true]
    decreases |caps|
  {
    if caps != [] {
      var most := caps[..|caps|-1];
      assert ShapeOf(caps)[..|caps|-1] == ShapeOf(most);
      CloseOne(most, len);
    }
  }

  // ---------- Captures lie inside the match ----------

  ghost predicate CapsIn(caps: seq<Capture>, e: nat) {
    forall j :: 0 <= j < |caps| ==> caps[j].init <= e && -2 <= caps[j].len && caps[j].init + caps[j].len <= e
  }

  /** Captures are only added, and a closed one stays as it is. */
  ghost predicate Grown(a: seq<Capture>, b: seq<Capture>) {
    |a| <= |b| && forall j :: 0 <= j < |a| ==> b[j].init == a[j].init && (a[j].len != UNFINISHED ==> b[j] == a[j])
  }

  /** From a sound beginning: an error only in a pattern that is not well-formed, and at the end
      every capture is inside the subject matched so far. */
  ghost predicate Good(v: Env, i: nat, k: nat, caps: seq<Capture>, r: Outcome) {
    && (r.Found? ==> i <= r.e <= |v.s| && CapsIn(r.caps, r.e) && Grown(caps, r.caps))
    && (WellFormed(v, k, ShapeOf(caps)) ==> !r.Error?)
  }

  lemma {:induction false} MatchGood(v: Env, i: nat, k: nat, caps: seq<Capture>)
    requires i <= |v.s| && CapsIn(caps, i)
    ensures Good(v, i, k, caps, Match(v, i, k, caps))
    decreases |v.p| - k, 2, 0
  {
    var c := v.At(k);
    if c == '(' {
      if v.At(k + 1) == ')' {
        StartGood(v, i, k + 2, caps, POSITION);
      } else {
        StartGood(v, i, k + 1, caps, UNFINISHED);
      }
    } else if c == ')' {
      EndGood(v, i, k + 1, caps);
    } else if Special(v, k) {
      SpecialGood(v, i, k, caps);
    } else if Ordinary(v, k) && ClassEnd(v, k).Some? {
      ItemGood(v, i, k, ClassEnd(v, k).value, caps);
    }
  }

  lemma EscapeGood(v: Env, i: nat, k: nat, caps: seq<Capture>)
    requires i <= |v.s| && Special(v, k) && WellFormed(v, k, ShapeOf(caps))
    ensures var s := Escape(v, i, k, caps); !s.Bad? && (s.Go? ==> WellFormed(v, s.k, ShapeOf(caps)))
  {
    hide ClassEnd, Balance, Frontier, SameText;
  }

  lemma {:induction false} SpecialGood(v: Env, i: nat, k: nat, caps: seq<Capture>)
    requires i <= |v.s| && CapsIn(caps, i) && Special(v, k)
    ensures Good(v, i, k, caps, Match(v, i, k, caps))
    decreases |v.p| - k, 1, 0
  {
    var s := Escape(v, i, k, caps);
    assert Match(v, i, k, caps) == match s case Go(i1, k1) => Match(v, i1, k1, caps) case NoMatch => Fail case Bad => Error;
    hide Match, Escape, Special, WellFormed, CapsIn, ShapeOf;
    if WellFormed(v, k, ShapeOf(caps)) {
      EscapeGood(v, i, k, caps);
    }
    if s.Go? {
      CapsGrow(caps, i);
      MatchGood(v, s.i, s.k, caps);
    }
  }

  lemma {:induction false} StartGood(v: Env, i: nat, k: nat, caps: seq<Capture>, what: int)
    requires i <= |v.s| && CapsIn(caps, i) && (what == POSITION || what == UNFINISHED)
    ensures var r := Start(v, i, k, caps, what);
      && (r.Found? ==> i <= r.e <= |v.s| && CapsIn(r.caps, r.e) && Grown(caps, r.caps))
      && (|caps| < MAXCAPTURES && WellFormed(v, k, ShapeOf(caps) + [what != UNFINISHED]) ==> !r.Error?)
    decreases |v.p| - k, 3, 0
  {
    if |caps| < MAXCAPTURES {
      var more := caps + [Capture(i, what)];
      assert ShapeOf(more) == ShapeOf(caps) + [what != UNFINISHED];
      MatchGood(v, i, k, more);
      hide Match, WellFormed;
    }
  }

  lemma {:induction false} EndGood(v: Env, i: nat, k: nat, caps: seq<Capture>)
    requires i <= |v.s| && CapsIn(caps, i)
    ensures var r := End(v, i, k, caps);
      && (r.Found? ==> i <= r.e <= |v.s| && CapsIn(r.caps, r.e) && Grown(caps, r.caps))
      && (var l := LastOpen(ShapeOf(caps)); l >= 0 && WellFormed(v, k, ShapeOf(caps)[l := true]) ==> !r.Error?)
    decreases |v.p| - k, 3, 0
  {
    var l := ToClose(caps);
    if l >= 0 {
      CloseOne(caps, i - caps[l].init);
      MatchGood(v, i, k, caps[l := caps[l].(len := i - caps[l].init)]);
      hide Match, WellFormed, ShapeOf;
    } else {
      CloseOne(caps, 0);
    }
  }

  lemma {:induction false} ItemGood(v: Env, i: nat, k: nat, ep: nat, caps: seq<Capture>)
    requires i <= |v.s| && CapsIn(caps, i) && Ordinary(v, k) && ClassEnd(v, k) == Some(ep)
    ensures Good(v, i, k, caps, Item(v, i, k, ep, caps))
    decreases |v.p| - k, 1, 0
  {
    var next := if Repeated(v.At(ep)) then ep + 1 else ep;
    assert WellFormed(v, k, ShapeOf(caps)) ==> WellFormed(v, next, ShapeOf(caps));
    hide WellFormed, Single, ClassEnd, Ordinary, ShapeOf, Match, CapsIn, Run;
    if Single(v, i, k, ep) {
      InSubject(v, i, k, ep);
      CapsGrow(caps, i);
      RunFrom(v, i, k, ep);
      if v.At(ep) == '+' {
        MaxGood(v, i + 1, Run(v, i + 1, k, ep), next, caps);
      } else {
        MatchGood(v, i + 1, next, caps);
      }
    }
    if v.At(ep) == '*' {
      MaxGood(v, i, Run(v, i, k, ep), next, caps);
    } else if v.At(ep) == '-' {
      MinGood(v, i, k, ep, caps);
    } else if v.At(ep) == '?' {
      MatchGood(v, i, next, caps);
    }
  }

  lemma CapsGrow(caps: seq<Capture>, i: nat)
    requires CapsIn(caps, i)
    ensures forall j: nat :: j >= i ==> CapsIn(caps, j)
  {}

  lemma {:induction false} MaxGood(v: Env, i: nat, n: nat, k: nat, caps: seq<Capture>)
    requires i + n <= |v.s| && CapsIn(caps, i)
    ensures Good(v, i, k, caps, MaxExpand(v, i, n, k, caps))
    decreases |v.p| - k, 3, n
  {
    CapsGrow(caps, i);
    hide CapsIn, WellFormed, Match, ShapeOf;
    MatchGood(v, i + n, k, caps);
    if n > 0 {
      MaxGood(v, i, n - 1, k, caps);
    }
  }

  lemma {:induction false} MinGood(v: Env, i: nat, k: nat, ep: nat, caps: seq<Capture>)
    requires i <= |v.s| && CapsIn(caps, i) && k < ep < |v.p|
    ensures Good(v, i, ep + 1, caps, MinExpand(v, i, k, ep, caps))
    decreases |v.p| - k, 0, |v.s| - i
  {
    CapsGrow(caps, i);
    hide CapsIn, WellFormed, Match, ShapeOf, Single;
    MatchGood(v, i, ep + 1, caps);
    if Single(v, i, k, ep) {
      InSubject(v, i, k, ep);
      MinGood(v, i + 1, k, ep, caps);
    }
  }

  /** In a well-formed pattern the matcher decides whether some part of the subject from i on
      is in the language. */
  lemma WellFormedDecides(v: Env, i: nat, k: nat)
    requires i <= |v.s| && WellFormed(v, k, [])
    ensures var r := Match(v, i, k, []);
      && (r.Found? <==> exists t :: InLanguage(v, i, k, [], t))
      && (r.Found? ==> InLanguage(v, i, k, [], r) && i <= r.e <= |v.s| && CapsIn(r.caps, r.e))
  {
    var none: seq<Capture> := [];
    assert ShapeOf(none) == [];
    MatchDecides(v, i, k, none);
    MatchGood(v, i, k, none);
    hide Match, InLanguage, WellFormed;
    var r := Match(v, i, k, none);
    assert !r.Error?;
    assert r.Fail? ==> forall t :: !InLanguage(v, i, k, none, t);
    assert r.Found? ==> InLanguage(v, i, k, none, r);
  }
}
