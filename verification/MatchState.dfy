/** The matcher as it runs: one level counter and one array of captures, changed while
    going forward and put back when an attempt fails. */
module MatchStateObject {
  import opened Options
  import opened PatternMatch
  import opened PatternOrder

  datatype Result = Hit(e: nat) | Miss | Raised

  /** The result of a call that began with the captures before, and the captures it left. */
  ghost predicate Agrees(r: Outcome, res: Result, before: seq<Capture>, after: seq<Capture>) {
    match res
    case Hit(e) => r == Found(e, after)
    case Miss => r.Fail? && after == before
    case Raised => r.Error?
  }

  // ---------- Loops over the pattern ----------

  /** classend. */
  method FindClassEnd(v: Env, k: nat) returns (r: Option<nat>)
    requires v.At(k) != '\0'
    ensures r == ClassEnd(v, k)
  {
    var p := k + 1;
    if v.At(k) == ESC {
      if v.At(p) == '\0' {
        return None;
      }
      return Some(p + 1);
    } else if v.At(k) == '[' {
      if v.At(p) == '^' {
        p := p + 1;
      }
      ghost var p0 := p;
      if v.At(p) == '\0' {
        return None;
      }
      p := if v.At(p) == ESC && v.At(p + 1) != '\0' then p + 2 else p + 1;
      while v.At(p) != ']'
        invariant SetEnd(v, p0) == if v.At(p) == ']' then Some(p + 1) else SetEnd(v, p)
        decreases |v.p| - p
      {
        if v.At(p) == '\0' {
          return None;
        }
        p := if v.At(p) == ESC && v.At(p + 1) != '\0' then p + 2 else p + 1;
      }
      return Some(p + 1);
    }
    return Some(p);
  }

  /** matchbracketclass. */
  method MatchBracketClass(v: Env, c: char, k: nat, ec: nat) returns (b: bool)
    ensures b == InBrackets(v, c, k, ec)
  {
    var sig, p := true, k + 1;
    if v.At(p) == '^' {
      sig, p := false, p + 1;
    }
    ghost var p0 := p;
    while p < ec
      invariant InSet(v, c, p0, ec) == InSet(v, c, p, ec)
      decreases ec - p
    {
      if v.At(p) == ESC {
        if v.cls(c, v.At(p + 1)) {
          return sig;
        }
        p := p + 2;
      } else if v.At(p + 1) == '-' && p + 2 < ec {
        if v.At(p) <= c <= v.At(p + 2) {
          return sig;
        }
        p := p + 3;
      } else {
        if v.At(p) == c {
          return sig;
        }
        p := p + 1;
      }
    }
    return !sig;
  }

  /** singlematch, with the test for the end of the subject. */
  method SingleMatch(v: Env, i: nat, k: nat, ep: nat) returns (b: bool)
    requires ep > 0
    ensures b == Single(v, i, k, ep)
  {
    if i >= |v.s| {
      return false;
    }
    if v.At(k) == '.' {
      return true;
    } else if v.At(k) == ESC {
      return v.cls(v.s[i], v.At(k + 1));
    } else if v.At(k) == '[' {
      b := MatchBracketClass(v, v.s[i], k, ep - 1);
    } else {
      return v.At(k) == v.s[i];
    }
  }

  /** matchbalance. */
  method MatchBalance(v: Env, i: nat, k: nat, ghost caps: seq<Capture>) returns (r: Step)
    requires i <= |v.s| && Special(v, k) && v.At(k + 1) == 'b'
    ensures r == Escape(v, i, k, caps)
  {
    if v.At(k + 2) == '\0' || v.At(k + 3) == '\0' {
      return Bad;
    }
    if v.Char(i) != v.At(k + 2) {
      return NoMatch;
    }
    var b, e := v.At(k + 2), v.At(k + 3);
    var cont := 1;
    var s := i + 1;
    while s < |v.s|
      invariant cont > 0 && i < s <= |v.s| && Balance(v, i + 1, 1, b, e) == Balance(v, s, cont, b, e)
    {
      if v.s[s] == e {
        cont := cont - 1;
        if cont == 0 {
          return Go(s + 1, k + 4);
        }
      } else if v.s[s] == b {
        cont := cont + 1;
      }
      s := s + 1;
    }
    return NoMatch;
  }

  /** The case %f of match. */
  method MatchFrontier(v: Env, i: nat, k: nat, ghost caps: seq<Capture>) returns (r: Step)
    requires i <= |v.s| && Special(v, k) && v.At(k + 1) == 'f'
    ensures r == Escape(v, i, k, caps)
  {
    hide ClassEnd, InBrackets;
    if v.At(k + 2) != '[' {
      return Bad;
    }
    var end := FindClassEnd(v, k + 2);
    if end.None? {
      return Bad;
    }
    var ep := end.value;
    var previous := if i == 0 then '\0' else v.s[i-1];
    var before := MatchBracketClass(v, previous, k + 2, ep - 1);
    if before {
      return NoMatch;
    }
    var here := MatchBracketClass(v, v.Char(i), k + 2, ep - 1);
    return if here then Go(i, ep) else NoMatch;
  }

  class MatchState {
    const v: Env
    const capture: array<Capture>
    var level: nat

    ghost predicate Valid()
      reads this
    {
      capture.Length == MAXCAPTURES && level <= MAXCAPTURES
    }

    ghost function Caps(): seq<Capture>
      requires Valid()
      reads this, capture
    {
      capture[..level]
    }

    constructor (e: Env)
      ensures Valid() && v == e && level == 0 && fresh(capture)
    {
      v, capture, level := e, new Capture[MAXCAPTURES](_ => Capture(0, UNFINISHED)), 0;
    }

    /** capture_to_close. */
    method CaptureToClose() returns (l: int)
      requires Valid()
      ensures l == ToClose(Caps())
    {
      l := level - 1;
      while l >= 0
        invariant -1 <= l < level
        invariant ToClose(Caps()) == ToClose(capture[..l + 1])
      {
        assert capture[..l + 1][..l] == capture[..l];
        if capture[l].len == UNFINISHED {
          return;
        }
        l := l - 1;
      }
    }

    /** start_capture. */
    method StartCapture(i: nat, k: nat, what: int) returns (r: Result)
      requires Valid() && i <= |v.s|
      modifies this, capture
      ensures Valid() && Agrees(Start(v, i, k, old(Caps()), what), r, old(Caps()), Caps())
      decreases |v.p| - k, 3, 0
    {
      if level >= MAXCAPTURES {
        return Raised;
      }
      ghost var before := Caps();
      capture[level] := Capture(i, what);
      level := level + 1;
      assert Caps() == before + [Capture(i, what)];
      r := DoMatch(i, k);
      if r == Miss {
        level := level - 1;
        assert Caps() == (before + [Capture(i, what)])[..level] == before;
      }
    }

    /** end_capture. */
    method EndCapture(i: nat, k: nat) returns (r: Result)
      requires Valid() && i <= |v.s|
      modifies this, capture
      ensures Valid() && Agrees(End(v, i, k, old(Caps())), r, old(Caps()), Caps())
      decreases |v.p| - k, 3, 0
    {
      var l := CaptureToClose();
      if l < 0 {
        return Raised;
      }
      ghost var before := Caps();
      capture[l] := capture[l].(len := i - capture[l].init);
      ghost var closed := Caps();
      assert closed == before[l := before[l].(len := i - before[l].init)];
      r := DoMatch(i, k);
      if r == Miss {
        assert capture[..level][l] == closed[l];
        capture[l] := capture[l].(len := UNFINISHED);
        assert Caps() == closed[l := closed[l].(len := UNFINISHED)] == before;
      }
    }

    /** max_expand: counts how often the class matches, then gives back one at a time. */
    method DoMaxExpand(i: nat, k: nat, ep: nat) returns (r: Result)
      requires Valid() && i <= |v.s| && k < ep < |v.p|
      modifies this, capture
      ensures Valid() && Agrees(MaxExpand(v, i, Run(v, i, k, ep), ep + 1, old(Caps())), r, old(Caps()), Caps())
      decreases |v.p| - k, 0, 0
    {
      hide Match, Single;
      ghost var before := Caps();
      var n: int := 0;
      var m := SingleMatch(v, i, k, ep);
      while m
        invariant 0 <= n && i + n <= |v.s| && Valid() && Caps() == before && m == Single(v, i + n, k, ep)
        invariant n + Run(v, i + n, k, ep) == Run(v, i, k, ep)
        decreases |v.s| - i - n
      {
        InSubject(v, i + n, k, ep);
        n := n + 1;
        m := SingleMatch(v, i + n, k, ep);
      }
      ghost var n0: nat := n;
      while n >= 0
        invariant -1 <= n <= n0 && i + n <= |v.s| && Valid() && Caps() == before
        invariant n >= 0 ==> MaxExpand(v, i, n0, ep + 1, before) == MaxExpand(v, i, n, ep + 1, before)
        invariant n < 0 ==> MaxExpand(v, i, n0, ep + 1, before).Fail?
        decreases n
      {
        r := DoMatch(i + n, ep + 1);
        if r != Miss {
          return;
        }
        n := n - 1;
      }
      return Miss;
    }

    /** min_expand: one more repetition at a time. */
    method DoMinExpand(i0: nat, k: nat, ep: nat) returns (r: Result)
      requires Valid() && i0 <= |v.s| && k < ep < |v.p|
      modifies this, capture
      ensures Valid() && Agrees(MinExpand(v, i0, k, ep, old(Caps())), r, old(Caps()), Caps())
      decreases |v.p| - k, 0, 0
    {
      hide Match, Single;
      ghost var before := Caps();
      var i := i0;
      while true
        invariant i <= |v.s| && Valid() && Caps() == before
        invariant MinExpand(v, i0, k, ep, before) == MinExpand(v, i, k, ep, before)
        decreases |v.s| - i
      {
        r := DoMatch(i, ep + 1);
        if r != Miss {
          return;
        }
        var m := SingleMatch(v, i, k, ep);
        if !m {
          return;
        }
        InSubject(v, i, k, ep);
        i := i + 1;
      }
    }

    /** match_capture. */
    method MatchCapture(i: nat, k: nat) returns (r: Step)
      requires Valid() && i <= |v.s| && Special(v, k) && Digit(v.At(k + 1))
      ensures r == Escape(v, i, k, Caps())
    {
      var l := Index(v.At(k + 1));
      if l < 0 || l >= level || capture[l].len == UNFINISHED {
        return Bad;
      }
      return if SameText(v, i, capture[l]) then Go(i + capture[l].len, k + 2) else NoMatch;
    }

    /** match: the rest of the pattern is done by going round, without a call. */
    method DoMatch(i0: nat, k0: nat) returns (r: Result)
      requires Valid() && i0 <= |v.s|
      modifies this, capture
      ensures Valid() && Agrees(Match(v, i0, k0, old(Caps())), r, old(Caps()), Caps())
      decreases |v.p| - k0, 2, 0
    {
      hide Single, ClassEnd, Start, End, MaxExpand, MinExpand, Escape;
      ghost var before := Caps();
      var i: nat, k: nat := i0, k0;
      while true
        invariant i <= |v.s| && k0 <= k && Valid() && Caps() == before
        invariant Match(v, i0, k0, before) == Match(v, i, k, before)
        decreases |v.p| - k
      {
        var c := v.At(k);
        if c == '(' {
          if v.At(k + 1) == ')' {
            r := StartCapture(i, k + 2, POSITION);
          } else {
            r := StartCapture(i, k + 1, UNFINISHED);
          }
          return;
        } else if c == ')' {
          r := EndCapture(i, k + 1);
          return;
        } else if Special(v, k) {
          var step: Step;
          if v.At(k + 1) == 'b' {
            step := MatchBalance(v, i, k, before);
          } else if v.At(k + 1) == 'f' {
            step := MatchFrontier(v, i, k, before);
          } else {
            step := MatchCapture(i, k);
          }
          if step.Bad? {
            return Raised;
          } else if step.NoMatch? {
            return Miss;
          }
          i, k := step.i, step.k;
          continue;
        } else if c == '\0' {
          return Hit(i);
        } else if c == '$' && v.At(k + 1) == '\0' {
          return if i == |v.s| then Hit(i) else Miss;
        }
        var end := FindClassEnd(v, k);
        if end.None? {
          return Raised;
        }
        var ep := end.value;
        var m := SingleMatch(v, i, k, ep);
        if m {
          InSubject(v, i, k, ep);
        }
        if v.At(ep) == '?' {
          if m {
            r := DoMatch(i + 1, ep + 1);
            if r != Miss {
              return;
            }
          }
          k := ep + 1;
        } else if v.At(ep) == '*' {
          r := DoMaxExpand(i, k, ep);
          return;
        } else if v.At(ep) == '+' {
          if !m {
            return Miss;
          }
          r := DoMaxExpand(i + 1, k, ep);
          return;
        } else if v.At(ep) == '-' {
          r := DoMinExpand(i, k, ep);
          return;
        } else {
          if !m {
            return Miss;
          }
          i, k := i + 1, ep;
        }
      }
    }

    /** The loop of str_find_aux: the first place from init on where the pattern matches; with
        a leading ^ only the first place is tried. */
    method Find(init: nat) returns (r: Result, start: nat)
      requires Valid() && init <= |v.s|
      modifies this, capture
      ensures Valid() && init <= start <= |v.s| && (Anchored(v) ==> start == init)
      ensures WellFormed(v, First(v), []) ==> r != Raised
      ensures r.Hit? ==> InLanguage(v, start, First(v), [], Found(r.e, Caps())) && CapsIn(Caps(), r.e)
      ensures r.Hit? ==> Nowhere(v, init, start)
      ensures r.Hit? ==> exists ns :: Preferred(v, start, First(v), [], ns, Found(r.e, Caps()))
      ensures r == Miss ==> Nowhere(v, init, if Anchored(v) then init + 1 else |v.s| + 1)
    {
      hide Match, InLanguage, WellFormed, Preferred;
      start := init;
      while true
        invariant init <= start <= |v.s| && Valid() && Nowhere(v, init, start) && (Anchored(v) ==> start == init)
        decreases |v.s| - start
      {
        level := 0;
        r := DoMatch(start, First(v));
        Tried(v, start);
        if r != Miss {
          return;
        }
        if start == |v.s| || Anchored(v) {
          return;
        }
        start := start + 1;
      }
    }
  }

  predicate Anchored(v: Env): (anchored: bool)
    ensures anchored <==> v.p != "" && v.p[0] == '^'
  {
    v.At(0) == '^'
  }

  /** Where the pattern begins, behind the anchor. */
  function First(v: Env): (k: nat)
    ensures k <= |v.p| && (v.p != "" ==> v.p[..k] == if v.p[0] == '^' then "^" else "")
  {
    if Anchored(v) then 1 else 0
  }

  /** No part of the subject that begins from a on, before b, is in the language. */
  ghost predicate Nowhere(v: Env, a: nat, b: nat) {
    forall x: nat, t :: a <= x < b ==> !InLanguage(v, x, First(v), [], t)
  }

  lemma Tried(v: Env, i: nat)
    requires i <= |v.s|
    ensures var r := Match(v, i, First(v), []);
      && (r.Found? ==> InLanguage(v, i, First(v), [], r) && CapsIn(r.caps, r.e))
      && (r.Found? ==> exists ns :: Preferred(v, i, First(v), [], ns, r))
      && (r.Fail? ==> forall t :: !InLanguage(v, i, First(v), [], t))
      && (WellFormed(v, First(v), []) ==> !r.Error?)
  {
    var none: seq<Capture> := [];
    assert ShapeOf(none) == [];
    MatchDecides(v, i, First(v), none);
    MatchGood(v, i, First(v), none);
    hide Match, InLanguage, WellFormed, Preferred;
    if Match(v, i, First(v), none).Found? {
      var ns := MatchPrefers(v, i, First(v), none);
    }
  }
}
