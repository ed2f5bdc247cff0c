/** Which end the matcher finds: of all ways to match a pattern the one that comes first in the
    order of section 5.4.1 of the Lua 5.1 reference manual. */
module PatternOrder {
  import opened Options
  import opened PatternMatch

  // ---------- Ways to match ----------

  /** The suffixes of the repeated classes of the pattern from k on. */
  function Suffixes(v: Env, k: nat): seq<char>
    decreases |v.p| - k
  {
    var c := v.At(k);
    if c == '(' then if v.At(k + 1) == ')' then Suffixes(v, k + 2) else Suffixes(v, k + 1)
    else if c == ')' then Suffixes(v, k + 1)
    else if Special(v, k) then
      if v.At(k + 1) == 'b' then Suffixes(v, k + 4)
      else if v.At(k + 1) != 'f' then Suffixes(v, k + 2)
      else if v.At(k + 2) == '[' && ClassEnd(v, k + 2).Some? then Suffixes(v, ClassEnd(v, k + 2).value)
      else []
    else if c == '\0' || (c == '$' && v.At(k + 1) == '\0') || ClassEnd(v, k).None? then []
    else
      var ep := ClassEnd(v, k).value;
      if Repeated(v.At(ep)) then [v.At(ep)] + Suffixes(v, ep + 1) else Suffixes(v, ep)
  }

  /** How often a suffix lets its class occur. */
  predicate Allowed(suffix: char, n: nat) { (suffix == '?' ==> n <= 1) && (suffix == '+' ==> n >= 1) }

  /** With these numbers of repetitions, one for each suffix, the match from i on ends as t says. */
  ghost predicate Derives(v: Env, i: nat, k: nat, caps: seq<Capture>, ns: seq<nat>, t: Outcome)
    decreases |v.p| - k
  {
    i <= |v.s| &&
    var c := v.At(k);
    if c == '(' then
      if v.At(k + 1) == ')' then Derives(v, i, k + 2, caps + [Capture(i, POSITION)], ns, t)
      else Derives(v, i, k + 1, caps + [Capture(i, UNFINISHED)], ns, t)
    else if c == ')' then
      var l := ToClose(caps);
      l >= 0 && Derives(v, i, k + 1, caps[l := caps[l].(len := i - caps[l].init)], ns, t)
    else if Special(v, k) then
      if v.At(k + 1) == 'b' then
        exists e: nat :: BalancedAt(v, i, e, k) && Derives(v, e, k + 4, caps, ns, t)
      else if v.At(k + 1) == 'f' then
        v.At(k + 2) == '[' && ClassEnd(v, k + 2).Some? &&
        Frontier(v, i, k + 2, ClassEnd(v, k + 2).value) && Derives(v, i, ClassEnd(v, k + 2).value, caps, ns, t)
      else
        var l := Index(v.At(k + 1));
        0 <= l < |caps| && SameText(v, i, caps[l]) && Derives(v, i + caps[l].len, k + 2, caps, ns, t)
    else if c == '\0' then ns == [] && t == Found(i, caps)
    else if c == '$' && v.At(k + 1) == '\0' then ns == [] && i == |v.s| && t == Found(i, caps)
    else if ClassEnd(v, k).None? then false
    else
      var ep := ClassEnd(v, k).value;
      if Repeated(v.At(ep)) then
        && ns != [] && Allowed(v.At(ep), ns[0]) && Repeats(v, i, ns[0], k, ep)
        && Derives(v, i + ns[0], ep + 1, caps, ns[1..], t)
      else Single(v, i, k, ep) && Derives(v, i + 1, ep, caps, ns, t)
  }

  /** At the first difference the number that the suffix prefers: the smaller one for a minus
      sign, else the greater one. */
  ghost predicate Sooner(suffixes: seq<char>, a: seq<nat>, b: seq<nat>) {
    exists j :: 0 <= j < |suffixes| && j < |a| && j < |b| && a[..j] == b[..j] && Better(suffixes[j], a[j], b[j])
  }

  predicate Better(suffix: char, m: nat, n: nat) { if suffix == '-' then m < n else m > n }

  /** Of all ways to match these numbers of repetitions come first. */
  ghost predicate Preferred(v: Env, i: nat, k: nat, caps: seq<Capture>, ns: seq<nat>, t: Outcome) {
    Derives(v, i, k, caps, ns, t) &&
    forall ms, x :: Derives(v, i, k, caps, ms, x) ==> (ms == ns && x == t) || Sooner(Suffixes(v, k), ns, ms)
  }

  // ---------- The ways to match and the language ----------

  /** Behind the class: the numbers for the rest. */
  lemma DerivesItem(v: Env, i: nat, k: nat, ep: nat, caps: seq<Capture>, ns: seq<nat>, t: Outcome)
    requires i <= |v.s| && Ordinary(v, k) && ClassEnd(v, k) == Some(ep)
    ensures Derives(v, i, k, caps, ns, t) <==>
            if Repeated(v.At(ep)) then
              && ns != [] && Allowed(v.At(ep), ns[0]) && Repeats(v, i, ns[0], k, ep)
              && Derives(v, i + ns[0], ep + 1, caps, ns[1..], t)
            else Single(v, i, k, ep) && Derives(v, i + 1, ep, caps, ns, t)
  {
    hide ClassEnd, Single, Special, Repeats;
  }

  lemma DerivesInside(v: Env, i: nat, k: nat, caps: seq<Capture>, ns: seq<nat>, t: Outcome)
    requires Derives(v, i, k, caps, ns, t)
    ensures i <= |v.s|
  {}

  /** Every way to match ends in the language. */
  lemma {:induction false} DerivesIn(v: Env, i: nat, k: nat, caps: seq<Capture>, ns: seq<nat>, t: Outcome)
    requires Derives(v, i, k, caps, ns, t)
    ensures InLanguage(v, i, k, caps, t)
    decreases |v.p| - k, 1
  {
    var c := v.At(k);
    if c == '(' {
      if v.At(k + 1) == ')' {
        DerivesIn(v, i, k + 2, caps + [Capture(i, POSITION)], ns, t);
      } else {
        DerivesIn(v, i, k + 1, caps + [Capture(i, UNFINISHED)], ns, t);
      }
    } else if c == ')' {
      var l := ToClose(caps);
      DerivesIn(v, i, k + 1, caps[l := caps[l].(len := i - caps[l].init)], ns, t);
    } else if Special(v, k) {
      EscapeDerives(v, i, k, caps, ns, t);
      EscapeDecides(v, i, k, caps, t);
      hide Derives, InLanguage, Special;
      var s := Escape(v, i, k, caps);
      DerivesIn(v, s.i, s.k, caps, ns, t);
    } else if Ordinary(v, k) && ClassEnd(v, k).Some? {
      ItemIn(v, i, k, ClassEnd(v, k).value, caps, ns, t);
    }
  }

  lemma {:induction false} ItemIn(v: Env, i: nat, k: nat, ep: nat, caps: seq<Capture>, ns: seq<nat>, t: Outcome)
    requires Ordinary(v, k) && ClassEnd(v, k) == Some(ep) && Derives(v, i, k, caps, ns, t)
    ensures InLanguage(v, i, k, caps, t)
    decreases |v.p| - k, 0
  {
    DerivesInside(v, i, k, caps, ns, t);
    hide Derives, InLanguage, Ordinary, ClassEnd, Single, Repeats, InLanguageTimes;
    DerivesItem(v, i, k, ep, caps, ns, t);
    InLanguageItem(v, i, k, ep, caps);
    if Repeated(v.At(ep)) {
      DerivesInside(v, i + ns[0], ep + 1, caps, ns[1..], t);
      DerivesIn(v, i + ns[0], ep + 1, caps, ns[1..], t);
      PartsTimes(v, i, ns[0], k, ep, caps, t);
    } else {
      DerivesIn(v, i + 1, ep, caps, ns, t);
    }
  }

  /** Every end in the language is reached by some way to match. */
  lemma {:induction false} InDerives(v: Env, i: nat, k: nat, caps: seq<Capture>, t: Outcome) returns (ns: seq<nat>)
    requires InLanguage(v, i, k, caps, t)
    ensures Derives(v, i, k, caps, ns, t)
    decreases |v.p| - k, 1
  {
    var c := v.At(k);
    if c == '(' {
      if v.At(k + 1) == ')' {
        ns := InDerives(v, i, k + 2, caps + [Capture(i, POSITION)], t);
      } else {
        ns := InDerives(v, i, k + 1, caps + [Capture(i, UNFINISHED)], t);
      }
    } else if c == ')' {
      var l := ToClose(caps);
      ns := InDerives(v, i, k + 1, caps[l := caps[l].(len := i - caps[l].init)], t);
    } else if Special(v, k) {
      EscapeDecides(v, i, k, caps, t);
      hide Derives, InLanguage, Special;
      var s := Escape(v, i, k, caps);
      ns := InDerives(v, s.i, s.k, caps, t);
      EscapeDerives(v, i, k, caps, ns, t);
    } else if Ordinary(v, k) && ClassEnd(v, k).Some? {
      ns := InItem(v, i, k, ClassEnd(v, k).value, caps, t);
    } else {
      ns := [];
    }
  }

  lemma PartsTimes(v: Env, i: nat, n: nat, k: nat, ep: nat, caps: seq<Capture>, t: Outcome)
    requires k < ep <= |v.p| && Repeats(v, i, n, k, ep) && i + n <= |v.s| && InLanguage(v, i + n, ep + 1, caps, t)
    ensures InLanguageTimes(v, i, n, k, ep, caps, t)
  {
    hide InLanguage;
  }

  lemma TimesParts(v: Env, i: nat, n: nat, k: nat, ep: nat, caps: seq<Capture>, t: Outcome)
    requires k < ep <= |v.p| && InLanguageTimes(v, i, n, k, ep, caps, t)
    ensures Repeats(v, i, n, k, ep) && InLanguage(v, i + n, ep + 1, caps, t)
  {
    hide InLanguage;
  }

  lemma {:induction false} InItem(v: Env, i: nat, k: nat, ep: nat, caps: seq<Capture>, t: Outcome) returns (ns: seq<nat>)
    requires i <= |v.s| && Ordinary(v, k) && ClassEnd(v, k) == Some(ep) && InLanguage(v, i, k, caps, t)
    ensures Derives(v, i, k, caps, ns, t)
    decreases |v.p| - k, 0
  {
    InLanguageItem(v, i, k, ep, caps);
    hide Derives, InLanguage, Ordinary, ClassEnd, Single, Repeats;
    if Repeated(v.At(ep)) {
      var n: nat :| Allowed(v.At(ep), n) && InLanguageTimes(v, i, n, k, ep, caps, t);
      TimesParts(v, i, n, k, ep, caps, t);
      var rest := InDerives(v, i + n, ep + 1, caps, t);
      ns := [n] + rest;
      assert ns[1..] == rest;
    } else {
      ns := InDerives(v, i + 1, ep, caps, t);
    }
    DerivesItem(v, i, k, ep, caps, ns, t);
  }

  /** The three escapes leave no choice. */
  lemma EscapeDerives(v: Env, i: nat, k: nat, caps: seq<Capture>, ns: seq<nat>, t: Outcome)
    requires i <= |v.s| && Special(v, k)
    ensures Derives(v, i, k, caps, ns, t) <==>
            (var s := Escape(v, i, k, caps); s.Go? && Derives(v, s.i, s.k, caps, ns, t))
  {
    if v.At(k + 1) == 'b' {
      BalanceDecides(v, i, k, caps);
      hide Escape, BalancedAt;
      var s := Escape(v, i, k, caps);
      if Derives(v, i, k, caps, ns, t) {
        var e: nat :| BalancedAt(v, i, e, k) && Derives(v, e, k + 4, caps, ns, t);
        assert e == s.i;
      } else if s.Go? {
        assert BalancedAt(v, i, s.i, k);
      }
    } else {
      hide InBrackets, ClassEnd, Frontier;
    }
  }

  lemma EscapeSuffixes(v: Env, i: nat, k: nat, caps: seq<Capture>)
    requires i <= |v.s| && Special(v, k) && Escape(v, i, k, caps).Go?
    ensures Suffixes(v, k) == Suffixes(v, Escape(v, i, k, caps).k)
  {
    hide InBrackets, ClassEnd, Frontier, Balance, SameText;
  }

  lemma ItemSuffixes(v: Env, k: nat, ep: nat)
    requires Ordinary(v, k) && ClassEnd(v, k) == Some(ep)
    ensures Suffixes(v, k) == if Repeated(v.At(ep)) then [v.At(ep)] + Suffixes(v, ep + 1) else Suffixes(v, ep)
  {
    hide ClassEnd, Special;
  }

  // ---------- Which way the matcher takes ----------

  /** Where the matcher fails there is no way to match. */
  lemma FailHasNone(v: Env, i: nat, k: nat, caps: seq<Capture>)
    requires i <= |v.s| && Match(v, i, k, caps).Fail?
    ensures forall ns, t :: !Derives(v, i, k, caps, ns, t)
  {
    MatchDecides(v, i, k, caps);
    hide Match, Derives, InLanguage;
    forall ns, t
      ensures !Derives(v, i, k, caps, ns, t)
    {
      if Derives(v, i, k, caps, ns, t) {
        DerivesIn(v, i, k, caps, ns, t);
      }
    }
  }

  /** The matcher fails at every place from lo on, before hi. */
  ghost predicate AllFail(v: Env, lo: nat, hi: nat, k: nat, caps: seq<Capture>)
    requires hi <= |v.s| + 1
  {
    forall y: nat :: lo <= y < hi ==> Match(v, y, k, caps).Fail?
  }

  /** The greedy loop stops at the first place from above that does not fail. */
  lemma {:induction false} MaxStops(v: Env, i: nat, n: nat, k: nat, caps: seq<Capture>) returns (m: nat)
    requires i + n <= |v.s|
    ensures m <= n && MaxExpand(v, i, n, k, caps) == Match(v, i + m, k, caps)
    ensures AllFail(v, i + m + 1, i + n + 1, k, caps)
    decreases n
  {
    hide Match;
    if Match(v, i + n, k, caps).Fail? && n > 0 {
      m := MaxStops(v, i, n - 1, k, caps);
    } else {
      m := n;
    }
  }

  /** The lazy loop stops at the first place from below. */
  lemma {:induction false} MinStops(v: Env, i: nat, k: nat, ep: nat, caps: seq<Capture>) returns (m: nat)
    requires i <= |v.s| && k < ep <= |v.p| && MinExpand(v, i, k, ep, caps).Found?
    ensures i + m <= |v.s| && Repeats(v, i, m, k, ep) && MinExpand(v, i, k, ep, caps) == Match(v, i + m, ep + 1, caps)
    ensures AllFail(v, i, i + m, ep + 1, caps)
    decreases |v.s| - i
  {
    hide Match, Single;
    if Match(v, i, ep + 1, caps).Fail? {
      InSubject(v, i, k, ep);
      var l := MinStops(v, i + 1, k, ep, caps);
      m := l + 1;
      RepeatsShift(v, i, l, k, ep);
    } else {
      m := 0;
    }
  }

  /** No number of repetitions that the suffix prefers to n leads to an end. */
  ghost predicate NoneBetter(v: Env, i: nat, n: nat, k: nat, ep: nat, caps: seq<Capture>)
    requires k < ep <= |v.p|
  {
    forall m: nat :: Better(v.At(ep), m, n) && Allowed(v.At(ep), m) && Repeats(v, i, m, k, ep) && i + m <= |v.s| ==>
      Match(v, i + m, ep + 1, caps).Fail?
  }

  lemma {:induction false} Attempts(v: Env, i: nat, k: nat, ep: nat, caps: seq<Capture>) returns (n: nat)
    requires i <= |v.s| && k < ep < |v.p| && Repeated(v.At(ep)) && Item(v, i, k, ep, caps).Found?
    ensures Allowed(v.At(ep), n) && Repeats(v, i, n, k, ep) && i + n <= |v.s|
    ensures Item(v, i, k, ep, caps) == Match(v, i + n, ep + 1, caps) && NoneBetter(v, i, n, k, ep, caps)
  {
    forall m: nat
      ensures Repeats(v, i, m, k, ep) <==> m <= Run(v, i, k, ep)
    {
      RunIs(v, i, k, ep, m);
    }
    if Single(v, i, k, ep) {
      RunFrom(v, i, k, ep);
    }
    RunSome(v, i, k, ep);
    hide Match, Single, Run, Repeats;
    match v.At(ep) {
      case '*' =>
        n := MaxStops(v, i, Run(v, i, k, ep), ep + 1, caps);
      case '+' =>
        var m := MaxStops(v, i + 1, Run(v, i + 1, k, ep), ep + 1, caps);
        n := m + 1;
      case '-' =>
        n := MinStops(v, i, k, ep, caps);
      case _ =>
        n := if Single(v, i, k, ep) && !Match(v, i + 1, ep + 1, caps).Fail? then 1 else 0;
    }
  }

  lemma RunSome(v: Env, i: nat, k: nat, ep: nat)
    requires ep > 0 && i <= |v.s|
    ensures Run(v, i, k, ep) > 0 <==> Single(v, i, k, ep)
  {}

  /** One more number in front of the best numbers for the rest. */
  lemma Prepended(v: Env, i: nat, k: nat, ep: nat, caps: seq<Capture>, n: nat, ns: seq<nat>, t: Outcome)
    requires i <= |v.s| && Ordinary(v, k) && ClassEnd(v, k) == Some(ep) && Repeated(v.At(ep))
    requires Allowed(v.At(ep), n) && Repeats(v, i, n, k, ep) && NoneBetter(v, i, n, k, ep, caps)
    requires Preferred(v, i + n, ep + 1, caps, ns, t)
    ensures Preferred(v, i, k, caps, [n] + ns, t)
  {
    var all := [n] + ns;
    assert all[1..] == ns;
    DerivesItem(v, i, k, ep, caps, all, t);
    ItemSuffixes(v, k, ep);
    var suffixes := [v.At(ep)] + Suffixes(v, ep + 1);
    hide Derives, Suffixes, Ordinary, ClassEnd, Repeats, Match, Sooner;
    forall ms, x | Derives(v, i, k, caps, ms, x)
      ensures (ms == all && x == t) || Sooner(suffixes, all, ms)
    {
      DerivesItem(v, i, k, ep, caps, ms, x);
      if ms[0] == n {
        assert ms == [n] + ms[1..];
        if !(ms[1..] == ns && x == t) {
          SoonerBehind(v.At(ep), Suffixes(v, ep + 1), n, ns, ms[1..]);
        }
      } else {
        NotBetter(v, i, ms[0], n, k, ep, caps, ms[1..], x);
        SoonerAtOnce(suffixes, all, ms);
      }
    }
  }

  /** Another number that leads to an end is one that the suffix likes less. */
  lemma NotBetter(v: Env, i: nat, m: nat, n: nat, k: nat, ep: nat, caps: seq<Capture>, ms: seq<nat>, x: Outcome)
    requires k < ep <= |v.p| && m != n && Allowed(v.At(ep), m) && Repeats(v, i, m, k, ep)
    requires NoneBetter(v, i, n, k, ep, caps) && Derives(v, i + m, ep + 1, caps, ms, x)
    ensures Better(v.At(ep), n, m)
  {
    DerivesInside(v, i + m, ep + 1, caps, ms, x);
    hide Derives, Match, Repeats;
    if Better(v.At(ep), m, n) {
      FailHasNone(v, i + m, ep + 1, caps);
    }
  }

  lemma SoonerBehind(suffix: char, suffixes: seq<char>, n: nat, a: seq<nat>, b: seq<nat>)
    requires Sooner(suffixes, a, b)
    ensures Sooner([suffix] + suffixes, [n] + a, [n] + b)
  {
    var j :| 0 <= j < |suffixes| && j < |a| && j < |b| && a[..j] == b[..j] && Better(suffixes[j], a[j], b[j]);
    var s, c, d := [suffix] + suffixes, [n] + a, [n] + b;
    assert c[..j + 1] == [n] + a[..j] && d[..j + 1] == [n] + b[..j];
    assert Better(s[j + 1], c[j + 1], d[j + 1]);
  }

  lemma SoonerAtOnce(suffixes: seq<char>, a: seq<nat>, b: seq<nat>)
    requires suffixes != [] && a != [] && b != [] && Better(suffixes[0], a[0], b[0])
    ensures Sooner(suffixes, a, b)
  {
    assert a[..0] == b[..0];
  }

  /** A match that is found takes the way that comes first. */
  lemma {:induction false} MatchPrefers(v: Env, i: nat, k: nat, caps: seq<Capture>) returns (ns: seq<nat>)
    requires i <= |v.s| && Match(v, i, k, caps).Found?
    ensures Preferred(v, i, k, caps, ns, Match(v, i, k, caps))
    decreases |v.p| - k, 1
  {
    var c := v.At(k);
    if c == '(' {
      if v.At(k + 1) == ')' {
        ns := MatchPrefers(v, i, k + 2, caps + [Capture(i, POSITION)]);
      } else {
        ns := MatchPrefers(v, i, k + 1, caps + [Capture(i, UNFINISHED)]);
      }
    } else if c == ')' {
      var l := ToClose(caps);
      ns := MatchPrefers(v, i, k + 1, caps[l := caps[l].(len := i - caps[l].init)]);
    } else if Special(v, k) {
      ns := EscapePrefers(v, i, k, caps);
    } else if Ordinary(v, k) && ClassEnd(v, k).Some? {
      ns := ItemPrefers(v, i, k, ClassEnd(v, k).value, caps);
    } else {
      ns := [];
    }
  }

  lemma {:induction false} EscapePrefers(v: Env, i: nat, k: nat, caps: seq<Capture>) returns (ns: seq<nat>)
    requires i <= |v.s| && Special(v, k) && Match(v, i, k, caps).Found?
    ensures Preferred(v, i, k, caps, ns, Match(v, i, k, caps))
    decreases |v.p| - k, 0
  {
    var s := Escape(v, i, k, caps);
    assert s.Go? && Match(v, i, k, caps) == Match(v, s.i, s.k, caps);
    EscapeSuffixes(v, i, k, caps);
    hide Match, Escape, Special, Derives, Suffixes;
    ns := MatchPrefers(v, s.i, s.k, caps);
    forall ms, x
      ensures Derives(v, i, k, caps, ms, x) <==> Derives(v, s.i, s.k, caps, ms, x)
    {
      EscapeDerives(v, i, k, caps, ms, x);
    }
  }

  lemma {:induction false} ItemPrefers(v: Env, i: nat, k: nat, ep: nat, caps: seq<Capture>) returns (ns: seq<nat>)
    requires i <= |v.s| && Ordinary(v, k) && ClassEnd(v, k) == Some(ep) && Match(v, i, k, caps).Found?
    ensures Preferred(v, i, k, caps, ns, Match(v, i, k, caps))
    decreases |v.p| - k, 0
  {
    assert Match(v, i, k, caps) == Item(v, i, k, ep, caps);
    assert Repeated(v.At(ep)) ==> ep < |v.p|;
    if Repeated(v.At(ep)) {
      hide Match, Item, Derives, Ordinary, ClassEnd, Preferred, Repeats;
      var n := Attempts(v, i, k, ep, caps);
      var rest := MatchPrefers(v, i + n, ep + 1, caps);
      ns := [n] + rest;
      Prepended(v, i, k, ep, caps, n, rest, Match(v, i, k, caps));
    } else {
      InSubject(v, i, k, ep);
      assert Match(v, i, k, caps) == Match(v, i + 1, ep, caps);
      ItemSuffixes(v, k, ep);
      hide Match, Derives, Ordinary, ClassEnd, Suffixes;
      ns := MatchPrefers(v, i + 1, ep, caps);
      forall ms, x
        ensures Derives(v, i, k, caps, ms, x) <==> Derives(v, i + 1, ep, caps, ms, x)
      {
        DerivesItem(v, i, k, ep, caps, ms, x);
      }
    }
  }
}
