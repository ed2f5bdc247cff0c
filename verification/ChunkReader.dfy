/** The buffered stream and the loader that reads a chunk from it piece by piece. */
module ChunkReader {
  import opened Options
  import opened BinaryChunk

  /** What the pieces of a reader amount to; an empty piece ends the stream. */
  function Flat(pieces: seq<seq<byte>>): seq<byte> {
    if pieces == [] || pieces[0] == [] then [] else pieces[0] + Flat(pieces[1..])
  }

  lemma Taken(b: seq<byte>, buf: seq<byte>, more: seq<byte>, m: nat)
    requires m <= |buf|
    ensures b + (buf + more) == (b + buf[..m]) + (buf[m..] + more)
  {}

  lemma AllTaken(b: seq<byte>, rest: seq<byte>, n: nat)
    requires |b| == n
    ensures (b + rest)[..n] == b && (b + rest)[n..] == rest
  {}

  /** ZIO: the unread bytes of the current piece, and what the reader has still to give. */
  class ZIO {
    var buf: seq<byte>
    var pieces: seq<seq<byte>>

    ghost function Rest(): seq<byte>
      reads this
    {
      buf + Flat(pieces)
    }

    constructor (p: seq<seq<byte>>)
      ensures Rest() == Flat(p)
    {
      buf, pieces := [], p;
      new;
      assert [] + Flat(p) == Flat(p);
    }

    /** luaZ_lookahead, with luaZ_fill: false at the end of the stream. */
    method Lookahead() returns (more: bool)
      modifies this
      ensures Rest() == old(Rest()) && more == (Rest() != []) && (more ==> buf != [])
      ensures |Flat(pieces)| <= old(|Flat(pieces)|)
    {
      if buf == [] {
        if pieces == [] || pieces[0] == [] {
          return false;
        }
        assert Rest() == pieces[0] + Flat(pieces[1..]);
        buf, pieces := pieces[0], pieces[1..];
      }
      return true;
    }

    /** luaZ_read: the next n bytes, or the number of those that are missing. */
    method Read(n0: nat) returns (missing: nat, b: seq<byte>)
      modifies this
      ensures n0 <= old(|Rest()|) ==> missing == 0 && b == old(Rest())[..n0] && Rest() == old(Rest())[n0..]
      ensures n0 > old(|Rest()|) ==> missing == n0 - old(|Rest()|) && b == old(Rest()) && Rest() == []
    {
      hide Flat;
      var n: int := n0;
      b := [];
      while n > 0
        invariant 0 <= n <= n0 && |b| == n0 - n && b + Rest() == old(Rest())
        decreases n
      {
        var more := Lookahead();
        if !more {
          return n, b;
        }
        var m := if n <= |buf| then n else |buf|;
        Taken(b, buf, Flat(pieces), m);
        b := b + buf[..m];
        buf := buf[m..];
        n := n - m;
      }
      AllTaken(b, Rest(), n0);
      return 0, b;
    }
  }

  datatype Result<T> = Good(v: T) | Bad(e: Error)

  /** A result and the bytes left are what reading the bytes gives. */
  ghost predicate Is<T(!new)>(l: Loaded<T>, r: Result<T>, rest: seq<byte>) {
    if r.Good? then l == Ok(r.v, rest) else l == Err(r.e)
  }

  /** More elements in front of those that are read. */
  ghost function Behind<T>(acc: seq<T>, l: Loaded<seq<T>>): Loaded<seq<T>> {
    if l.Ok? then Ok(acc + l.v, l.rest) else l
  }

  lemma BehindNone<T>(l: Loaded<seq<T>>)
    ensures Behind([], l) == l
  {
    if l.Ok? {
      assert [] + l.v == l.v;
    }
  }

  lemma BehindOne<T>(acc: seq<T>, x: T, l: Loaded<seq<T>>)
    ensures Behind(acc + [x], l) == Behind(acc, Behind([x], l))
  {
    if l.Ok? {
      assert acc + [x] + l.v == acc + ([x] + l.v);
    }
  }

  lemma BehindEnd<T>(acc: seq<T>, rest: seq<byte>)
    ensures Behind(acc, Ok([], rest)) == Ok(acc, rest)
  {
    assert acc + [] == acc;
  }

  /** xs have been loaded of n functions, and k are still to come from rest. */
  ghost predicate StillTo(check: Proto -> bool, level: nat, n: nat, p: string, b: seq<byte>, xs: seq<Proto>, k: nat, rest: seq<byte>)
    requires level <= MAXCCALLS
  {
    LoadFunctions(check, level, n, p, b) == Behind(xs, LoadFunctions(check, level, k, p, rest))
  }

  lemma NoneLoaded(check: Proto -> bool, level: nat, n: nat, p: string, b: seq<byte>)
    requires level <= MAXCCALLS
    ensures StillTo(check, level, n, p, b, [], n, b)
  {
    hide LoadFunctions;
    BehindNone(LoadFunctions(check, level, n, p, b));
  }

  lemma OneLoaded(check: Proto -> bool, level: nat, n: nat, p: string, b: seq<byte>, xs: seq<Proto>, k: nat, rest: seq<byte>,
                  x: Result<Proto>, rest1: seq<byte>)
    requires level <= MAXCCALLS && k > 0 && StillTo(check, level, n, p, b, xs, k, rest) && Is(LoadFunction(check, level, p, rest), x, rest1)
    ensures x.Bad? ==> forall r :: Is(LoadFunctions(check, level, n, p, b), Bad(x.e), r)
    ensures x.Good? ==> StillTo(check, level, n, p, b, xs + [x.v], k - 1, rest1)
  {
    hide LoadFunction;
    if x.Good? {
      BehindOne(xs, x.v, LoadFunctions(check, level, k - 1, p, rest1));
    }
  }

  lemma AllLoaded(check: Proto -> bool, level: nat, n: nat, p: string, b: seq<byte>, xs: seq<Proto>, rest: seq<byte>)
    requires level <= MAXCCALLS && StillTo(check, level, n, p, b, xs, 0, rest)
    ensures Is(LoadFunctions(check, level, n, p, b), Good(xs), rest)
  {
    BehindEnd(xs, rest);
  }

  class LoadState {
    const z: ZIO
    const check: Proto -> bool
    var nCcalls: nat

    constructor (s: ZIO, c: Proto -> bool, n: nat)
      ensures z == s && check == c && nCcalls == n
    {
      z, check, nCcalls := s, c, n;
    }

    method DoLoadBlock(n: nat) returns (r: Result<seq<byte>>)
      modifies z
      ensures Is(LoadBlock(n, old(z.Rest())), r, z.Rest())
    {
      var missing, b := z.Read(n);
      if missing != 0 {
        return Bad(UnexpectedEnd);
      }
      return Good(b);
    }

    /** LoadVar of an integer type of w bytes. */
    method DoLoadWord(w: nat) returns (r: Result<nat>)
      modifies z
      ensures Is(LoadWord(w, old(z.Rest())), r, z.Rest())
    {
      var t := DoLoadBlock(w);
      if t.Bad? {
        return Bad(t.e);
      }
      return Good(Dec(t.v));
    }

    method DoLoadInt() returns (r: Result<nat>)
      modifies z
      ensures Is(LoadInt(old(z.Rest())), r, z.Rest())
    {
      var t := DoLoadWord(INT_SIZE);
      if t.Bad? {
        return Bad(t.e);
      }
      if FromWord(t.v) < 0 {
        return Bad(BadInteger);
      }
      return Good(FromWord(t.v));
    }

    method DoLoadString() returns (r: Result<Text>)
      modifies z
      ensures Is(LoadString(old(z.Rest())), r, z.Rest())
    {
      var n := DoLoadWord(SIZE_SIZE);
      if n.Bad? {
        return Bad(n.e);
      }
      if n.v == 0 {
        return Good(None);
      }
      var t := DoLoadBlock(n.v);
      if t.Bad? {
        return Bad(t.e);
      }
      return Good(Some(ToChars(t.v[..n.v - 1])));
    }

    method DoLoadVector() returns (r: Result<seq<nat>>)
      modifies z
      ensures Is(LoadVector(old(z.Rest())), r, z.Rest())
    {
      var n := DoLoadInt();
      if n.Bad? {
        return Bad(n.e);
      }
      ghost var b := z.Rest();
      var xs, i := [], 0;
      hide LoadWord;
      BehindNone(LoadWords(n.v, b));
      while i < n.v
        invariant 0 <= i <= n.v && LoadWords(n.v, b) == Behind(xs, LoadWords(n.v - i, z.Rest()))
      {
        ghost var l := LoadWords(n.v - i, z.Rest());
        var x := DoLoadWord(INT_SIZE);
        if x.Bad? {
          return Bad(x.e);
        }
        BehindOne(xs, x.v, LoadWords(n.v - i - 1, z.Rest()));
        xs := xs + [x.v];
        i := i + 1;
      }
      BehindEnd(xs, z.Rest());
      return Good(xs);
    }

    method DoLoadConst() returns (r: Result<Const>)
      modifies z
      ensures Is(LoadConst(old(z.Rest())), r, z.Rest())
    {
      hide LoadWord, LoadString, LoadBlock;
      var t := DoLoadWord(1);
      if t.Bad? {
        return Bad(t.e);
      }
      match t.v {
        case 0 =>
          return Good(Nil);
        case 1 =>
          var x := DoLoadWord(1);
          return if x.Bad? then Bad(x.e) else Good(Bool(x.v != 0));
        case 3 =>
          var x := DoLoadBlock(NUMBER_SIZE);
          return if x.Bad? then Bad(x.e) else Good(Number(x.v));
        case 4 =>
          var x := DoLoadString();
          return if x.Bad? then Bad(x.e) else Good(Str(x.v));
        case _ =>
          return Bad(BadConstant);
      }
    }

    method DoLoadConsts(n: nat) returns (r: Result<seq<Const>>)
      modifies z
      ensures Is(LoadConsts(n, old(z.Rest())), r, z.Rest())
    {
      ghost var b := z.Rest();
      var xs, i := [], 0;
      hide LoadConst;
      BehindNone(LoadConsts(n, b));
      while i < n
        invariant 0 <= i <= n && LoadConsts(n, b) == Behind(xs, LoadConsts(n - i, z.Rest()))
      {
        var x := DoLoadConst();
        if x.Bad? {
          return Bad(x.e);
        }
        BehindOne(xs, x.v, LoadConsts(n - i - 1, z.Rest()));
        xs := xs + [x.v];
        i := i + 1;
      }
      BehindEnd(xs, z.Rest());
      return Good(xs);
    }

    method DoLoadLocVar() returns (r: Result<LocVar>)
      modifies z
      ensures Is(LoadLocVar(old(z.Rest())), r, z.Rest())
    {
      hide LoadString, LoadInt;
      var v := DoLoadString();
      if v.Bad? {
        return Bad(v.e);
      }
      var s := DoLoadInt();
      if s.Bad? {
        return Bad(s.e);
      }
      var e := DoLoadInt();
      if e.Bad? {
        return Bad(e.e);
      }
      return Good(LocVar(v.v, s.v, e.v));
    }

    method DoLoadLocVars(n: nat) returns (r: Result<seq<LocVar>>)
      modifies z
      ensures Is(LoadLocVars(n, old(z.Rest())), r, z.Rest())
    {
      ghost var b := z.Rest();
      var xs, i := [], 0;
      hide LoadLocVar;
      BehindNone(LoadLocVars(n, b));
      while i < n
        invariant 0 <= i <= n && LoadLocVars(n, b) == Behind(xs, LoadLocVars(n - i, z.Rest()))
      {
        var x := DoLoadLocVar();
        if x.Bad? {
          return Bad(x.e);
        }
        BehindOne(xs, x.v, LoadLocVars(n - i - 1, z.Rest()));
        xs := xs + [x.v];
        i := i + 1;
      }
      BehindEnd(xs, z.Rest());
      return Good(xs);
    }

    method DoLoadTexts(n: nat) returns (r: Result<seq<Text>>)
      modifies z
      ensures Is(LoadTexts(n, old(z.Rest())), r, z.Rest())
    {
      ghost var b := z.Rest();
      var xs, i := [], 0;
      hide LoadString;
      BehindNone(LoadTexts(n, b));
      while i < n
        invariant 0 <= i <= n && LoadTexts(n, b) == Behind(xs, LoadTexts(n - i, z.Rest()))
      {
        var x := DoLoadString();
        if x.Bad? {
          return Bad(x.e);
        }
        BehindOne(xs, x.v, LoadTexts(n - i - 1, z.Rest()));
        xs := xs + [x.v];
        i := i + 1;
      }
      BehindEnd(xs, z.Rest());
      return Good(xs);
    }

    method DoLoadDebug() returns (r: Result<(seq<int>, seq<LocVar>, seq<Text>)>)
      modifies z
      ensures Is(LoadDebug(old(z.Rest())), r, z.Rest())
    {
      hide LoadVector, LoadInt, LoadLocVars, LoadTexts;
      var lines := DoLoadVector();
      if lines.Bad? {
        return Bad(lines.e);
      }
      var n := DoLoadInt();
      if n.Bad? {
        return Bad(n.e);
      }
      var vars := DoLoadLocVars(n.v);
      if vars.Bad? {
        return Bad(vars.e);
      }
      n := DoLoadInt();
      if n.Bad? {
        return Bad(n.e);
      }
      var ups := DoLoadTexts(n.v);
      if ups.Bad? {
        return Bad(ups.e);
      }
      return Good((seq(|lines.v|, i requires 0 <= i < |lines.v| => FromWord(lines.v[i])), vars.v, ups.v));
    }

    method DoLoadSizes() returns (r: Result<(int, int, int, int, int, int)>)
      modifies z
      ensures Is(LoadSizes(old(z.Rest())), r, z.Rest())
    {
      hide LoadInt, LoadWord;
      var line := DoLoadInt();
      if line.Bad? {
        return Bad(line.e);
      }
      var last := DoLoadInt();
      if last.Bad? {
        return Bad(last.e);
      }
      var nups := DoLoadWord(1);
      if nups.Bad? {
        return Bad(nups.e);
      }
      var params := DoLoadWord(1);
      if params.Bad? {
        return Bad(params.e);
      }
      var vararg := DoLoadWord(1);
      if vararg.Bad? {
        return Bad(vararg.e);
      }
      var stack := DoLoadWord(1);
      if stack.Bad? {
        return Bad(stack.e);
      }
      return Good((line.v, last.v, nups.v, params.v, vararg.v, stack.v));
    }

    method DoLoadFunction(p: string) returns (r: Result<Proto>)
      requires nCcalls <= MAXCCALLS
      modifies z, this
      ensures Is(LoadFunction(check, old(nCcalls), p, old(z.Rest())), r, z.Rest())
      ensures r.Good? ==> nCcalls == old(nCcalls)
      decreases MAXCCALLS - nCcalls, 1, 0
    {
      hide LoadString, LoadSizes, LoadVector, LoadInt, LoadConsts, LoadFunctions, LoadDebug;
      nCcalls := nCcalls + 1;
      if nCcalls > MAXCCALLS {
        return Bad(TooDeep);
      }
      var source := DoLoadString();
      if source.Bad? {
        return Bad(source.e);
      }
      var src := if source.v.None? then p else source.v.value;
      var s := DoLoadSizes();
      if s.Bad? {
        return Bad(s.e);
      }
      var code := DoLoadVector();
      if code.Bad? {
        return Bad(code.e);
      }
      var n := DoLoadInt();
      if n.Bad? {
        return Bad(n.e);
      }
      var k := DoLoadConsts(n.v);
      if k.Bad? {
        return Bad(k.e);
      }
      n := DoLoadInt();
      if n.Bad? {
        return Bad(n.e);
      }
      var ps := DoLoadFunctions(n.v, src);
      if ps.Bad? {
        return Bad(ps.e);
      }
      var d := DoLoadDebug();
      if d.Bad? {
        return Bad(d.e);
      }
      var f := Proto(Some(src), s.v.0, s.v.1, s.v.2, s.v.3, s.v.4, s.v.5, code.v, k.v, ps.v, d.v.0, d.v.1, d.v.2);
      if !check(f) {
        return Bad(BadCode);
      }
      nCcalls := nCcalls - 1;
      return Good(f);
    }

    method DoLoadFunctions(n: nat, p: string) returns (r: Result<seq<Proto>>)
      requires nCcalls <= MAXCCALLS
      modifies z, this
      ensures Is(LoadFunctions(check, old(nCcalls), n, p, old(z.Rest())), r, z.Rest())
      ensures r.Good? ==> nCcalls == old(nCcalls)
      decreases MAXCCALLS - nCcalls, 2, 1
    {
      ghost var b, level := z.Rest(), nCcalls;
      var xs: seq<Proto>, i := [], 0;
      hide LoadFunction, LoadFunctions, Is, StillTo;
      NoneLoaded(check, level, n, p, b);
      while i < n
        invariant 0 <= i <= n && nCcalls == level
        invariant StillTo(check, level, n, p, b, xs, n - i, z.Rest())
      {
        r := DoLoadNext(n, p, b, xs, n - i);
        if r.Bad? {
          return;
        }
        xs := r.v;
        i := i + 1;
      }
      AllLoaded(check, level, n, p, b, xs, z.Rest());
      return Good(xs);
    }

    /** One more function behind those loaded. */
    method DoLoadNext(ghost n: nat, p: string, ghost b: seq<byte>, xs: seq<Proto>, ghost k: nat) returns (r: Result<seq<Proto>>)
      requires nCcalls <= MAXCCALLS && k > 0 && StillTo(check, nCcalls, n, p, b, xs, k, z.Rest())
      modifies z, this
      ensures r.Good? ==> nCcalls == old(nCcalls) && StillTo(check, nCcalls, n, p, b, r.v, k - 1, z.Rest())
      ensures r.Bad? ==> Is(LoadFunctions(check, old(nCcalls), n, p, b), r, z.Rest())
      decreases MAXCCALLS - nCcalls, 2, 0
    {
      hide LoadFunction, LoadFunctions, Is, StillTo;
      ghost var level, rest := nCcalls, z.Rest();
      var x := DoLoadFunction(p);
      OneLoaded(check, level, n, p, b, xs, k, rest, x, z.Rest());
      return if x.Bad? then Bad(x.e) else Good(xs + [x.v]);
    }

    /** luaU_undump: the result depends on the bytes only, not on the pieces they come in. */
    method DoUndump() returns (r: Result<Proto>)
      requires nCcalls <= MAXCCALLS
      modifies z, this
      ensures Is(Undump(check, old(nCcalls), old(z.Rest())), r, z.Rest())
    {
      hide LoadFunction;
      var h := DoLoadBlock(|HEADER|);
      if h.Bad? {
        return Bad(h.e);
      }
      if h.v != HEADER {
        return Bad(BadHeader);
      }
      r := DoLoadFunction(NO_SOURCE);
    }
  }
}
