/** The dumper: bytes are handed to a writer, block by block, until it fails. */
module ChunkWriter {
  import opened Options
  import opened BinaryChunk

  /** What a function is written as: without debug information when stripping. */
  function Shown(strip: bool, f: Proto): Proto { if strip then Strip(f) else f }

  /** The functions of f from i on, and what comes behind them. */
  ghost function Behind(strip: bool, f: Proto, i: nat, tail: seq<byte>): seq<byte>
    requires Fits(Shown(strip, f)) && i <= |f.p| == |Shown(strip, f).p|
  {
    DumpFunctions(Shown(strip, f), i, tail)
  }

  class DumpState {
    const strip: bool
    const room: nat         // the writer fails when it has no room for a block
    var out: seq<byte>
    var status: int

    constructor (s: bool, n: nat)
      ensures strip == s && room == n && out == [] && status == 0
    {
      strip, room, out, status := s, n, [], 0;
    }

    /** DumpBlock: nothing is written any more after a failure. */
    method DumpBlock(b: seq<byte>)
      modifies this
      ensures status == 0 ==> old(status) == 0 && out == old(out) + b
      ensures status != 0 ==> out == old(out)
    {
      if status == 0 {
        if |out| + |b| > room {
          status := 1;
        } else {
          out := out + b;
        }
      }
    }

    method DoDumpInt(x: int, ghost tail: seq<byte>)
      requires -HALF <= x < HALF
      modifies this
      ensures status == 0 ==> old(status) == 0 && out + tail == old(out) + DumpInt(x, tail)
    {
      DumpBlock(Enc(INT_SIZE, ToWord(x)));
      Joined(old(out), Enc(INT_SIZE, ToWord(x)), tail);
    }

    method DoDumpChar(x: int, ghost tail: seq<byte>)
      requires 0 <= x < 256
      modifies this
      ensures status == 0 ==> old(status) == 0 && out + tail == old(out) + DumpChar(x, tail)
    {
      DumpBlock(Enc(1, x));
      Joined(old(out), Enc(1, x), tail);
    }

    method DoDumpString(t: Text, ghost tail: seq<byte>)
      requires TextFits(t)
      modifies this
      ensures status == 0 ==> old(status) == 0 && out + tail == old(out) + DumpString(t, tail)
    {
      if t.None? {
        DumpBlock(Enc(SIZE_SIZE, 0));
        Joined(old(out), Enc(SIZE_SIZE, 0), tail);
      } else {
        DumpBlock(Enc(SIZE_SIZE, |t.value| + 1));
        DumpBlock(FromChars(t.value) + [0]);
        JoinedTwice(old(out), Enc(SIZE_SIZE, |t.value| + 1), FromChars(t.value), [0], tail);
      }
    }

    /** DumpVector writes its words as one block. */
    method DoDumpVector(xs: seq<int>, ghost tail: seq<byte>)
      requires WordsFit(xs)
      modifies this
      ensures status == 0 ==> old(status) == 0 && out + tail == old(out) + DumpVector(xs, tail)
    {
      DoDumpInt(|xs|, DumpWords(xs, tail));
      ghost var o := out;
      DumpBlock(DumpWords(xs, []));
      WordsTail(xs, tail);
      Joined(o, DumpWords(xs, []), tail);
    }

    method DoDumpConst(c: Const, ghost tail: seq<byte>)
      requires ConstFits(c)
      modifies this
      ensures status == 0 ==> old(status) == 0 && out + tail == old(out) + DumpConst(c, tail)
    {
      hide DumpChar, DumpString;
      match c {
        case Nil =>
          DoDumpChar(0, tail);
        case Bool(b) =>
          DoDumpChar(1, DumpChar(if b then 1 else 0, tail));
          DoDumpChar(if b then 1 else 0, tail);
        case Number(bits) =>
          DoDumpChar(3, bits + tail);
          ghost var o := out;
          DumpBlock(bits);
          Joined(o, bits, tail);
        case Str(t) =>
          DoDumpChar(4, DumpString(t, tail));
          DoDumpString(t, tail);
      }
    }

    method DoDumpConsts(cs: seq<Const>, ghost tail: seq<byte>)
      requires forall c :: c in cs ==> ConstFits(c)
      modifies this
      ensures status == 0 ==> old(status) == 0 && out + tail == old(out) + DumpConsts(cs, tail)
    {
      hide DumpConst, ConstFits;
      var i := 0;
      while i < |cs|
        invariant 0 <= i <= |cs|
        invariant status == 0 ==> old(status) == 0 && out + DumpConsts(cs[i..], tail) == old(out) + DumpConsts(cs, tail)
      {
        assert cs[i..][1..] == cs[i + 1..];
        DoDumpConst(cs[i], DumpConsts(cs[i + 1..], tail));
        i := i + 1;
      }
    }

    method DoDumpLocVars(vs: seq<LocVar>, ghost tail: seq<byte>)
      requires forall v :: v in vs ==> LocVarFits(v)
      modifies this
      ensures status == 0 ==> old(status) == 0 && out + tail == old(out) + DumpLocVars(vs, tail)
    {
      hide DumpString, DumpInt, TextFits;
      var i := 0;
      while i < |vs|
        invariant 0 <= i <= |vs|
        invariant status == 0 ==> old(status) == 0 && out + DumpLocVars(vs[i..], tail) == old(out) + DumpLocVars(vs, tail)
      {
        assert vs[i..][1..] == vs[i + 1..] && LocVarFits(vs[i]);
        ghost var t := DumpLocVars(vs[i + 1..], tail);
        DoDumpString(vs[i].varname, DumpInt(vs[i].startpc, DumpInt(vs[i].endpc, t)));
        DoDumpInt(vs[i].startpc, DumpInt(vs[i].endpc, t));
        DoDumpInt(vs[i].endpc, t);
        i := i + 1;
      }
    }

    method DoDumpTexts(ts: seq<Text>, ghost tail: seq<byte>)
      requires forall t :: t in ts ==> TextFits(t)
      modifies this
      ensures status == 0 ==> old(status) == 0 && out + tail == old(out) + DumpTexts(ts, tail)
    {
      hide DumpString, TextFits;
      var i := 0;
      while i < |ts|
        invariant 0 <= i <= |ts|
        invariant status == 0 ==> old(status) == 0 && out + DumpTexts(ts[i..], tail) == old(out) + DumpTexts(ts, tail)
      {
        assert ts[i..][1..] == ts[i + 1..];
        DoDumpString(ts[i], DumpTexts(ts[i + 1..], tail));
        i := i + 1;
      }
    }

    /** DumpDebug: the three lists are empty when stripping. */
    method DoDumpDebug(f: Proto, ghost tail: seq<byte>)
      requires DebugFits(f)
      modifies this
      ensures DebugFits(Shown(strip, f))
      ensures status == 0 ==> old(status) == 0 && out + tail == old(out) + DumpDebug(Shown(strip, f), tail)
    {
      ghost var g := Shown(strip, f);
      assert DebugFits(g);
      var lines := if strip then [] else LineWords(f.lineinfo);
      var vars := if strip then [] else f.locvars;
      var ups := if strip then [] else f.upvalues;
      assert lines == LineWords(g.lineinfo);
      hide DumpVector, DumpInt, DumpLocVars, DumpTexts, TextFits, LocVarFits, Strip;
      ghost var t2 := DumpTexts(ups, tail);
      ghost var t1 := DumpLocVars(vars, DumpInt(|ups|, t2));
      DoDumpVector(lines, DumpInt(|vars|, t1));
      DoDumpInt(|vars|, t1);
      DoDumpLocVars(vars, DumpInt(|ups|, t2));
      DoDumpInt(|ups|, t2);
      DoDumpTexts(ups, tail);
    }

    method DoDumpSizes(f: Proto, ghost tail: seq<byte>)
      requires SizesFit(f)
      modifies this
      ensures status == 0 ==> old(status) == 0 && out + tail == old(out) + DumpSizes(f, tail)
    {
      hide DumpInt, DumpChar;
      ghost var t4 := DumpChar(f.maxstacksize, tail);
      ghost var t3 := DumpChar(f.isVararg, t4);
      ghost var t2 := DumpChar(f.numparams, t3);
      ghost var t1 := DumpChar(f.nups, t2);
      DoDumpInt(f.linedefined, DumpInt(f.lastlinedefined, t1));
      DoDumpInt(f.lastlinedefined, t1);
      DoDumpChar(f.nups, t2);
      DoDumpChar(f.numparams, t3);
      DoDumpChar(f.isVararg, t4);
      DoDumpChar(f.maxstacksize, tail);
    }

    /** DumpFunction: f goes out as what is shown of it. */
    method DoDumpFunction(f: Proto, p: Text, ghost tail: seq<byte>)
      requires Fits(f) && (strip ==> Fits(Strip(f)))
      modifies this
      ensures status == 0 ==> old(status) == 0 && out + tail == old(out) + DumpFunction(Shown(strip, f), if strip then None else p, tail)
      decreases f, 1, 0
    {
      ghost var g := Shown(strip, f);
      ghost var q := if strip then None else p;
      ShownParts(strip, f);
      hide DumpString, DumpSizes, DumpVector, DumpInt, DumpConsts, DumpFunctions, DumpDebug, TextFits, SizesFit, WordsFit, DebugFits,
        ConstFits, Fits, Shown, Strip;
      ghost var t5 := DumpDebug(g, tail);
      ghost var t4 := DumpFunctions(g, 0, t5);
      ghost var t3 := DumpInt(|f.p|, t4);
      ghost var t2 := DumpConsts(f.k, t3);
      ghost var t1 := DumpInt(|f.k|, t2);
      ghost var t0 := DumpVector(f.code, t1);
      ghost var ts := DumpSizes(f, t0);
      SameSizes(f, g, t0);
      assert DumpFunction(g, q, tail) == DumpString(if g.source == q then None else g.source, ts);
      var source := if f.source == p || strip then None else f.source;
      SourceShown(strip, f, p);
      DoDumpString(source, ts);
      DoDumpSizes(f, t0);
      DoDumpVector(f.code, t1);
      DoDumpInt(|f.k|, t2);
      DoDumpConsts(f.k, t3);
      DoDumpInt(|f.p|, t4);
      DoDumpFunctions(f, t5);
      DoDumpDebug(f, tail);
    }

    method DoDumpFunctions(f: Proto, ghost tail: seq<byte>)
      requires Fits(f) && (strip ==> Fits(Strip(f))) && Fits(Shown(strip, f)) && |Shown(strip, f).p| == |f.p|
      modifies this
      ensures status == 0 ==> old(status) == 0 && out + tail == old(out) + DumpFunctions(Shown(strip, f), 0, tail)
      decreases f, 0, 1
    {
      ShownParts(strip, f);
      NoMore(Shown(strip, f), tail);
      ghost var goal := out + Behind(strip, f, 0, tail);
      hide DumpFunction, Fits, Shown, Strip, DumpFunctions, Behind;
      var i, n := 0, |f.p|;
      while i < n
        invariant 0 <= i <= n
        invariant status == 0 ==> old(status) == 0 && out + Behind(strip, f, i, tail) == goal
      {
        DoDumpChild(f, i, tail);
        i := i + 1;
      }
    }

    method DoDumpChild(f: Proto, i: nat, ghost tail: seq<byte>)
      requires Fits(f) && (strip ==> Fits(Strip(f))) && Fits(Shown(strip, f)) && i < |f.p| == |Shown(strip, f).p|
      modifies this
      ensures status == 0 ==> old(status) == 0 && out + Behind(strip, f, i + 1, tail) == old(out) + Behind(strip, f, i, tail)
      decreases f, 0, 0
    {
      hide DumpFunction, Fits, Shown, Strip, DumpFunctions;
      ChildShown(strip, f, i, tail);
      DoDumpFunction(f.p[i], f.source, DumpFunctions(Shown(strip, f), i + 1, tail));
    }

    /** luaU_dump: if the writer took everything, it has got the dump of the function. */
    method DoDump(f: Proto)
      requires Fits(f) && out == [] && status == 0
      modifies this
      ensures Fits(Shown(strip, f)) && (status == 0 ==> out == Dump(Shown(strip, f)))
    {
      if strip {
        StripFits(f);
      }
      ShownParts(strip, f);
      DumpIs(Shown(strip, f));
      hide DumpFunction, Fits, Strip, PartsFit, Shown, Dump, SizesFit, TextFits;
      DumpBlock(HEADER);
      DoDumpFunction(f, None, []);
      assert out + [] == out;
    }
  }

  lemma DumpIs(f: Proto)
    requires Fits(f)
    ensures Dump(f) == [] + HEADER + DumpFunction(f, None, [])
  {
    hide DumpFunction;
  }

  lemma Joined(a: seq<byte>, b: seq<byte>, tail: seq<byte>)
    ensures a + b + tail == a + (b + tail)
  {}

  lemma JoinedTwice(a: seq<byte>, b: seq<byte>, c: seq<byte>, d: seq<byte>, tail: seq<byte>)
    ensures a + b + (c + d) + tail == a + (b + (c + (d + tail)))
  {}

  lemma {:induction false} WordsTail(xs: seq<int>, tail: seq<byte>)
    requires forall i :: 0 <= i < |xs| ==> 0 <= xs[i] < WORD
    ensures DumpWords(xs, tail) == DumpWords(xs, []) + tail
    decreases |xs|
  {
    if xs != [] {
      WordsTail(xs[1..], tail);
      Joined(Enc(INT_SIZE, xs[0]), DumpWords(xs[1..], []), tail);
    }
  }

  /** Stripping changes only the source, the functions inside and the debug lists. */
  lemma ShownParts(strip: bool, f: Proto)
    requires Fits(f) && (strip ==> Fits(Strip(f)))
    ensures var g := Shown(strip, f);
      Fits(g) && PartsFit(g) && PartsFit(f) && g.code == f.code && g.k == f.k && |g.p| == |f.p|
  {}

  lemma SameSizes(f: Proto, g: Proto, tail: seq<byte>)
    requires SizesFit(f) && SizesFit(g) && (exists s :: g == Shown(s, f))
    ensures DumpSizes(g, tail) == DumpSizes(f, tail)
  {
    hide DumpInt, DumpChar;
  }

  lemma SourceShown(strip: bool, f: Proto, p: Text)
    requires TextFits(f.source)
    ensures var g := Shown(strip, f);
      var q := if strip then None else p;
      var source := if f.source == p || strip then None else f.source;
      TextFits(source) && source == if g.source == q then None else g.source
  {}

  lemma ChildShown(strip: bool, f: Proto, i: nat, tail: seq<byte>)
    requires Fits(f) && (strip ==> Fits(Strip(f))) && Fits(Shown(strip, f)) && i < |f.p| == |Shown(strip, f).p|
    ensures Fits(f.p[i]) && (strip ==> Fits(Strip(f.p[i]))) && Fits(Shown(strip, f.p[i]))
    ensures DumpFunctions(Shown(strip, f), i, tail) ==
      DumpFunction(Shown(strip, f.p[i]), if strip then None else f.source, DumpFunctions(Shown(strip, f), i + 1, tail))
  {
    var g := Shown(strip, f);
    assert strip ==> StripAll(f, 0)[i - 0] == Strip(f.p[i]);
    assert g.p[i] == Shown(strip, f.p[i]);
    hide DumpFunction, PartsFit;
    assert Fits(g.p[i]) && Fits(f.p[i]);
    assert g.source == if strip then None else f.source;
  }

  lemma NoMore(g: Proto, tail: seq<byte>)
    requires Fits(g)
    ensures DumpFunctions(g, |g.p|, tail) == tail
  {}
}
