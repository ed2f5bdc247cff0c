/** Precompiled chunks: the bytes that stand for a function prototype, and reading them back. */
module BinaryChunk {
  import opened Options

  type byte = x: int | 0 <= x < 256

  type Text = Option<string>

  datatype Const = Nil | Bool(b: bool) | Number(bits: seq<byte>) | Str(t: Text)

  datatype LocVar = LocVar(varname: Text, startpc: int, endpc: int)

  /** A prototype; texts that are NULL are None. */
  datatype Proto = Proto(source: Text, linedefined: int, lastlinedefined: int,
                         nups: int, numparams: int, isVararg: int, maxstacksize: int,
                         code: seq<int>, k: seq<Const>, p: seq<Proto>,
                         lineinfo: seq<int>, locvars: seq<LocVar>, upvalues: seq<Text>)

  datatype Error = UnexpectedEnd | BadInteger | BadConstant | TooDeep | BadCode | BadHeader

  /** What was read, and the bytes behind it. */
  datatype Loaded<+T> = Ok(v: T, rest: seq<byte>) | Err(e: Error) {
    predicate IsFailure() { Err? }
    function PropagateFailure<U>(): Loaded<U>
      requires Err?
    {
      Err(e)
    }
    function Extract(): (T, seq<byte>)
      requires Ok?
    {
      (v, rest)
    }
  }

  const MAXCCALLS := 200
  const INT_SIZE := 4
  const SIZE_SIZE := 8
  const NUMBER_SIZE := 8
  const WORD := 0x1_0000_0000
  const HALF := 0x8000_0000

  // ---------- Numbers ----------

  function Pow256(w: nat): nat { if w == 0 then 1 else 256 * Pow256(w - 1) }

  /** The w bytes of x, lowest first. */
  function Enc(w: nat, x: nat): (b: seq<byte>)
    ensures |b| == w
  {
    if w == 0 then [] else [x % 256] + Enc(w - 1, x / 256)
  }

  function Dec(b: seq<byte>): nat { if b == [] then 0 else b[0] + 256 * Dec(b[1..]) }

  lemma {:induction false} EncDec(w: nat, x: nat)
    requires x < Pow256(w)
    ensures Dec(Enc(w, x)) == x
    decreases w
  {
    if w > 0 {
      EncDec(w - 1, x / 256);
      assert Enc(w, x)[1..] == Enc(w - 1, x / 256);
    }
  }

  /** Two's complement. */
  function ToWord(x: int): nat
    requires -HALF <= x < HALF
  {
    if x < 0 then x + WORD else x
  }

  function FromWord(x: nat): int { if x >= HALF then x - WORD else x }

  // ---------- Reading ----------

  /** LoadBlock. */
  function LoadBlock(n: nat, b: seq<byte>): Loaded<seq<byte>> {
    if |b| < n then Err(UnexpectedEnd) else Ok(b[..n], b[n..])
  }

  function LoadWord(w: nat, b: seq<byte>): Loaded<nat> {
    var (t, b) :- LoadBlock(w, b);
    Ok(Dec(t), b)
  }

  function LoadChar(b: seq<byte>): Loaded<nat> { LoadWord(1, b) }

  /** LoadInt takes no negative numbers. */
  function LoadInt(b: seq<byte>): Loaded<nat> {
    var (x, b) :- LoadWord(INT_SIZE, b);
    if FromWord(x) < 0 then Err(BadInteger) else Ok(FromWord(x), b)
  }

  function ToChars(b: seq<byte>): string { seq(|b|, i requires 0 <= i < |b| => b[i] as char) }

  function LoadString(b: seq<byte>): Loaded<Text> {
    var (n, b) :- LoadWord(SIZE_SIZE, b);
    if n == 0 then Ok(None, b)
    else
      var (t, b) :- LoadBlock(n, b);
      Ok(Some(ToChars(t[..n - 1])), b)
  }

  /** n words of a vector, as they are. */
  function LoadWords(n: nat, b: seq<byte>): Loaded<seq<nat>> {
    if n == 0 then Ok([], b)
    else
      var (x, b) :- LoadWord(INT_SIZE, b);
      var (xs, b) :- LoadWords(n - 1, b);
      Ok([x] + xs, b)
  }

  function LoadVector(b: seq<byte>): Loaded<seq<nat>> {
    var (n, b) :- LoadInt(b);
    LoadWords(n, b)
  }

  function LoadConst(b: seq<byte>): Loaded<Const> {
    var (t, b) :- LoadChar(b);
    if t == 0 then Ok(Nil, b)
    else if t == 1 then var (x, b) :- LoadChar(b); Ok(Bool(x != 0), b)
    else if t == 3 then var (x, b) :- LoadBlock(NUMBER_SIZE, b); Ok(Number(x), b)
    else if t == 4 then var (x, b) :- LoadString(b); Ok(Str(x), b)
    else Err(BadConstant)
  }

  function LoadConsts(n: nat, b: seq<byte>): Loaded<seq<Const>> {
    if n == 0 then Ok([], b)
    else
      var (x, b) :- LoadConst(b);
      var (xs, b) :- LoadConsts(n - 1, b);
      Ok([x] + xs, b)
  }

  function LoadLocVar(b: seq<byte>): Loaded<LocVar> {
    var (v, b) :- LoadString(b);
    var (s, b) :- LoadInt(b);
    var (e, b) :- LoadInt(b);
    Ok(LocVar(v, s, e), b)
  }

  function LoadLocVars(n: nat, b: seq<byte>): Loaded<seq<LocVar>> {
    if n == 0 then Ok([], b)
    else
      var (x, b) :- LoadLocVar(b);
      var (xs, b) :- LoadLocVars(n - 1, b);
      Ok([x] + xs, b)
  }

  function LoadTexts(n: nat, b: seq<byte>): Loaded<seq<Text>> {
    if n == 0 then Ok([], b)
    else
      var (x, b) :- LoadString(b);
      var (xs, b) :- LoadTexts(n - 1, b);
      Ok([x] + xs, b)
  }

  /** LoadDebug: line numbers, local variables, names of upvalues. */
  function LoadDebug(b: seq<byte>): Loaded<(seq<int>, seq<LocVar>, seq<Text>)> {
    var (lines, b) :- LoadVector(b);
    var (n, b) :- LoadInt(b);
    var (vars, b) :- LoadLocVars(n, b);
    var (n, b) :- LoadInt(b);
    var (ups, b) :- LoadTexts(n, b);
    Ok((seq(|lines|, i requires 0 <= i < |lines| => FromWord(lines[i])), vars, ups), b)
  }

  /** The numbers in front of the code. */
  function LoadSizes(b: seq<byte>): Loaded<(int, int, int, int, int, int)> {
    var (line, b) :- LoadInt(b);
    var (last, b) :- LoadInt(b);
    var (nups, b) :- LoadChar(b);
    var (params, b) :- LoadChar(b);
    var (vararg, b) :- LoadChar(b);
    var (stack, b) :- LoadChar(b);
    Ok((line, last, nups, params, vararg, stack), b)
  }

  /** LoadFunction, at a depth of nested calls: a missing source is the one of the function around. */
  function LoadFunction(check: Proto -> bool, level: nat, p: string, b: seq<byte>): Loaded<Proto>
    decreases MAXCCALLS - level, 1, 0
  {
    if level >= MAXCCALLS then Err(TooDeep)
    else
      var (source, b) :- LoadString(b);
      var src := if source.None? then p else source.value;
      var (z, b) :- LoadSizes(b);
      var (code, b) :- LoadVector(b);
      var (n, b) :- LoadInt(b);
      var (k, b) :- LoadConsts(n, b);
      var (n, b) :- LoadInt(b);
      var (ps, b) :- LoadFunctions(check, level + 1, n, src, b);
      var (d, b) :- LoadDebug(b);
      var f := Proto(Some(src), z.0, z.1, z.2, z.3, z.4, z.5, code, k, ps, d.0, d.1, d.2);
      if check(f) then Ok(f, b) else Err(BadCode)
  }

  function LoadFunctions(check: Proto -> bool, level: nat, n: nat, p: string, b: seq<byte>): Loaded<seq<Proto>>
    requires level <= MAXCCALLS
    decreases MAXCCALLS - level, 2, n
  {
    if n == 0 then Ok([], b)
    else
      var (x, b) :- LoadFunction(check, level, p, b);
      var (xs, b) :- LoadFunctions(check, level, n - 1, p, b);
      Ok([x] + xs, b)
  }

  // ---------- Writing, in front of what is written next ----------

  function DumpInt(x: int, tail: seq<byte>): seq<byte>
    requires -HALF <= x < HALF
  {
    Enc(INT_SIZE, ToWord(x)) + tail
  }

  function DumpChar(x: int, tail: seq<byte>): seq<byte>
    requires 0 <= x < 256
  {
    Enc(1, x) + tail
  }

  function FromChars(s: string): seq<byte>
    requires Bytes(s)
  {
    seq(|s|, i requires 0 <= i < |s| => s[i] as int)
  }

  /** Characters are bytes. */
  predicate Bytes(s: string) { forall i :: 0 <= i < |s| ==> s[i] as int < 256 }

  predicate TextFits(t: Text) { t.Some? ==> Bytes(t.value) && |t.value| + 1 < WORD * WORD }

  /** A text is written with its length and a NUL, a missing one as length zero. */
  function DumpString(t: Text, tail: seq<byte>): seq<byte>
    requires TextFits(t)
  {
    if t.None? then Enc(SIZE_SIZE, 0) + tail
    else Enc(SIZE_SIZE, |t.value| + 1) + (FromChars(t.value) + ([0] + tail))
  }

  function DumpWords(xs: seq<int>, tail: seq<byte>): seq<byte>
    requires forall i :: 0 <= i < |xs| ==> 0 <= xs[i] < WORD
  {
    if xs == [] then tail else Enc(INT_SIZE, xs[0]) + DumpWords(xs[1..], tail)
  }

  predicate WordsFit(xs: seq<int>) { |xs| < HALF && forall i :: 0 <= i < |xs| ==> 0 <= xs[i] < WORD }

  function DumpVector(xs: seq<int>, tail: seq<byte>): seq<byte>
    requires WordsFit(xs)
  {
    DumpInt(|xs|, DumpWords(xs, tail))
  }

  predicate ConstFits(c: Const) {
    match c
    case Number(bits) => |bits| == NUMBER_SIZE
    case Str(t) => t.Some? && TextFits(t)
    case _ => true
  }

  function DumpConst(c: Const, tail: seq<byte>): seq<byte>
    requires ConstFits(c)
  {
    match c
    case Nil => DumpChar(0, tail)
    case Bool(b) => DumpChar(1, DumpChar(if b then 1 else 0, tail))
    case Number(bits) => DumpChar(3, bits + tail)
    case Str(t) => DumpChar(4, DumpString(t, tail))
  }

  function DumpConsts(cs: seq<Const>, tail: seq<byte>): seq<byte>
    requires forall c :: c in cs ==> ConstFits(c)
  {
    if cs == [] then tail else DumpConst(cs[0], DumpConsts(cs[1..], tail))
  }

  predicate LocVarFits(v: LocVar) { TextFits(v.varname) && 0 <= v.startpc < HALF && 0 <= v.endpc < HALF }

  function DumpLocVar(v: LocVar, tail: seq<byte>): seq<byte>
    requires LocVarFits(v)
  {
    DumpString(v.varname, DumpInt(v.startpc, DumpInt(v.endpc, tail)))
  }

  function DumpLocVars(vs: seq<LocVar>, tail: seq<byte>): seq<byte>
    requires forall v :: v in vs ==> LocVarFits(v)
  {
    if vs == [] then tail else DumpLocVar(vs[0], DumpLocVars(vs[1..], tail))
  }

  function DumpTexts(ts: seq<Text>, tail: seq<byte>): seq<byte>
    requires forall t :: t in ts ==> TextFits(t)
  {
    if ts == [] then tail else DumpString(ts[0], DumpTexts(ts[1..], tail))
  }

  predicate DebugFits(f: Proto) {
    && |f.lineinfo| < HALF && |f.locvars| < HALF && |f.upvalues| < HALF
    && (forall i :: 0 <= i < |f.lineinfo| ==> -HALF <= f.lineinfo[i] < HALF)
    && (forall v :: v in f.locvars ==> LocVarFits(v)) && (forall t :: t in f.upvalues ==> TextFits(t))
  }

  function LineWords(xs: seq<int>): (w: seq<int>)
    requires forall i :: 0 <= i < |xs| ==> -HALF <= xs[i] < HALF
    ensures |w| == |xs| && forall i :: 0 <= i < |w| ==> w[i] == ToWord(xs[i]) && 0 <= w[i] < WORD
  {
    seq(|xs|, i requires 0 <= i < |xs| => ToWord(xs[i]))
  }

  /** DumpDebug of a function that keeps its debug information. */
  function DumpDebug(f: Proto, tail: seq<byte>): seq<byte>
    requires DebugFits(f)
  {
    DumpVector(LineWords(f.lineinfo),
      DumpInt(|f.locvars|, DumpLocVars(f.locvars,
        DumpInt(|f.upvalues|, DumpTexts(f.upvalues, tail)))))
  }

  predicate SizesFit(f: Proto) {
    && 0 <= f.linedefined < HALF && 0 <= f.lastlinedefined < HALF
    && 0 <= f.nups < 256 && 0 <= f.numparams < 256 && 0 <= f.isVararg < 256 && 0 <= f.maxstacksize < 256
  }

  function DumpSizes(f: Proto, tail: seq<byte>): seq<byte>
    requires SizesFit(f)
  {
    DumpInt(f.linedefined, DumpInt(f.lastlinedefined,
      DumpChar(f.nups, DumpChar(f.numparams, DumpChar(f.isVararg, DumpChar(f.maxstacksize, tail))))))
  }

  predicate PartsFit(f: Proto) {
    && TextFits(f.source) && SizesFit(f) && DebugFits(f) && WordsFit(f.code)
    && |f.k| < HALF && (forall c :: c in f.k ==> ConstFits(c)) && |f.p| < HALF
  }

  /** Every number in the tree has room in the field it is written to. */
  predicate Fits(f: Proto)
    decreases f
  {
    PartsFit(f) && forall i :: 0 <= i < |f.p| ==> Fits(f.p[i])
  }

  /** DumpFunction: the source is left out when it is that of the function around. */
  function DumpFunction(f: Proto, p: Text, tail: seq<byte>): seq<byte>
    requires Fits(f)
    decreases f, 1, 0
  {
    DumpString(if f.source == p then None else f.source,
      DumpSizes(f, DumpVector(f.code,
        DumpInt(|f.k|, DumpConsts(f.k,
          DumpInt(|f.p|, DumpFunctions(f, 0,
            DumpDebug(f, tail))))))))
  }

  /** The nested functions from i on. */
  function DumpFunctions(f: Proto, i: nat, tail: seq<byte>): seq<byte>
    requires Fits(f) && i <= |f.p|
    decreases f, 0, |f.p| - i
  {
    if i == |f.p| then tail else DumpFunction(f.p[i], f.source, DumpFunctions(f, i + 1, tail))
  }

  // ---------- Reading back what was written ----------

  lemma PowSizes()
    ensures Pow256(1) == 256 && Pow256(INT_SIZE) == WORD && Pow256(SIZE_SIZE) == WORD * WORD
  {
    assert Pow256(2) == 65536;
    assert Pow256(3) == 16777216;
    assert Pow256(4) == WORD;
    assert Pow256(5) == 256 * WORD;
    assert Pow256(6) == 65536 * WORD;
    assert Pow256(7) == 16777216 * WORD;
  }

  lemma WordBack(w: nat, x: nat, tail: seq<byte>)
    requires x < Pow256(w)
    ensures LoadWord(w, Enc(w, x) + tail) == Ok(x, tail)
  {
    EncDec(w, x);
    var b := Enc(w, x) + tail;
    assert b[..w] == Enc(w, x) && b[w..] == tail;
  }

  lemma IntBack(x: nat, tail: seq<byte>)
    requires x < HALF
    ensures LoadInt(DumpInt(x, tail)) == Ok(x, tail)
  {
    PowSizes();
    WordBack(INT_SIZE, x, tail);
  }

  lemma CharBack(x: nat, tail: seq<byte>)
    requires x < 256
    ensures LoadChar(DumpChar(x, tail)) == Ok(x, tail)
  {
    PowSizes();
    WordBack(1, x, tail);
  }

  lemma CharsBack(s: string, tail: seq<byte>)
    requires Bytes(s)
    ensures var b := FromChars(s) + ([0] + tail);
      |b| > |s| && ToChars(b[..|s| + 1][..|s|]) == s && b[|s| + 1..] == tail
  {
    var c := FromChars(s);
    assert (c + ([0] + tail))[..|s| + 1][..|s|] == c;
    assert ToChars(c) == s;
  }

  lemma StringBack(t: Text, tail: seq<byte>)
    requires TextFits(t)
    ensures LoadString(DumpString(t, tail)) == Ok(t, tail)
  {
    PowSizes();
    hide Enc, LoadWord, Pow256;
    if t.Some? {
      var c := FromChars(t.value);
      WordBack(SIZE_SIZE, |t.value| + 1, c + ([0] + tail));
      CharsBack(t.value, tail);
    } else {
      WordBack(SIZE_SIZE, 0, tail);
    }
  }

  lemma {:induction false} WordsBack(xs: seq<int>, tail: seq<byte>)
    requires forall i :: 0 <= i < |xs| ==> 0 <= xs[i] < WORD
    ensures LoadWords(|xs|, DumpWords(xs, tail)) == Ok(xs, tail)
    decreases |xs|
  {
    if xs != [] {
      PowSizes();
      WordBack(INT_SIZE, xs[0], DumpWords(xs[1..], tail));
      WordsBack(xs[1..], tail);
      assert [xs[0]] + xs[1..] == xs;
    }
  }

  lemma VectorBack(xs: seq<int>, tail: seq<byte>)
    requires WordsFit(xs)
    ensures LoadVector(DumpVector(xs, tail)) == Ok(xs, tail)
  {
    IntBack(|xs|, DumpWords(xs, tail));
    WordsBack(xs, tail);
  }

  lemma ConstBack(c: Const, tail: seq<byte>)
    requires ConstFits(c)
    ensures LoadConst(DumpConst(c, tail)) == Ok(c, tail)
  {
    hide LoadChar, DumpChar, LoadString, DumpString;
    match c {
      case Nil =>
        CharBack(0, tail);
      case Bool(b) =>
        var x := if b then 1 else 0;
        CharBack(1, DumpChar(x, tail));
        CharBack(x, tail);
      case Number(bits) =>
        CharBack(3, bits + tail);
        assert (bits + tail)[..NUMBER_SIZE] == bits && (bits + tail)[NUMBER_SIZE..] == tail;
      case Str(t) =>
        CharBack(4, DumpString(t, tail));
        StringBack(t, tail);
    }
  }

  lemma {:induction false} ConstsBack(cs: seq<Const>, tail: seq<byte>)
    requires forall c :: c in cs ==> ConstFits(c)
    ensures LoadConsts(|cs|, DumpConsts(cs, tail)) == Ok(cs, tail)
    decreases |cs|
  {
    hide LoadConst, DumpConst, ConstFits;
    if cs != [] {
      ConstBack(cs[0], DumpConsts(cs[1..], tail));
      ConstsBack(cs[1..], tail);
      assert [cs[0]] + cs[1..] == cs;
    }
  }

  lemma {:induction false} LocVarsBack(vs: seq<LocVar>, tail: seq<byte>)
    requires forall v :: v in vs ==> LocVarFits(v)
    ensures LoadLocVars(|vs|, DumpLocVars(vs, tail)) == Ok(vs, tail)
    decreases |vs|
  {
    hide LoadLocVar, DumpLocVar, LocVarFits;
    if vs != [] {
      LocVarBack(vs[0], DumpLocVars(vs[1..], tail));
      LocVarsBack(vs[1..], tail);
      assert [vs[0]] + vs[1..] == vs;
    }
  }

  lemma LocVarBack(v: LocVar, tail: seq<byte>)
    requires LocVarFits(v)
    ensures LoadLocVar(DumpLocVar(v, tail)) == Ok(v, tail)
  {
    hide LoadString, DumpString, LoadInt, DumpInt, TextFits;
    StringBack(v.varname, DumpInt(v.startpc, DumpInt(v.endpc, tail)));
    IntBack(v.startpc, DumpInt(v.endpc, tail));
    IntBack(v.endpc, tail);
  }

  lemma {:induction false} TextsBack(ts: seq<Text>, tail: seq<byte>)
    requires forall t :: t in ts ==> TextFits(t)
    ensures LoadTexts(|ts|, DumpTexts(ts, tail)) == Ok(ts, tail)
    decreases |ts|
  {
    hide LoadString, DumpString, TextFits;
    if ts != [] {
      StringBack(ts[0], DumpTexts(ts[1..], tail));
      TextsBack(ts[1..], tail);
      assert [ts[0]] + ts[1..] == ts;
    }
  }

  lemma DebugBack(f: Proto, tail: seq<byte>)
    requires DebugFits(f)
    ensures LoadDebug(DumpDebug(f, tail)) == Ok((f.lineinfo, f.locvars, f.upvalues), tail)
  {
    hide LoadVector, DumpVector, LoadInt, DumpInt, LoadLocVars, DumpLocVars, LoadTexts, DumpTexts, TextFits, LocVarFits;
    var t2 := DumpTexts(f.upvalues, tail);
    var t1 := DumpLocVars(f.locvars, DumpInt(|f.upvalues|, t2));
    var w := LineWords(f.lineinfo);
    VectorBack(w, DumpInt(|f.locvars|, t1));
    IntBack(|f.locvars|, t1);
    LocVarsBack(f.locvars, DumpInt(|f.upvalues|, t2));
    IntBack(|f.upvalues|, t2);
    TextsBack(f.upvalues, tail);
    assert seq(|w|, i requires 0 <= i < |w| => FromWord(w[i])) == f.lineinfo;
  }

  lemma SizesBack(f: Proto, tail: seq<byte>)
    requires SizesFit(f)
    ensures LoadSizes(DumpSizes(f, tail)) ==
      Ok((f.linedefined, f.lastlinedefined, f.nups, f.numparams, f.isVararg, f.maxstacksize), tail)
  {
    hide LoadInt, DumpInt, LoadChar, DumpChar;
    var t4 := DumpChar(f.maxstacksize, tail);
    var t3 := DumpChar(f.isVararg, t4);
    var t2 := DumpChar(f.numparams, t3);
    var t1 := DumpChar(f.nups, t2);
    IntBack(f.linedefined, DumpInt(f.lastlinedefined, t1));
    IntBack(f.lastlinedefined, t1);
    CharBack(f.nups, t2);
    CharBack(f.numparams, t3);
    CharBack(f.isVararg, t4);
    CharBack(f.maxstacksize, tail);
  }

  // ---------- Whole trees ----------

  /** Missing sources are filled in from the function around. */
  function Inherit(f: Proto, q: string): Proto
    decreases f, 1, 0
  {
    var s := if f.source.None? then q else f.source.value;
    f.(source := Some(s), p := InheritAll(f, 0, s))
  }

  function InheritAll(f: Proto, i: nat, s: string): (ps: seq<Proto>)
    requires i <= |f.p|
    ensures |ps| == |f.p| - i
    decreases f, 0, |f.p| - i
  {
    if i == |f.p| then [] else [Inherit(f.p[i], s)] + InheritAll(f, i + 1, s)
  }

  /** The tree is not too deep, and the checker accepts every function in it. */
  predicate Accepted(check: Proto -> bool, level: nat, f: Proto)
    decreases f
  {
    level < MAXCCALLS && check(f) && forall i :: 0 <= i < |f.p| ==> Accepted(check, level + 1, f.p[i])
  }

  /** What a load of f must give: the tree with its sources, or an error. */
  ghost predicate LoadsAs<T(!new)>(r: Loaded<T>, good: bool, v: T, tail: seq<byte>) {
    if good then r == Ok(v, tail) else r.Err?
  }

  lemma {:induction false} InheritAt(f: Proto, i: nat, s: string)
    requires i <= |f.p|
    ensures forall j :: i <= j < |f.p| ==> InheritAll(f, i, s)[j - i] == Inherit(f.p[j], s)
    decreases |f.p| - i
  {
    if i < |f.p| {
      InheritAt(f, i + 1, s);
    }
  }

  /** The functions from i on can be loaded. */
  ghost predicate AcceptedFrom(check: Proto -> bool, level: nat, f: Proto, i: nat, s: string) {
    forall j :: i <= j < |f.p| ==> Accepted(check, level, Inherit(f.p[j], s))
  }

  /** p is the source of the function around as dumped, q as loaded. */
  lemma {:induction false} FunctionBack(check: Proto -> bool, level: nat, f: Proto, p: Text, q: string, tail: seq<byte>)
    requires Fits(f) && (p.None? || p == Some(q))
    ensures LoadsAs(LoadFunction(check, level, q, DumpFunction(f, p, tail)), Accepted(check, level, Inherit(f, q)), Inherit(f, q), tail)
    decreases f, 1, 0
  {
    if level < MAXCCALLS {
      var s := if f.source.None? then q else f.source.value;
      AcceptedBody(check, level, f, q, s);
      hide Fits, DumpFunction, LoadFunction, Accepted, Inherit, AcceptedFrom;
      BodyBack(check, level, f, p, q, s, tail);
    } else {
      hide Fits, DumpFunction, Inherit;
    }
  }

  lemma AcceptedBody(check: Proto -> bool, level: nat, f: Proto, q: string, s: string)
    requires level < MAXCCALLS && Fits(f) && s == if f.source.None? then q else f.source.value
    ensures PartsFit(f)
    ensures Accepted(check, level, Inherit(f, q)) <==> AcceptedFrom(check, level + 1, f, 0, s) && check(Inherit(f, q))
  {
    InheritParts(f, q, s);
    hide PartsFit, Inherit, Accepted, AcceptedFrom;
    AcceptedAll(check, level, f, Inherit(f, q), s);
  }

  lemma InheritParts(f: Proto, q: string, s: string)
    requires s == if f.source.None? then q else f.source.value
    ensures |Inherit(f, q).p| == |f.p| && forall j :: 0 <= j < |f.p| ==> Inherit(f, q).p[j] == Inherit(f.p[j], s)
  {
    InheritAt(f, 0, s);
    var f1 := Inherit(f, q);
    assert f1.p == InheritAll(f, 0, s);
    hide InheritAll;
    forall j | 0 <= j < |f.p|
      ensures f1.p[j] == Inherit(f.p[j], s)
    {
      assert InheritAll(f, 0, s)[j - 0] == Inherit(f.p[j], s);
    }
  }

  lemma AcceptedAll(check: Proto -> bool, level: nat, f: Proto, f1: Proto, s: string)
    requires level < MAXCCALLS && |f1.p| == |f.p| && forall j :: 0 <= j < |f.p| ==> f1.p[j] == Inherit(f.p[j], s)
    ensures Accepted(check, level, f1) <==> AcceptedFrom(check, level + 1, f, 0, s) && check(f1)
  {
    hide Inherit;
    if Accepted(check, level, f1) {
      forall j | 0 <= j < |f.p|
        ensures Accepted(check, level + 1, Inherit(f.p[j], s))
      {
        assert Accepted(check, level + 1, f1.p[j]);
      }
    }
  }

  lemma FitsChild(f: Proto, i: nat)
    requires Fits(f) && i < |f.p|
    ensures Fits(f.p[i])
  {
    hide PartsFit;
  }

  lemma SourceBack(f: Proto, p: Text, tail: seq<byte>)
    requires TextFits(f.source)
    ensures var src := if f.source == p then None else f.source;
      TextFits(src) && LoadString(DumpString(src, tail)) == Ok(src, tail)
  {
    StringBack(if f.source == p then None else f.source, tail);
    hide LoadString, DumpString;
  }

  /** The fields of one function. */
  lemma {:induction false} BodyBack(check: Proto -> bool, level: nat, f: Proto, p: Text, q: string, s: string, tail: seq<byte>)
    requires level < MAXCCALLS && Fits(f) && PartsFit(f) && (p.None? || p == Some(q)) && s == if f.source.None? then q else f.source.value
    ensures var f1 := Inherit(f, q);
      LoadsAs(LoadFunction(check, level, q, DumpFunction(f, p, tail)), AcceptedFrom(check, level + 1, f, 0, s) && check(f1), f1, tail)
    decreases f, 0, |f.p| + 1
  {
    hide LoadString, DumpString, LoadSizes, DumpSizes, LoadVector, DumpVector, LoadInt, DumpInt, LoadConsts, DumpConsts,
      LoadFunctions, DumpFunctions, LoadDebug, DumpDebug, TextFits, SizesFit, WordsFit, DebugFits, ConstFits, Fits, AcceptedFrom,
      InheritAll;
    var t5 := DumpDebug(f, tail);
    var t4 := DumpFunctions(f, 0, t5);
    var t3 := DumpInt(|f.p|, t4);
    var t2 := DumpConsts(f.k, t3);
    var t1 := DumpInt(|f.k|, t2);
    var t0 := DumpVector(f.code, t1);
    SourceBack(f, p, DumpSizes(f, t0));
    SizesBack(f, t0);
    VectorBack(f.code, t1);
    IntBack(|f.k|, t2);
    ConstsBack(f.k, t3);
    IntBack(|f.p|, t4);
    FunctionsBack(check, level + 1, f, 0, s, t5);
    DebugBack(f, tail);
  }

  lemma {:induction false} FunctionsBack(check: Proto -> bool, level: nat, f: Proto, i: nat, s: string, tail: seq<byte>)
    requires Fits(f) && i <= |f.p| && level <= MAXCCALLS && (f.source.None? || f.source == Some(s))
    ensures LoadsAs(LoadFunctions(check, level, |f.p| - i, s, DumpFunctions(f, i, tail)), AcceptedFrom(check, level, f, i, s), InheritAll(f, i, s), tail)
    decreases f, 0, |f.p| - i
  {
    hide LoadFunction, DumpFunction, Fits, Accepted, Inherit;
    if i < |f.p| {
      FitsChild(f, i);
      var t := DumpFunctions(f, i + 1, tail);
      FunctionBack(check, level, f.p[i], f.source, s, t);
      FunctionsBack(check, level, f, i + 1, s, tail);
      assert AcceptedFrom(check, level, f, i, s) <==> Accepted(check, level, Inherit(f.p[i], s)) && AcceptedFrom(check, level, f, i + 1, s);
    }
  }

  // ---------- Whole chunks ----------

  /** luaU_header: the signature, version 5.1, the official format, little endian, the sizes of
      int, size_t, instructions and numbers, and that numbers are not integral. */
  const HEADER: seq<byte> := [27, 76, 117, 97, 0x51, 0, 1, INT_SIZE, SIZE_SIZE, INT_SIZE, NUMBER_SIZE, 0]

  const NO_SOURCE := "=?"

  /** luaU_dump of a function that keeps its debug information. */
  function Dump(f: Proto): seq<byte>
    requires Fits(f)
  {
    HEADER + DumpFunction(f, None, [])
  }

  /** luaU_undump. */
  function Undump(check: Proto -> bool, level: nat, b: seq<byte>): Loaded<Proto> {
    var (h, b) :- LoadBlock(|HEADER|, b);
    if h != HEADER then Err(BadHeader) else LoadFunction(check, level, NO_SOURCE, b)
  }

  /** Loading what was dumped gives back the tree, with missing sources filled in, exactly if
      the functions are accepted; otherwise it is an error. */
  lemma RoundTrip(check: Proto -> bool, level: nat, f: Proto)
    requires Fits(f)
    ensures var f1 := Inherit(f, NO_SOURCE);
      Undump(check, level, Dump(f)) == Ok(f1, []) <==> Accepted(check, level, f1)
    ensures Undump(check, level, Dump(f)).Ok? <==> Accepted(check, level, Inherit(f, NO_SOURCE))
  {
    var b := DumpFunction(f, None, []);
    assert (HEADER + b)[..|HEADER|] == HEADER && (HEADER + b)[|HEADER|..] == b;
    FunctionBack(check, level, f, None, NO_SOURCE, []);
    hide LoadFunction, DumpFunction, Accepted, Inherit, Fits;
  }

  /** Every function names its source. */
  predicate Named(f: Proto)
    decreases f
  {
    f.source.Some? && forall i :: 0 <= i < |f.p| ==> Named(f.p[i])
  }

  /** The tree is the same exactly if no source was missing. */
  lemma {:induction false} InheritSame(f: Proto, q: string)
    ensures Inherit(f, q) == f <==> Named(f)
    decreases f, 1, 0
  {
    if f.source.Some? {
      InheritAllSame(f, 0, f.source.value);
      assert f.p[0..] == f.p;
    }
  }

  lemma {:induction false} InheritAllSame(f: Proto, i: nat, s: string)
    requires i <= |f.p|
    ensures InheritAll(f, i, s) == f.p[i..] <==> forall j :: i <= j < |f.p| ==> Named(f.p[j])
    decreases f, 0, |f.p| - i
  {
    if i < |f.p| {
      InheritSame(f.p[i], s);
      InheritAllSame(f, i + 1, s);
      hide Inherit, Named;
      assert f.p[i..] == [f.p[i]] + f.p[i + 1..];
      assert InheritAll(f, i, s)[0] == Inherit(f.p[i], s) && InheritAll(f, i, s)[1..] == InheritAll(f, i + 1, s);
      assert f.p[i..][0] == f.p[i] && f.p[i..][1..] == f.p[i + 1..];
    }
  }

  /** A tree whose functions all name their sources comes back as it was. */
  lemma SameTree(check: Proto -> bool, level: nat, f: Proto)
    requires Fits(f) && Named(f)
    ensures Undump(check, level, Dump(f)) == Ok(f, []) <==> Accepted(check, level, f)
  {
    RoundTrip(check, level, f);
    InheritSame(f, NO_SOURCE);
    hide Undump, Dump, Accepted, Inherit, Fits, Named;
  }

  // ---------- Stripped chunks ----------

  /** What is left of a function without debug information. */
  function Strip(f: Proto): Proto
    decreases f, 1, 0
  {
    f.(source := None, p := StripAll(f, 0), lineinfo := [], locvars := [], upvalues := [])
  }

  function StripAll(f: Proto, i: nat): (ps: seq<Proto>)
    requires i <= |f.p|
    ensures |ps| == |f.p| - i && forall j :: i <= j < |f.p| ==> ps[j - i] == Strip(f.p[j])
    decreases f, 0, |f.p| - i
  {
    if i == |f.p| then [] else [Strip(f.p[i])] + StripAll(f, i + 1)
  }

  lemma {:induction false} StripFits(f: Proto)
    requires Fits(f)
    ensures Fits(Strip(f))
    decreases f
  {
    var g := Strip(f);
    forall i | 0 <= i < |g.p|
      ensures Fits(g.p[i])
    {
      assert g.p[i - 0] == Strip(f.p[i]);
      StripFits(f.p[i]);
    }
  }

  /** A stripped function comes back without names, its source unknown. */
  lemma StrippedBack(check: Proto -> bool, level: nat, f: Proto)
    requires Fits(f)
    ensures Fits(Strip(f)) && var f1 := Inherit(Strip(f), NO_SOURCE);
      Undump(check, level, Dump(Strip(f))) == Ok(f1, []) <==> Accepted(check, level, f1)
  {
    StripFits(f);
    RoundTrip(check, level, Strip(f));
    hide Undump, Dump, Accepted, Inherit, Fits, Strip;
  }
}
