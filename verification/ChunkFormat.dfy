/** The bytes of a precompiled chunk: what stands where, said of the bytes written and of the
    bytes read without the other side. */
module ChunkFormat {
  import opened Options
  import opened BinaryChunk

  // ---------- Integers ----------

  /** The four bytes from i on as a number, lowest first. */
  function Four(b: seq<byte>, i: nat): nat
    requires i + 4 <= |b|
  {
    b[i] as int + 0x100 * b[i+1] as int + 0x1_0000 * b[i+2] as int + 0x100_0000 * b[i+3] as int
  }

  /** The eight bytes from i on as a number. */
  function Eight(b: seq<byte>, i: nat): nat
    requires i + 8 <= |b|
  {
    Four(b, i) + 0x1_0000_0000 * Four(b, i + 4)
  }

  lemma DecFirst(b: seq<byte>)
    requires b != []
    ensures Dec(b) == b[0] + 256 * Dec(b[1..])
  {}

  /** What is read from four bytes. */
  lemma DecFour(b: seq<byte>)
    requires |b| >= 4
    ensures Dec(b) == Four(b, 0) + 0x1_0000_0000 * Dec(b[4..])
  {
    var c, d, e := b[1..], b[2..], b[3..];
    assert c[1..] == d && d[1..] == e && e[1..] == b[4..];
    DecFirst(b);
    DecFirst(c);
    DecFirst(d);
    DecFirst(e);
    hide Dec;
  }

  lemma WordRead(b: seq<byte>)
    requires |b| >= 4
    ensures LoadWord(INT_SIZE, b) == Ok(Four(b, 0), b[4..])
  {
    DecFour(b[..4]);
    assert b[..4][4..] == [];
  }

  /** A negative number is refused. */
  lemma IntRead(b: seq<byte>)
    requires |b| >= 4
    ensures LoadInt(b) == if Four(b, 0) < 0x8000_0000 then Ok(Four(b, 0), b[4..]) else Err(BadInteger)
  {
    WordRead(b);
    hide LoadWord;
  }

  lemma SizeRead(b: seq<byte>)
    requires |b| >= 8
    ensures LoadWord(SIZE_SIZE, b) == Ok(Eight(b, 0), b[8..])
  {
    var s := b[..8];
    DecFour(s);
    DecFour(s[4..]);
    assert s[4..][4..] == [];
  }

  /** What is written for a number of four bytes. */
  lemma FourWritten(x: nat)
    requires x < 0x1_0000_0000
    ensures Four(Enc(INT_SIZE, x), 0) == x
  {
    PowSizes();
    EncDec(INT_SIZE, x);
    DecFour(Enc(INT_SIZE, x));
    assert Enc(INT_SIZE, x)[4..] == [];
  }

  lemma EightWritten(x: nat)
    requires x < 0x1_0000_0000 * 0x1_0000_0000
    ensures Eight(Enc(SIZE_SIZE, x), 0) == x
  {
    PowSizes();
    EncDec(SIZE_SIZE, x);
    DecFour(Enc(SIZE_SIZE, x));
    DecFour(Enc(SIZE_SIZE, x)[4..]);
    assert Enc(SIZE_SIZE, x)[4..][4..] == [];
  }

  /** Negative numbers are written in two's complement. */
  lemma IntWritten(x: int, tail: seq<byte>)
    requires -HALF <= x < HALF
    ensures var b := DumpInt(x, tail);
      |b| == 4 + |tail| && b[4..] == tail && Four(b, 0) == if x < 0 then x + 0x1_0000_0000 else x
  {
    FourWritten(ToWord(x));
    FourSame(Enc(INT_SIZE, ToWord(x)), tail);
    hide Enc;
  }

  lemma FourSame(a: seq<byte>, tail: seq<byte>)
    requires |a| >= 4
    ensures Four(a + tail, 0) == Four(a, 0)
  {}

  lemma EightSame(a: seq<byte>, tail: seq<byte>)
    requires |a| >= 8
    ensures Eight(a + tail, 0) == Eight(a, 0)
  {}

  // ---------- Strings ----------

  /** Length with the NUL, characters, NUL; no string is length zero. */
  lemma StringWritten(t: Text, tail: seq<byte>)
    requires TextFits(t)
    ensures var b := DumpString(t, tail);
      if t.None? then |b| == 8 + |tail| && Eight(b, 0) == 0 && b[8..] == tail
      else
        var n := |t.value|;
        && |b| == 9 + n + |tail| && Eight(b, 0) == n + 1
        && (forall i :: 0 <= i < n ==> b[8 + i] == t.value[i] as int)
        && b[8 + n] == 0 && b[9 + n..] == tail
  {
    var x := if t.None? then 0 else |t.value| + 1;
    EightWritten(x);
    hide Enc, Four;
    EightSame(Enc(SIZE_SIZE, x), if t.None? then tail else FromChars(t.value) + ([0] + tail));
    if t.Some? {
      assert DumpString(t, tail) == Enc(SIZE_SIZE, x) + FromChars(t.value) + [0] + tail;
    }
  }

  /** What is read as a string; the last of its bytes is left out. */
  lemma StringRead(b: seq<byte>)
    requires |b| >= 8
    ensures var n := Eight(b, 0);
      LoadString(b) ==
      if n == 0 then Ok(None, b[8..])
      else if |b| < 8 + n then Err(UnexpectedEnd)
      else Ok(Some(ToChars(b[8..7 + n])), b[8 + n..])
  {
    SizeRead(b);
    hide LoadWord, Four;
    var n := Eight(b, 0);
    if 0 < n && 8 + n <= |b| {
      assert b[8..][..n][..n - 1] == b[8..7 + n] && b[8..][n..] == b[8 + n..];
    }
  }

  // ---------- Constants ----------

  /** The type of a constant as in the header of the core: nil, boolean, number, string. */
  function Tag(c: Const): byte {
    match c
    case Nil => 0
    case Bool(_) => 1
    case Number(_) => 3
    case Str(_) => 4
  }

  /** The first byte of a constant is its type, and its value stands behind it. */
  lemma ConstWritten(c: Const, tail: seq<byte>)
    requires ConstFits(c)
    ensures DumpConst(c, tail) == [Tag(c)] +
      match c
      case Nil => tail
      case Bool(b) => [if b then 1 else 0] + tail
      case Number(bits) => bits + tail
      case Str(t) => DumpString(t, tail)
  {
    hide DumpString;
    assert forall x: byte :: Enc(1, x) == [x];
    hide Enc;
  }

  lemma CharWritten(c: byte, tail: seq<byte>)
    ensures DumpChar(c, tail) == [c] + tail
  {
    assert Enc(1, c) == [c];
  }

  lemma CharRead(b: seq<byte>)
    ensures LoadChar(b) == if b == [] then Err(UnexpectedEnd) else Ok(b[0], b[1..])
  {
    if b != [] {
      DecFirst(b[..1]);
      assert b[..1][1..] == [];
    }
  }

  /** The constant that a first byte announces. */
  lemma ConstRead(b: seq<byte>)
    requires b != []
    ensures LoadConst(b) ==
      match b[0]
      case 0 => Ok(Nil, b[1..])
      case 1 => if |b| < 2 then Err(UnexpectedEnd) else Ok(Bool(b[1] != 0), b[2..])
      case 3 => if |b| < 9 then Err(UnexpectedEnd) else Ok(Number(b[1..9]), b[9..])
      case 4 => (match LoadString(b[1..]) case Ok(t, rest) => Ok(Str(t), rest) case Err(e) => Err(e))
      case _ => Err(BadConstant)
  {
    CharRead(b);
    CharRead(b[1..]);
    hide LoadChar, LoadString;
    assert |b| >= 2 ==> b[1..][1..] == b[2..];
    assert |b| >= 9 ==> b[1..][..8] == b[1..9] && b[1..][8..] == b[9..];
  }

  // ---------- Functions ----------

  /** How many bytes the source takes. */
  function SourceSize(t: Text): nat { if t.None? then 8 else 9 + |t.value| }

  /** The fixed fields of a function stand behind its source, in this order. */
  ghost predicate FieldsAt(b: seq<byte>, n: nat, line: int, last: int, nups: int, numparams: int, isVararg: int, maxstacksize: int) {
    && n + 12 <= |b| && Four(b, n) == line && Four(b, n + 4) == last
    && b[n + 8] == nups && b[n + 9] == numparams && b[n + 10] == isVararg && b[n + 11] == maxstacksize
  }

  lemma FieldsWritten(f: Proto, tail: seq<byte>)
    requires SizesFit(f)
    ensures var b := DumpSizes(f, tail);
      && FieldsAt(b, 0, f.linedefined, f.lastlinedefined, f.nups, f.numparams, f.isVararg, f.maxstacksize)
      && b[12..] == tail
  {
    CharsWritten(f.nups, f.numparams, f.isVararg, f.maxstacksize, tail);
    var chars: seq<byte> := [f.nups, f.numparams, f.isVararg, f.maxstacksize];
    var t := chars + tail;
    IntWritten(f.lastlinedefined, t);
    var u := DumpInt(f.lastlinedefined, t);
    IntWritten(f.linedefined, u);
    assert DumpSizes(f, tail) == DumpInt(f.linedefined, u);
    hide Enc, DumpInt, DumpChar, DumpSizes, Four;
    var b := DumpSizes(f, tail);
    BehindTwo(b, u, t);
    FourShift(b, 4);
  }

  lemma CharsWritten(w: byte, x: byte, y: byte, z: byte, tail: seq<byte>)
    ensures DumpChar(w, DumpChar(x, DumpChar(y, DumpChar(z, tail)))) == [w, x, y, z] + tail
  {
    CharWritten(z, tail);
    CharWritten(y, [z] + tail);
    CharWritten(x, [y, z] + tail);
    CharWritten(w, [x, y, z] + tail);
    hide DumpChar;
    assert [y] + ([z] + tail) == [y, z] + tail && [x] + ([y, z] + tail) == [x, y, z] + tail;
    assert [w] + ([x, y, z] + tail) == [w, x, y, z] + tail;
  }

  lemma BehindTwo(b: seq<byte>, u: seq<byte>, t: seq<byte>)
    requires |b| >= 4 && b[4..] == u && |u| >= 4 && u[4..] == t
    ensures |b| == 8 + |t| && b[8..] == t && forall i :: 0 <= i < |t| ==> b[8 + i] == t[i]
  {
    assert b[4..][4..] == b[8..];
    forall i | 0 <= i < |t|
      ensures b[8 + i] == t[i]
    {
      assert b[8..][i] == b[8 + i];
    }
  }

  lemma FourShift(b: seq<byte>, i: nat)
    requires i + 4 <= |b|
    ensures Four(b, i) == Four(b[i..], 0)
  {}

  /** A function begins with its source, which is left out when it is that of the function around. */
  lemma FunctionWritten(f: Proto, p: Text, tail: seq<byte>)
    requires Fits(f)
    ensures var b := DumpFunction(f, p, tail);
      var source := if f.source == p then None else f.source;
      var n := SourceSize(source);
      && n <= |b| && b == DumpString(source, b[n..])
      && FieldsAt(b, n, f.linedefined, f.lastlinedefined, f.nups, f.numparams, f.isVararg, f.maxstacksize)
  {
    var source := if f.source == p then None else f.source;
    var n := SourceSize(source);
    var inner := DumpVector(f.code, DumpInt(|f.k|, DumpConsts(f.k, DumpInt(|f.p|, DumpFunctions(f, 0, DumpDebug(f, tail))))));
    var u := DumpSizes(f, inner);
    assert DumpFunction(f, p, tail) == DumpString(source, u);
    StringWritten(source, u);
    FieldsWritten(f, inner);
    hide *;
    FieldsBehind(DumpString(source, u), n, f);
  }

  lemma FieldsBehind(b: seq<byte>, n: nat, f: Proto)
    requires n <= |b| && FieldsAt(b[n..], 0, f.linedefined, f.lastlinedefined, f.nups, f.numparams, f.isVararg, f.maxstacksize)
    ensures FieldsAt(b, n, f.linedefined, f.lastlinedefined, f.nups, f.numparams, f.isVararg, f.maxstacksize)
  {}

  lemma SizesRead(b: seq<byte>)
    requires LoadSizes(b).Ok?
    ensures var z := LoadSizes(b).v; FieldsAt(b, 0, z.0, z.1, z.2, z.3, z.4, z.5)
  {
    BlockRead(b);
    IntRead(b);
    var c := b[4..];
    BlockRead(c);
    IntRead(c);
    var d := c[4..];
    CharsRead(d);
    hide LoadInt, LoadChar, Four;
    BehindTwo(b, c, d);
    FourShift(b, 4);
  }

  lemma BlockRead(b: seq<byte>)
    ensures LoadInt(b).Ok? ==> |b| >= 4
  {}

  lemma CharsRead(b: seq<byte>)
    ensures LoadChar(b).Ok? ==> b != [] && LoadChar(b) == Ok(b[0], b[1..])
    ensures |b| >= 1 && LoadChar(b[1..]).Ok? ==> |b| >= 2 && LoadChar(b[1..]) == Ok(b[1], b[2..])
    ensures |b| >= 2 && LoadChar(b[2..]).Ok? ==> |b| >= 3 && LoadChar(b[2..]) == Ok(b[2], b[3..])
    ensures |b| >= 3 && LoadChar(b[3..]).Ok? ==> |b| >= 4 && LoadChar(b[3..]) == Ok(b[3], b[4..])
  {
    forall i | 0 <= i < 4 && i <= |b|
      ensures LoadChar(b[i..]).Ok? ==> |b| > i && LoadChar(b[i..]) == Ok(b[i], b[i + 1..])
    {
      CharRead(b[i..]);
      assert |b| > i ==> b[i..][1..] == b[i + 1..];
    }
    hide LoadChar;
    assert b[0..] == b;
  }

  /** A function that is loaded has the source and the fields that stand in front. */
  lemma FunctionRead(check: Proto -> bool, level: nat, p: string, b: seq<byte>)
    requires LoadFunction(check, level, p, b).Ok?
    ensures |b| >= 8 && var f, n := LoadFunction(check, level, p, b).v, 8 + Eight(b, 0);
      && n <= |b| && f.source == Some(if n == 8 then p else ToChars(b[8..n - 1]))
      && FieldsAt(b, n, f.linedefined, f.lastlinedefined, f.nups, f.numparams, f.isVararg, f.maxstacksize)
  {
    hide LoadWord, LoadSizes, LoadVector, LoadConsts, LoadFunctions, LoadDebug, LoadInt, FieldsAt, Four, LoadString;
    assert LoadString(b).Ok?;
    StringLong(b);
    StringRead(b);
    var n := 8 + Eight(b, 0);
    assert LoadSizes(b[n..]).Ok?;
    SizesRead(b[n..]);
    var f := LoadFunction(check, level, p, b).v;
    FieldsThere(b, n, f.linedefined, f.lastlinedefined, f.nups, f.numparams, f.isVararg, f.maxstacksize);
  }

  lemma StringLong(b: seq<byte>)
    requires LoadString(b).Ok?
    ensures |b| >= 8
  {}

  lemma FieldsThere(b: seq<byte>, n: nat, line: int, last: int, nups: int, numparams: int, isVararg: int, maxstacksize: int)
    requires n <= |b| && FieldsAt(b[n..], 0, line, last, nups, numparams, isVararg, maxstacksize)
    ensures FieldsAt(b, n, line, last, nups, numparams, isVararg, maxstacksize)
  {}

  // ---------- One chunk, byte by byte ----------

  const INNER := Proto(Some("@t"), 0, 0, 0, 0, 0, 0, [], [], [], [], [], [])

  /** A function with something in every part, and one inside it with the same source. */
  const SAMPLE := Proto(Some("@t"), 1, 2, 3, 4, 5, 6, [0x80001E],
                        [Nil, Bool(true), Number([0, 0, 0, 0, 0, 0, 0xF0, 0x3F]), Str(Some("a"))], [INNER],
                        [7], [LocVar(Some("b"), 8, 9)], [Some("c")])

  function Zeros(n: nat): seq<byte> { seq(n, i => 0) }

  const B_HEADER: seq<byte> := [0x1B, 0x4C, 0x75, 0x61, 0x51, 0, 1, 4, 8, 4, 8, 0]
  const B_SOURCE: seq<byte> := [3, 0, 0, 0, 0, 0, 0, 0, 0x40, 0x74, 0]
  const B_SIZES: seq<byte> := [1, 0, 0, 0, 2, 0, 0, 0, 3, 4, 5, 6]
  const B_CODE: seq<byte> := [1, 0, 0, 0, 0x1E, 0, 0x80, 0]
  const B_CONSTANTS: seq<byte> := [4, 0, 0, 0, 0, 1, 1, 3, 0, 0, 0, 0, 0, 0, 0xF0, 0x3F, 4, 2, 0, 0, 0, 0, 0, 0, 0, 0x61, 0]
  const B_INNER: seq<byte> := [1, 0, 0, 0] + Zeros(44)
  const B_LINES: seq<byte> := [1, 0, 0, 0, 7, 0, 0, 0]
  const B_LOCALS: seq<byte> := [1, 0, 0, 0, 2, 0, 0, 0, 0, 0, 0, 0, 0x62, 0, 8, 0, 0, 0, 9, 0, 0, 0]
  const B_UPVALUES: seq<byte> := [1, 0, 0, 0, 2, 0, 0, 0, 0, 0, 0, 0, 0x63, 0]

  const B_DEBUG := B_LINES + (B_LOCALS + B_UPVALUES)
  const CHUNK := B_HEADER + (B_SOURCE + (B_SIZES + (B_CODE + (B_CONSTANTS + (B_INNER + B_DEBUG)))))

  lemma {:induction false} NothingEncoded(w: nat)
    ensures Enc(w, 0) == Zeros(w)
  {
    if w > 0 {
      NothingEncoded(w - 1);
    }
  }

  lemma SmallInt(x: byte, tail: seq<byte>)
    ensures DumpInt(x, tail) == [x, 0, 0, 0] + tail
  {
    NothingEncoded(3);
    assert Enc(4, x) == [x] + Enc(3, 0);
  }

  lemma SmallSize(x: byte)
    ensures Enc(SIZE_SIZE, x) == [x, 0, 0, 0, 0, 0, 0, 0]
  {
    NothingEncoded(7);
    assert Enc(8, x) == [x] + Enc(7, 0);
  }

  lemma OneLetter(c: char, tail: seq<byte>)
    requires c as int < 256
    ensures DumpString(Some([c]), tail) == [2, 0, 0, 0, 0, 0, 0, 0, c as int, 0] + tail
  {
    SmallSize(2);
    assert FromChars([c]) == [c as int];
    hide Enc;
  }

  lemma SourceBytes(tail: seq<byte>)
    ensures DumpString(Some("@t"), tail) == B_SOURCE + tail
  {
    SmallSize(3);
    var size: seq<byte> := [3, 0, 0, 0, 0, 0, 0, 0];
    var chars: seq<byte> := [0x40, 0x74];
    assert FromChars("@t") == chars;
    hide Enc, FromChars;
    assert DumpString(Some("@t"), tail) == size + (chars + ([0] + tail));
    SourceJoin(size, chars, tail);
  }

  lemma SourceJoin(size: seq<byte>, chars: seq<byte>, tail: seq<byte>)
    requires size + chars + [0] == B_SOURCE
    ensures size + (chars + ([0] + tail)) == B_SOURCE + tail
  {
    assert size + (chars + ([0] + tail)) == size + chars + [0] + tail;
  }

  lemma SizesBytes(tail: seq<byte>)
    ensures DumpSizes(SAMPLE, tail) == B_SIZES + tail
  {
    CharsWritten(3, 4, 5, 6, tail);
    SmallInt(2, [3, 4, 5, 6] + tail);
    SmallInt(1, [2, 0, 0, 0] + ([3, 4, 5, 6] + tail));
    hide DumpInt, DumpChar;
    assert [1, 0, 0, 0] + ([2, 0, 0, 0] + ([3, 4, 5, 6] + tail)) == B_SIZES + tail;
  }

  lemma CodeBytes(tail: seq<byte>)
    ensures DumpVector([0x80001E], tail) == B_CODE + tail
  {
    var word: seq<byte> := [0x1E, 0, 0x80, 0];
    assert Enc(1, 0) == [0] && Enc(2, 0x80) == [0x80, 0] && Enc(3, 0x8000) == [0, 0x80, 0];
    assert Enc(4, 0x80001E) == word;
    hide Enc;
    var code := [0x80001E];
    assert code[1..] == [];
    assert DumpWords(code, tail) == word + tail;
    SmallInt(1, word + tail);
    assert [1, 0, 0, 0] + (word + tail) == B_CODE + tail;
  }

  lemma ConstantsBytes(tail: seq<byte>)
    ensures DumpInt(4, DumpConsts(SAMPLE.k, tail)) == B_CONSTANTS + tail
  {
    var k := SAMPLE.k;
    var number: seq<byte> := [0, 0, 0, 0, 0, 0, 0xF0, 0x3F];
    var letter: seq<byte> := [2, 0, 0, 0, 0, 0, 0, 0, 0x61, 0];
    var t4 := [4] + (letter + tail);
    var t3 := [3] + (number + t4);
    var t2 := [1] + ([1] + t3);
    OneLetter('a', tail);
    ConstWritten(k[3], tail);
    ConstWritten(k[2], t4);
    ConstWritten(k[1], t3);
    ConstWritten(k[0], t2);
    hide DumpConst, DumpInt, DumpString;
    ConstsOne(k[3..], tail);
    ConstsOne(k[2..], tail);
    ConstsOne(k[1..], tail);
    ConstsOne(k, tail);
    assert k[1..][1..] == k[2..] && k[2..][1..] == k[3..] && k[3..][1..] == [];
    hide DumpConsts, Tag;
    SmallInt(4, [0] + t2);
    ConstantsJoin(number, letter, tail);
  }

  lemma ConstsOne(cs: seq<Const>, tail: seq<byte>)
    requires cs != [] && forall c :: c in cs ==> ConstFits(c)
    ensures DumpConsts(cs, tail) == DumpConst(cs[0], DumpConsts(cs[1..], tail)) && DumpConsts([], tail) == tail
  {}

  lemma ConstantsJoin(number: seq<byte>, letter: seq<byte>, tail: seq<byte>)
    requires number == [0, 0, 0, 0, 0, 0, 0xF0, 0x3F] && letter == [2, 0, 0, 0, 0, 0, 0, 0, 0x61, 0]
    ensures [4, 0, 0, 0] + ([0] + ([1] + ([1] + ([3] + (number + ([4] + (letter + tail))))))) == B_CONSTANTS + tail
  {
    assert [4, 0, 0, 0, 0, 1, 1, 3] + number + [4] + letter == B_CONSTANTS;
    assert [3] + (number + ([4] + (letter + tail))) == [3] + number + [4] + letter + tail;
    assert [4, 0, 0, 0] + ([0] + ([1] + ([1] + ([3] + number + [4] + letter + tail)))) == ([4, 0, 0, 0, 0, 1, 1, 3] + number + [4] + letter) + tail;
  }

  lemma LinesBytes(tail: seq<byte>)
    ensures DumpVector(LineWords([7]), tail) == B_LINES + tail
  {
    SmallInt(7, tail);
    SmallInt(1, DumpInt(7, tail));
    hide Enc;
    assert LineWords([7]) == [7];
    var w := [7];
    assert w[1..] == [];
    assert DumpWords(w, tail) == DumpInt(7, tail);
    assert [1, 0, 0, 0] + ([7, 0, 0, 0] + tail) == B_LINES + tail;
  }

  lemma LocalsBytes(tail: seq<byte>)
    ensures DumpInt(1, DumpLocVars([LocVar(Some("b"), 8, 9)], tail)) == B_LOCALS + tail
  {
    var vs := [LocVar(Some("b"), 8, 9)];
    assert vs[1..] == [];
    SmallInt(9, tail);
    SmallInt(8, [9, 0, 0, 0] + tail);
    var t := [8, 0, 0, 0] + ([9, 0, 0, 0] + tail);
    OneLetter('b', t);
    hide DumpInt, DumpString;
    var letter: seq<byte> := [2, 0, 0, 0, 0, 0, 0, 0, 0x62, 0];
    assert DumpLocVars(vs, tail) == letter + t;
    SmallInt(1, letter + t);
    LocalsJoin(letter, tail);
  }

  lemma LocalsJoin(letter: seq<byte>, tail: seq<byte>)
    requires letter == [2, 0, 0, 0, 0, 0, 0, 0, 0x62, 0]
    ensures [1, 0, 0, 0] + (letter + ([8, 0, 0, 0] + ([9, 0, 0, 0] + tail))) == B_LOCALS + tail
  {
    assert [1, 0, 0, 0] + letter + [8, 0, 0, 0] + [9, 0, 0, 0] == B_LOCALS;
    assert [1, 0, 0, 0] + (letter + ([8, 0, 0, 0] + ([9, 0, 0, 0] + tail))) == [1, 0, 0, 0] + letter + [8, 0, 0, 0] + [9, 0, 0, 0] + tail;
  }

  lemma UpvaluesBytes(tail: seq<byte>)
    ensures DumpInt(1, DumpTexts([Some("c")], tail)) == B_UPVALUES + tail
  {
    var ts: seq<Text> := [Some("c")];
    assert ts[1..] == [];
    OneLetter('c', tail);
    hide DumpInt, DumpString;
    var letter: seq<byte> := [2, 0, 0, 0, 0, 0, 0, 0, 0x63, 0];
    assert DumpTexts(ts, tail) == letter + tail;
    SmallInt(1, letter + tail);
    UpvaluesJoin(letter, tail);
  }

  lemma UpvaluesJoin(letter: seq<byte>, tail: seq<byte>)
    requires letter == [2, 0, 0, 0, 0, 0, 0, 0, 0x63, 0]
    ensures [1, 0, 0, 0] + (letter + tail) == B_UPVALUES + tail
  {
    assert [1, 0, 0, 0] + letter == B_UPVALUES;
    assert [1, 0, 0, 0] + (letter + tail) == [1, 0, 0, 0] + letter + tail;
  }

  lemma DebugBytes()
    ensures DebugFits(SAMPLE) && DumpDebug(SAMPLE, []) == B_DEBUG
  {
    UpvaluesBytes([]);
    assert B_UPVALUES + [] == B_UPVALUES;
    LocalsBytes(B_UPVALUES);
    LinesBytes(B_LOCALS + B_UPVALUES);
    hide DumpInt, DumpLocVars, DumpTexts, DumpVector;
  }

  lemma ZerosJoin(a: nat, b: nat, tail: seq<byte>)
    ensures Zeros(a) + (Zeros(b) + tail) == Zeros(a + b) + tail
  {}

  lemma InnerDebug(tail: seq<byte>)
    ensures DebugFits(INNER) && DumpDebug(INNER, tail) == Zeros(12) + tail
  {
    NothingEncoded(4);
    ZerosJoin(4, 4, tail);
    ZerosJoin(4, 8, tail);
    hide Enc, Zeros;
    assert LineWords([]) == [];
    assert DumpInt(0, tail) == Zeros(4) + tail;
  }

  lemma InnerSizes(tail: seq<byte>)
    ensures DumpSizes(INNER, tail) == Zeros(12) + tail
  {
    NothingEncoded(4);
    CharsWritten(0, 0, 0, 0, tail);
    assert [0, 0, 0, 0] == Zeros(4);
    ZerosJoin(4, 4, tail);
    ZerosJoin(4, 8, tail);
    hide Enc, Zeros, DumpChar;
  }

  lemma InnerBytes(tail: seq<byte>)
    ensures Fits(INNER) && DumpInt(1, DumpFunction(INNER, Some("@t"), tail)) == B_INNER + tail
  {
    InnerDebug(tail);
    var t := Zeros(12) + tail;
    NothingEncoded(4);
    NothingEncoded(8);
    ZerosJoin(4, 12, tail);
    ZerosJoin(4, 16, tail);
    ZerosJoin(4, 20, tail);
    InnerSizes(Zeros(24) + tail);
    ZerosJoin(12, 24, tail);
    ZerosJoin(8, 36, tail);
    SmallInt(1, Zeros(44) + tail);
    hide Enc, Zeros, DumpSizes, DumpDebug;
    assert DumpFunctions(INNER, 0, DumpDebug(INNER, tail)) == DumpDebug(INNER, tail);
    assert DumpFunction(INNER, Some("@t"), tail) == Zeros(44) + tail;
    InnerJoin(tail);
  }

  lemma InnerJoin(tail: seq<byte>)
    ensures [1, 0, 0, 0] + (Zeros(44) + tail) == B_INNER + tail
  {
    assert [1, 0, 0, 0] + (Zeros(44) + tail) == [1, 0, 0, 0] + Zeros(44) + tail;
  }

  lemma SampleFits()
    ensures Fits(SAMPLE)
  {
    InnerBytes([]);
    DebugBytes();
    hide Enc;
  }

  /** The chunk is what is written for the sample, and loads as the sample if it is accepted. */
  lemma SampleChunk(check: Proto -> bool, level: nat)
    ensures Fits(SAMPLE) && Dump(SAMPLE) == CHUNK
    ensures level + 1 < 200 && check(SAMPLE) && check(INNER) ==> Undump(check, level, CHUNK) == Ok(SAMPLE, [])
    ensures level + 1 >= 200 ==> !Undump(check, level, CHUNK).Ok?
  {
    SampleFits();
    SampleDumped();
    SampleAccepted(check, level);
    hide *;
    SameTree(check, level, SAMPLE);
    SampleBack(check, level);
  }

  lemma SampleBack(check: Proto -> bool, level: nat)
    requires Fits(SAMPLE) && Named(SAMPLE)
    ensures Undump(check, level, Dump(SAMPLE)).Ok? <==> Accepted(check, level, SAMPLE)
  {
    RoundTrip(check, level, SAMPLE);
    InheritSame(SAMPLE, NO_SOURCE);
    hide *;
  }

  lemma SampleAccepted(check: Proto -> bool, level: nat)
    ensures Named(SAMPLE)
    ensures level + 1 < 200 && check(SAMPLE) && check(INNER) ==> Accepted(check, level, SAMPLE)
    ensures level + 1 >= 200 ==> !Accepted(check, level, SAMPLE)
  {
    assert level + 1 >= 200 ==> !Accepted(check, level + 1, SAMPLE.p[0]);
  }

  /** Without debug information the source is unknown. */
  lemma SampleStripped()
    ensures Inherit(Strip(SAMPLE), NO_SOURCE).source == Some("=?")
  {}

  lemma SampleDumped()
    requires Fits(SAMPLE)
    ensures Dump(SAMPLE) == CHUNK
  {
    DebugBytes();
    InnerBytes(B_DEBUG);
    var t := B_INNER + B_DEBUG;
    ConstantsBytes(t);
    CodeBytes(B_CONSTANTS + t);
    SizesBytes(B_CODE + (B_CONSTANTS + t));
    SourceBytes(B_SIZES + (B_CODE + (B_CONSTANTS + t)));
    FunctionsOne();
    hide DumpInt, DumpVector, DumpConsts, DumpSizes, DumpString, DumpDebug, Fits;
    assert HEADER == B_HEADER;
  }

  lemma FunctionsOne()
    requires Fits(SAMPLE)
    ensures Fits(INNER) && DumpFunctions(SAMPLE, 0, B_DEBUG) == DumpFunction(INNER, Some("@t"), B_DEBUG)
  {
    hide DumpSizes, DumpVector, DumpString, DumpDebug;
  }
}
