/** Dynamixel packets: the bytes of a frame and the byte-by-byte parser that takes them apart. */
module Dynamixel {

  type byte = x: int | 0 <= x < 256

  const HEADER: byte := 255
  const PARAMETER_MAX := 250
  const PACKET_SIZE := 256  // five bytes, the parameters, and a checksum field

  datatype Frame = Frame(id: byte, instruction: byte, parameter: seq<byte>)

  function Sum(s: seq<byte>): nat { if s == [] then 0 else s[0] + Sum(s[1..]) }

  /** The inverted sum of the bytes between the header and the checksum. */
  function Check(body: seq<byte>): byte { 255 - Sum(body) % 256 }

  function Body(f: Frame): seq<byte>
    requires |f.parameter| <= PARAMETER_MAX
  {
    [f.id, |f.parameter| + 2, f.instruction] + f.parameter
  }

  function Bytes(f: Frame): seq<byte>
    requires |f.parameter| <= PARAMETER_MAX
  {
    [HEADER, HEADER] + Body(f) + [Check(Body(f))]
  }

  lemma {:induction false} SumJoin(a: seq<byte>, b: seq<byte>)
    ensures Sum(a + b) == Sum(a) + Sum(b)
    decreases |a|
  {
    if a == [] {
      assert a + b == b;
    } else {
      SumJoin(a[1..], b);
      assert (a + b)[1..] == a[1..] + b;
    }
  }

  /** The bytes of a frame one by one; behind the header they sum to 255 modulo 256. */
  lemma FrameLayout(f: Frame)
    requires |f.parameter| <= PARAMETER_MAX
    ensures var b, n := Bytes(f), |f.parameter|;
      && |b| == n + 6 && b[0] == b[1] == 0xFF && b[2] == f.id && b[3] == n + 2 && b[4] == f.instruction
      && b[5..5 + n] == f.parameter && Sum(b[2..]) % 256 == 255
  {
    var b := Bytes(f);
    assert b[2..] == Body(f) + [Check(Body(f))];
    SumJoin(Body(f), [Check(Body(f))]);
    assert Sum([Check(Body(f))]) == Check(Body(f));
  }

  /** The frame that asks the servo with number 1 for a sign of life. */
  lemma PingBytes()
    ensures Bytes(Frame(1, 1, [])) == [0xFF, 0xFF, 1, 2, 1, 0xFB]
  {
    var body: seq<byte> := [1, 2, 1];
    assert Body(Frame(1, 1, [])) == body;
    assert body[1..] == [2, 1] && body[1..][1..] == [1] && body[1..][1..][1..] == [];
    assert Sum(body) == 4;
  }

  // ---------- Writing and checking packets ----------

  /** The place of the checksum behind a body of that length. */
  function End(length: int): int { length + 3 }

  /** dynamixel_checksum over the bytes 2 to length + 2. */
  method Checksum(pkt: array<byte>) returns (checksum: byte)
    requires pkt.Length == PACKET_SIZE && pkt[3] <= PARAMETER_MAX + 2
    ensures checksum == Check(pkt[2..End(pkt[3])])
  {
    checksum := 0;
    var i: int := 2;
    while i < End(pkt[3])
      invariant 2 <= i <= End(pkt[3]) && checksum == Sum(pkt[2..i]) % 256
    {
      checksum := (checksum + pkt[i]) % 256;
      SumJoin(pkt[2..i], [pkt[i]]);
      assert pkt[2..i + 1] == pkt[2..i] + [pkt[i]];
      i := i + 1;
    }
    checksum := 255 - checksum;
  }

  /** dynamixel_instruction and dynamixel_status: the packet laid out in memory. */
  method MakePacket(pkt: array<byte>, id: byte, instruction: byte, parameter: seq<byte>)
    requires pkt.Length == PACKET_SIZE && |parameter| <= PARAMETER_MAX
    modifies pkt
    ensures pkt[..|parameter| + 6] == Bytes(Frame(id, instruction, parameter))
  {
    pkt[0], pkt[1], pkt[2], pkt[3], pkt[4] := HEADER, HEADER, id, |parameter| + 2, instruction;
    var i := 0;
    while i < |parameter|
      invariant 0 <= i <= |parameter|
      invariant pkt[0] == pkt[1] == HEADER && pkt[2] == id && pkt[3] == |parameter| + 2 && pkt[4] == instruction
      invariant pkt[5..5 + i] == parameter[..i]
    {
      pkt[5 + i] := parameter[i];
      i := i + 1;
    }
    var checksum := Checksum(pkt);
    assert pkt[2..|parameter| + 5] == Body(Frame(id, instruction, parameter));
    pkt[255] := checksum;
    pkt[5 + |parameter|] := checksum;
    assert pkt[2..|parameter| + 5] == Body(Frame(id, instruction, parameter));
  }

  // ---------- The parser ----------

  /** The packet buffer, the index of the next byte, and the frames delivered so far. Writing
      behind the buffer is no state at all. */
  datatype Parser = Parser(pkt: seq<byte>, n: int, got: seq<Frame>) | Overrun

  ghost predicate Sound(r: Parser) { r.Parser? && |r.pkt| == PACKET_SIZE && -1 <= r.n }

  function Input(pkt: seq<byte>, c: byte, n0: int): (r: (seq<byte>, int))
    requires |pkt| == PACKET_SIZE && n0 < PACKET_SIZE
    ensures |r.0| == PACKET_SIZE && r.1 >= -1
  {
    var n := if n0 < 0 then 0 else n0;
    var p := pkt[n := c];
    var end := End(p[3]);
    (p, if n <= 1 && c != HEADER then 0
        else if n == end then (if c == Check(p[2..n]) then -1 else 0)
        else if n > end then 0
        else n + 1)
  }

  /** dynamixel_input: the next index, -1 behind a complete packet. */
  method DynamixelInput(pkt: array<byte>, c: byte, n0: int) returns (n: int)
    requires pkt.Length == PACKET_SIZE && n0 < PACKET_SIZE
    modifies pkt
    ensures (pkt[..], n) == Input(old(pkt[..]), c, n0)
  {
    n := if n0 < 0 then 0 else n0;
    pkt[n] := c;
    assert pkt[..] == old(pkt[..])[n := c];
    if n <= 1 && c != HEADER {
      return 0;
    } else if n == End(pkt[3]) {
      var checksum := Checksum(pkt);
      assert pkt[..][2..n] == pkt[2..n];
      if c == checksum {
        return -1;
      } else {
        return 0;
      }
    } else if n > End(pkt[3]) {
      return 0;
    }
    return n + 1;
  }

  function FrameIn(pkt: seq<byte>): Frame
    requires |pkt| == PACKET_SIZE
  {
    Frame(pkt[2], pkt[4], if 2 <= pkt[3] <= PARAMETER_MAX + 2 then pkt[5..End(pkt[3])] else [])
  }

  function Feed(r: Parser, c: byte): Parser {
    if !r.Parser? || |r.pkt| != PACKET_SIZE || r.n >= PACKET_SIZE then Overrun
    else
      var (p, n) := Input(r.pkt, c, r.n);
      Parser(p, n, if n == -1 then r.got + [FrameIn(p)] else r.got)
  }

  function FeedAll(r: Parser, s: seq<byte>): Parser
    decreases |s|
  {
    if s == [] then r else Feed(FeedAll(r, s[..|s|-1]), s[|s|-1])
  }

  lemma {:induction false} FeedJoin(r: Parser, a: seq<byte>, b: seq<byte>)
    ensures FeedAll(r, a + b) == FeedAll(FeedAll(r, a), b)
    decreases |b|
  {
    if b == [] {
      assert a + b == a;
    } else {
      FeedJoin(r, a, b[..|b|-1]);
      assert (a + b)[..|a + b|-1] == a + b[..|b|-1];
    }
  }

  // ---------- Frames on the wire ----------

  /** Header and length of a frame; the other bytes may have been damaged. */
  predicate Framed(w: seq<byte>) {
    |w| >= 6 && w[0] == w[1] == HEADER && 2 <= w[3] <= PARAMETER_MAX + 2 && |w| == End(w[3]) + 1
  }

  predicate Intact(w: seq<byte>)
    requires Framed(w)
  {
    w[|w|-1] == Check(w[2..|w|-1])
  }

  function Unpack(w: seq<byte>): Frame
    requires Framed(w)
  {
    Frame(w[2], w[4], w[5..|w|-1])
  }

  lemma BytesFramed(f: Frame)
    requires |f.parameter| <= PARAMETER_MAX
    ensures Framed(Bytes(f)) && Intact(Bytes(f)) && Unpack(Bytes(f)) == f
  {
    var w := Bytes(f);
    assert w[2..|w|-1] == Body(f);
    assert w[5..|w|-1] == f.parameter;
  }

  lemma FeedLast(r: Parser, w: seq<byte>, k: nat)
    requires 0 < k <= |w|
    ensures FeedAll(r, w[..k]) == Feed(FeedAll(r, w[..k-1]), w[k-1])
  {
    assert w[..k][..k-1] == w[..k-1];
    hide Feed;
  }

  /** One more byte of a frame, not the last. */
  lemma NextByte(q: Parser, w: seq<byte>, k: nat)
    requires Sound(q) && Framed(w) && k < |w| - 1 && (if k == 0 then q.n <= 0 else q.n == k) && q.pkt[..k] == w[..k]
    ensures var t := Feed(q, w[k]); Sound(t) && t.n == k + 1 && t.pkt[..k+1] == w[..k+1] && t.got == q.got
  {
    var p := q.pkt[k := w[k]];
    assert p[..k+1] == w[..k+1];
    assert k >= 3 ==> p[3] == w[3];
  }

  /** In the middle of a frame the buffer holds what has come of it. */
  lemma {:induction false} Partly(r: Parser, w: seq<byte>, k: nat)
    requires Sound(r) && r.n <= 0 && Framed(w) && 0 < k < |w|
    ensures var q := FeedAll(r, w[..k]); Sound(q) && q.n == k && q.pkt[..k] == w[..k] && q.got == r.got
    decreases k
  {
    FeedLast(r, w, k);
    if k == 1 {
      assert w[..0] == [] && FeedAll(r, w[..0]) == r;
      assert r.pkt[..0] == w[..0];
      NextByte(r, w, 0);
    } else {
      hide FeedAll, Feed, Framed;
      Partly(r, w, k - 1);
      NextByte(FeedAll(r, w[..k-1]), w, k - 1);
    }
  }

  lemma LastByte(pkt: seq<byte>, w: seq<byte>)
    requires |pkt| == PACKET_SIZE && Framed(w) && pkt[..|w|-1] == w[..|w|-1]
    ensures var p := pkt[|w|-1 := w[|w|-1]]; p[3] == w[3] && p[2..|w|-1] == w[2..|w|-1] && FrameIn(p) == Unpack(w)
  {
    var p := pkt[|w|-1 := w[|w|-1]];
    assert p[..|w|] == w;
    assert p[5..|w|-1] == w[5..|w|-1];
  }

  /** At the end of a frame it is delivered, if intact, and the parser is ready for the next. */
  lemma Wholly(r: Parser, w: seq<byte>)
    requires Sound(r) && r.n <= 0 && Framed(w)
    ensures var q := FeedAll(r, w); Sound(q) && q.n <= 0 && q.got == r.got + One(w)
  {
    var k := |w| - 1;
    Partly(r, w, k);
    LastByte(FeedAll(r, w[..k]).pkt, w);
    hide FrameIn, Unpack, Check;
  }

  ghost predicate AllFramed(ws: seq<seq<byte>>) { forall i :: 0 <= i < |ws| ==> Framed(ws[i]) }

  function Concat(ws: seq<seq<byte>>): seq<byte> { if ws == [] then [] else ws[0] + Concat(ws[1..]) }

  function One(w: seq<byte>): seq<Frame>
    requires Framed(w)
  {
    if Intact(w) then [Unpack(w)] else []
  }

  /** The frames among ws that can be delivered. */
  function Delivered(ws: seq<seq<byte>>): seq<Frame>
    requires AllFramed(ws)
  {
    if ws == [] then [] else One(ws[0]) + Delivered(ws[1..])
  }

  lemma FirstOfStream(ws: seq<seq<byte>>, got: seq<Frame>)
    requires AllFramed(ws) && ws != []
    ensures Framed(ws[0]) && AllFramed(ws[1..]) && Concat(ws) == ws[0] + Concat(ws[1..])
    ensures got + Delivered(ws) == got + One(ws[0]) + Delivered(ws[1..])
  {
    hide Framed, One;
  }

  /** After the whole stream exactly the intact frames have been delivered: a damaged frame
      costs no other one. */
  lemma {:induction false} StreamDelivered(r: Parser, ws: seq<seq<byte>>)
    requires Sound(r) && r.n <= 0 && AllFramed(ws)
    ensures var q := FeedAll(r, Concat(ws)); Sound(q) && q.n <= 0 && q.got == r.got + Delivered(ws)
    decreases |ws|
  {
    if ws != [] {
      FirstOfStream(ws, r.got);
      hide FeedAll, Framed, AllFramed, One, Concat, Delivered;
      Wholly(r, ws[0]);
      FeedJoin(r, ws[0], Concat(ws[1..]));
      StreamDelivered(FeedAll(r, ws[0]), ws[1..]);
    }
  }

  /** What is known in the middle of a stream. */
  ghost predicate Ahead(q: Parser, all: seq<Frame>) { Sound(q) && q.n < PACKET_SIZE && q.got <= all }

  lemma InsideAhead(r: Parser, w: seq<byte>, k: nat, more: seq<Frame>)
    requires Sound(r) && r.n <= 0 && Framed(w) && 0 < k < |w|
    ensures Ahead(FeedAll(r, w[..k]), r.got + more)
  {
    Partly(r, w, k);
  }

  /** After any part of the stream the frames delivered are a prefix of all there are to deliver. */
  lemma {:induction false} StreamPrefix(r: Parser, ws: seq<seq<byte>>, k: nat)
    requires Sound(r) && r.n <= 0 && k <= |Concat(ws)| && AllFramed(ws)
    ensures Ahead(FeedAll(r, Concat(ws)[..k]), r.got + Delivered(ws))
    decreases |ws|
  {
    if ws == [] || k == 0 {
      assert Concat(ws)[..k] == [];
    } else {
      FirstOfStream(ws, r.got);
      hide FeedAll, Framed, AllFramed, One, Concat, Delivered;
      var w, rest := ws[0], ws[1..];
      hide Ahead;
      if k < |w| {
        assert Concat(ws)[..k] == w[..k];
        InsideAhead(r, w, k, Delivered(ws));
      } else {
        Wholly(r, w);
        StreamPrefix(FeedAll(r, w), rest, k - |w|);
        FeedJoin(r, w, Concat(rest)[..k - |w|]);
        assert Concat(ws)[..k] == w + Concat(rest)[..k - |w|];
      }
    }
  }

  // ---------- Damage ----------

  lemma {:induction false} SumUpdate(s: seq<byte>, i: nat, c: byte)
    requires i < |s|
    ensures Sum(s[i := c]) == Sum(s) - s[i] + c
    decreases |s|
  {
    if i == 0 {
      assert s[i := c][1..] == s[1..];
    } else {
      SumUpdate(s[1..], i - 1, c);
      assert s[i := c][1..] == s[1..][i - 1 := c];
    }
  }

  /** Damage to one byte behind the header, except the length, is noticed. */
  lemma OneByteNoticed(w: seq<byte>, i: nat, c: byte)
    requires Framed(w) && Intact(w) && 2 <= i < |w| && i != 3 && c != w[i]
    ensures Framed(w[i := c]) && !Intact(w[i := c])
  {
    var d := w[i := c];
    var k := |w| - 1;
    if i < k {
      assert d[2..k] == w[2..k][i - 2 := c];
      SumUpdate(w[2..k], i - 2, c);
    } else {
      assert d[2..k] == w[2..k];
    }
  }

  lemma {:induction false} DeliveredJoin(a: seq<seq<byte>>, b: seq<seq<byte>>)
    requires AllFramed(a) && AllFramed(b)
    ensures AllFramed(a + b) && Delivered(a + b) == Delivered(a) + Delivered(b)
    decreases |a|
  {
    hide Framed, One;
    if a == [] {
      assert a + b == b;
    } else {
      assert (a + b)[1..] == a[1..] + b;
      DeliveredJoin(a[1..], b);
      assert One(a[0]) + (Delivered(a[1..]) + Delivered(b)) == One(a[0]) + Delivered(a[1..]) + Delivered(b);
    }
  }

  /** Of the frames sent exactly the damaged one is lost. */
  lemma OneFrameLost(before: seq<seq<byte>>, w: seq<byte>, after: seq<seq<byte>>, i: nat, c: byte)
    requires AllFramed(before) && AllFramed(after) && Framed(w) && Intact(w)
    requires 2 <= i < |w| && i != 3 && c != w[i]
    ensures AllFramed(before + [w[i := c]] + after) && AllFramed(before + [w] + after)
    ensures Delivered(before + [w[i := c]] + after) == Delivered(before) + Delivered(after)
    ensures Delivered(before + [w] + after) == Delivered(before) + [Unpack(w)] + Delivered(after)
  {
    OneByteNoticed(w, i, c);
    var d := w[i := c];
    assert One(w) == [Unpack(w)] && One(d) == [];
    hide Framed, One, Intact, Unpack, Delivered;
    DeliveredAround(before, d, after);
    DeliveredAround(before, w, after);
    assert Delivered(before) + [] == Delivered(before);
  }

  lemma DeliveredAround(before: seq<seq<byte>>, w: seq<byte>, after: seq<seq<byte>>)
    requires AllFramed(before) && AllFramed(after) && Framed(w)
    ensures AllFramed(before + [w] + after) && Delivered(before + [w] + after) == Delivered(before) + One(w) + Delivered(after)
  {
    hide Framed, One;
    assert [w][1..] == [] && Delivered([w]) == One(w);
    DeliveredJoin(before, [w]);
    DeliveredJoin(before + [w], after);
  }

  // ---------- After lost or foreign bytes ----------

  /** The parser is inside the packet, and the length it goes by keeps it there. */
  ghost predicate Inside(r: Parser) { Sound(r) && r.n < PACKET_SIZE && (r.n > 3 ==> r.pkt[3] <= PARAMETER_MAX + 2) }

  /** One byte leads out exactly if it is taken for a length that no packet has. */
  lemma StaysInside(r: Parser, c: byte)
    requires Inside(r)
    ensures Sound(Feed(r, c)) && (Inside(Feed(r, c)) <==> !(r.n == 3 && c > PARAMETER_MAX + 2))
  {
    hide Check, FrameIn;
  }

  /** On the way to a place behind the packet, or there. */
  ghost predicate Lost(r: Parser) { r.Overrun? || (Sound(r) && r.n > 3 && r.pkt[3] > PARAMETER_MAX + 2) }

  lemma LostStays(r: Parser, c: byte)
    requires Lost(r)
    ensures Lost(Feed(r, c)) && !Inside(r)
  {
    hide Check, FrameIn;
  }

  lemma LengthLost(r: Parser, c: byte)
    requires Inside(r) && r.n == 3 && c > PARAMETER_MAX + 2
    ensures Lost(Feed(r, c))
  {
    hide Check, FrameIn;
  }

  /** The byte is taken for a length that no packet has. */
  predicate WrongLength(r: Parser, c: byte) { r.Parser? && r.n == 3 && c > PARAMETER_MAX + 2 }

  /** None of the bytes is taken for such a length. */
  predicate LengthsFit(r: Parser, s: seq<byte>)
    decreases |s|
  {
    s == [] || (LengthsFit(r, s[..|s|-1]) && !WrongLength(FeedAll(r, s[..|s|-1]), s[|s|-1]))
  }

  /** Whatever is fed, the parser stays inside the packet if and only if no byte is taken for
      such a length; after one it is lost for good. */
  lemma {:induction false} InsideIff(r: Parser, s: seq<byte>)
    requires Inside(r)
    ensures Inside(FeedAll(r, s)) <==> LengthsFit(r, s)
    ensures !Inside(FeedAll(r, s)) ==> Lost(FeedAll(r, s))
    decreases |s|
  {
    if s != [] {
      InsideIff(r, s[..|s|-1]);
      LastInside(FeedAll(r, s[..|s|-1]), s[|s|-1]);
      hide Feed, Inside, Lost, WrongLength;
    }
  }

  lemma LastInside(q: Parser, c: byte)
    requires Inside(q) || Lost(q)
    ensures Inside(Feed(q, c)) <==> Inside(q) && !WrongLength(q, c)
    ensures !Inside(Feed(q, c)) ==> Lost(Feed(q, c))
  {
    hide Feed;
    if Inside(q) {
      StaysInside(q, c);
      if q.n == 3 && c > PARAMETER_MAX + 2 {
        LengthLost(q, c);
      }
    } else {
      LostStays(q, c);
      OneOrOther(Feed(q, c));
    }
  }

  lemma OneOrOther(r: Parser)
    ensures !(Inside(r) && Lost(r))
  {}

  lemma QuietByte(r: Parser, c: byte)
    requires Inside(r) && c <= PARAMETER_MAX + 2
    ensures var q := Feed(r, c); Inside(q) && (r.n <= 0 ==> q.n <= 0) && (q.n <= 0 || q.n == r.n + 1)
  {
    hide Check, FrameIn;
  }

  /** Bytes that are neither headers nor too large for a length let the parser run to the end
      of what it takes for a packet. */
  lemma {:induction false} Quiet(r: Parser, q: seq<byte>)
    requires Inside(r) && forall i :: 0 <= i < |q| ==> q[i] <= PARAMETER_MAX + 2
    ensures var t := FeedAll(r, q); Inside(t) && (t.n <= 0 || t.n == r.n + |q|)
    decreases |q|
  {
    if q != [] {
      var most := q[..|q|-1];
      Quiet(r, most);
      QuietByte(FeedAll(r, most), q[|q|-1]);
      hide Feed, Inside;
    }
  }

  /** Whatever bytes came before, unless one was taken for a length that no packet has, after a
      pause of one packet of such bytes every frame is parsed again. */
  lemma Resynchronised(r: Parser, noise: seq<byte>, q: seq<byte>, ws: seq<seq<byte>>)
    requires Inside(r) && |q| > PACKET_SIZE && AllFramed(ws)
    requires LengthsFit(r, noise)
    requires forall i :: 0 <= i < |q| ==> q[i] <= PARAMETER_MAX + 2
    ensures FeedAll(r, noise + q).Parser? && FeedAll(r, noise + q + Concat(ws)).Parser?
    ensures FeedAll(r, noise + q + Concat(ws)).got == FeedAll(r, noise + q).got + Delivered(ws)
  {
    InsideIff(r, noise);
    Quiet(FeedAll(r, noise), q);
    hide FeedAll, AllFramed, Concat, Delivered;
    FeedJoin(r, noise, q);
    FeedJoin(r, noise + q, Concat(ws));
    StreamDelivered(FeedAll(r, noise + q), ws);
  }
}
