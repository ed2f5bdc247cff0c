/** The circular buffer between the receive interrupt and the main loop, and the parser
    that is fed from it. */
module SerialLine {
  import opened Dynamixel

  const INDEX_RANGE := 256  // the indices are 8 bits wide and wrap around

  /** The value an index holds. */
  function Wrap(x: int): (i: nat)
    ensures i < INDEX_RANGE
  {
    x % INDEX_RANGE
  }

  lemma WrapNext(x: nat)
    ensures Wrap(Wrap(x) + 1) == Wrap(x + 1)
  {}

  lemma WrapApart(a: nat, b: nat)
    requires b <= a < b + INDEX_RANGE
    ensures Wrap(Wrap(a) - Wrap(b)) == a - b
  {}

  /** Masking with a power of two less one takes the remainder. */
  function Slot(i: nat, size: nat): (k: nat)
    requires size > 0
    ensures k < size
  {
    i % size
  }

  ghost predicate Divides(size: nat, share: nat) { size > 0 && INDEX_RANGE == size * share }

  lemma Remainder(x: nat, k: nat, r: nat, size: nat)
    requires r < size && x == size * k + r
    ensures x % size == r
  {
    var d: int := k - x / size;
    assert size * d == x % size - r;
    assert d >= 1 ==> size * d >= size;
    assert d <= -1 ==> size * d + size <= 0;
  }

  /** A wrapped index still names the right entry. */
  lemma WrapKeepsSlot(x: nat, size: nat, share: nat)
    requires Divides(size, share)
    ensures Slot(Wrap(x), size) == Slot(x, size)
  {
    var a, y := x / INDEX_RANGE, x % INDEX_RANGE;
    var b := y / size;
    assert y == size * b + y % size;
    assert size * (share * a + b) == (size * share) * a + size * b;
    Remainder(x, share * a + b, y % size, size);
  }

  /** Entries less than size apart are in different slots. */
  lemma SlotsApart(i: nat, j: nat, size: nat)
    requires i < j < i + size
    ensures Slot(i, size) != Slot(j, size)
  {
    var d: int := j / size - i / size;
    assert j - i == size * d + j % size - i % size;
    assert d >= 1 ==> size * d >= size;
    assert d <= 0 ==> size * d <= 0;
  }

  class CircularBuffer {
    const size: nat
    const entry: array<byte>
    var getIdx: nat
    var putIdx: nat
    ghost const share: nat          // the index range is this many times the size
    ghost var sent: seq<byte>       // everything put in so far
    ghost var taken: nat            // how many of them were taken out

    ghost predicate Valid()
      reads this, entry
    {
      && 2 * size <= INDEX_RANGE && Divides(size, share) && size > 0 && entry.Length == size
      && taken <= |sent| <= taken + size
      && getIdx == Wrap(taken) && putIdx == Wrap(|sent|)
      && forall i :: taken <= i < |sent| ==> entry[Slot(i, size)] == sent[i]
    }

    constructor (n: nat, ghost q: nat)
      requires 2 * n <= INDEX_RANGE && Divides(n, q)
      ensures Valid() && size == n && sent == [] && taken == 0 && fresh(entry)
    {
      size, share := n, q;
      entry := new byte[n];
      getIdx, putIdx, sent, taken := 0, 0, [], 0;
    }

    /** CBUF_Len: the wrapped difference of the indices. */
    method Len() returns (n: nat)
      requires Valid()
      ensures n == |sent| - taken <= size
    {
      WrapApart(|sent|, taken);
      n := Wrap(putIdx - getIdx);
    }

    /** CBUF_Push. */
    method Push(c: byte)
      requires Valid() && |sent| < taken + size
      modifies this`putIdx, this`sent, entry
      ensures Valid() && sent == old(sent) + [c]
    {
      hide Slot, Divides, Wrap;
      WrapKeepsSlot(|sent|, size, share);
      WrapNext(|sent|);
      forall i | taken <= i < |sent|
        ensures Slot(i, size) != Slot(|sent|, size)
      {
        SlotsApart(i, |sent|, size);
      }
      entry[Slot(putIdx, size)] := c;
      putIdx := Wrap(putIdx + 1);
      sent := sent + [c];
    }

    /** CBUF_Pop. */
    method Pop() returns (c: byte)
      requires Valid() && taken < |sent|
      modifies this`getIdx, this`taken
      ensures Valid() && taken == old(taken) + 1 && c == sent[old(taken)]
    {
      hide Slot, Divides, Wrap;
      WrapKeepsSlot(taken, size, share);
      WrapNext(taken);
      c := entry[Slot(getIdx, size)];
      getIdx := Wrap(getIdx + 1);
      taken := taken + 1;
    }
  }

  /** The sender's bytes are frames, some of them perhaps damaged behind the header. */
  ghost predicate Stream(s: seq<byte>, ws: seq<seq<byte>>) { AllFramed(ws) && s <= Concat(ws) }

  /** The parser stands behind the first k bytes. */
  ghost predicate Parsed(start: seq<byte>, w: seq<byte>, k: nat, p: seq<byte>, n: int, got: seq<Frame>) {
    k <= |w| && FeedAll(Parser(start, 0, []), w[..k]) == Parser(p, n, got)
  }

  lemma ParsedNext(start: seq<byte>, w: seq<byte>, k: nat, p: seq<byte>, n: int, got: seq<Frame>, p1: seq<byte>, n1: int)
    requires Parsed(start, w, k, p, n, got) && k < |w| && |p| == PACKET_SIZE && n < PACKET_SIZE
    requires (p1, n1) == Input(p, w[k], n)
    ensures |p1| == PACKET_SIZE && Parsed(start, w, k + 1, p1, n1, if n1 == -1 then got + [FrameIn(p1)] else got)
  {
    hide Input, FrameIn, FeedAll;
    FeedLast(Parser(start, 0, []), w, k + 1);
  }

  class SerialPort {
    const buf: CircularBuffer
    const pkt: array<byte>
    var n: int
    ghost const start: seq<byte>
    ghost var got: seq<Frame>

    /** The parser has been fed what was taken out of the buffer. */
    ghost predicate Valid()
      reads this, buf, buf.entry, pkt
    {
      && buf.Valid() && pkt != buf.entry && pkt.Length == PACKET_SIZE == |start|
      && Parsed(start, buf.sent, buf.taken, pkt[..], n, got)
    }

    constructor (b: CircularBuffer, p: array<byte>)
      requires b.Valid() && b.sent == [] && p.Length == PACKET_SIZE && p != b.entry
      ensures Valid() && buf == b && pkt == p && got == []
    {
      buf, pkt, n, got, start := b, p, 0, [], p[..];
      new;
      assert buf.sent[..buf.taken] == [];
    }

    /** The receive interrupt. */
    method Receive(c: byte)
      requires Valid() && |buf.sent| < buf.taken + buf.size
      modifies buf`putIdx, buf`sent, buf.entry
      ensures Valid() && buf.sent == old(buf.sent) + [c]
    {
      ghost var before := buf.sent[..buf.taken];
      buf.Push(c);
      assert buf.sent[..buf.taken] == before;
    }

    lemma Known(ws: seq<seq<byte>>)
      requires Valid() && Stream(buf.sent, ws)
      ensures -1 <= n < PACKET_SIZE && got <= Delivered(ws)
      ensures buf.taken == |Concat(ws)| ==> got == Delivered(ws)
    {
      assert buf.sent[..buf.taken] == Concat(ws)[..buf.taken];
      StreamPrefix(Parser(start, 0, []), ws, buf.taken);
      StreamDelivered(Parser(start, 0, []), ws);
      assert Concat(ws)[..|Concat(ws)|] == Concat(ws);
      assert [] + Delivered(ws) == Delivered(ws);
    }

    /** One turn of the polling loop: getchar, and dynamixel_input unless it returned EOF. The
        frames delivered are always a prefix of those sent undamaged, and all of them in the end. */
    method PollByte(ghost ws: seq<seq<byte>>) returns (eof: bool, complete: bool)
      requires Valid() && Stream(buf.sent, ws)
      modifies this`n, this`got, buf`getIdx, buf`taken, pkt
      ensures Valid() && eof == (old(buf.taken) == |buf.sent|)
      ensures buf.taken == if eof then old(buf.taken) else old(buf.taken) + 1
      ensures got == if complete then old(got) + [FrameIn(pkt[..])] else old(got)
      ensures got <= Delivered(ws) && (buf.taken == |Concat(ws)| ==> got == Delivered(ws))
    {
      Known(ws);
      hide Stream, Concat, Delivered, Parsed, CircularBuffer.Valid;
      var k := buf.Len();
      if k == 0 {
        return true, false;
      }
      eof := false;
      complete := TakeByte();
      Known(ws);
    }

    /** The oldest byte goes into the parser. */
    method TakeByte() returns (complete: bool)
      requires Valid() && buf.taken < |buf.sent| && -1 <= n < PACKET_SIZE
      modifies this`n, this`got, buf`getIdx, buf`taken, pkt
      ensures Valid() && buf.taken == old(buf.taken) + 1
      ensures got == if complete then old(got) + [FrameIn(pkt[..])] else old(got)
    {
      hide Parsed, CircularBuffer.Valid, FrameIn;
      var c := buf.Pop();
      complete := FeedByte(c);
    }

    method FeedByte(c: byte) returns (complete: bool)
      requires buf.Valid() && pkt != buf.entry && pkt.Length == PACKET_SIZE == |start| && -1 <= n < PACKET_SIZE
      requires 0 < buf.taken <= |buf.sent| && c == buf.sent[buf.taken-1]
      requires Parsed(start, buf.sent, buf.taken - 1, pkt[..], n, got)
      modifies this`n, this`got, pkt
      ensures Valid()
      ensures got == if complete then old(got) + [FrameIn(pkt[..])] else old(got)
    {
      ghost var p, n0 := pkt[..], n;
      hide Parsed, CircularBuffer.Valid, Input, FrameIn;
      n := DynamixelInput(pkt, c, n);
      ghost var p1 := pkt[..];
      ParsedNext(start, buf.sent, buf.taken - 1, p, n0, got, p1, n);
      complete := n == -1;
      if complete {
        got := got + [FrameIn(pkt[..])];
      }
    }
  }

  datatype Event = Interrupt(c: byte) | Poll

  function Arrivals(events: seq<Event>): seq<byte> {
    if events == [] then []
    else Arrivals(events[..|events|-1]) + match events[|events|-1] case Interrupt(c) => [c] case Poll => []
  }

  lemma {:induction false} ArrivalsGrow(events: seq<Event>, k: nat)
    requires k <= |events|
    ensures Arrivals(events[..k]) <= Arrivals(events)
    decreases |events|
  {
    if k < |events| {
      var most := events[..|events|-1];
      assert most[..k] == events[..k];
      ArrivalsGrow(most, k);
    } else {
      assert events[..k] == events;
    }
  }

  lemma NoArrivals(events: seq<Event>)
    ensures Arrivals(events[..0]) == []
  {}

  lemma ArrivalsNext(events: seq<Event>, i: nat)
    requires i < |events|
    ensures Arrivals(events[..i+1]) == Arrivals(events[..i]) + match events[i] case Interrupt(c) => [c] case Poll => []
  {
    assert events[..i+1][..i] == events[..i];
  }

  lemma StreamPart(s: seq<byte>, all: seq<byte>, ws: seq<seq<byte>>)
    requires Stream(all, ws) && s <= all
    ensures Stream(s, ws)
  {
    hide AllFramed, Concat;
  }

  /** Every interleaving of interrupts and polls in which the buffer has room for each byte. */
  method Run(port: SerialPort, events: seq<Event>, ghost ws: seq<seq<byte>>) returns (overflow: bool)
    requires port.Valid() && port.buf.sent == [] && port.got == []
    requires Stream(Arrivals(events), ws)
    modifies port, port.buf, port.buf.entry, port.pkt
    ensures !overflow ==> port.Valid() && port.buf.sent == Arrivals(events) && port.got <= Delivered(ws)
    ensures overflow ==> |port.buf.sent| == port.buf.taken + port.buf.size
    ensures !overflow && port.buf.taken == |Concat(ws)| ==> port.got == Delivered(ws)
  {
    hide Delivered, Concat, Parsed, CircularBuffer.Valid, Stream, Arrivals;
    assert Arrivals(events[..0]) == [] by { NoArrivals(events); }
    var i := 0;
    while i < |events|
      invariant 0 <= i <= |events|
      invariant port.Valid() && port.buf.sent == Arrivals(events[..i])
    {
      ArrivalsGrow(events, i);
      StreamPart(Arrivals(events[..i]), Arrivals(events), ws);
      ArrivalsNext(events, i);
      match events[i] {
        case Interrupt(c) =>
          var k := port.buf.Len();
          if k == port.buf.size {
            return true;
          }
          port.Receive(c);
        case Poll =>
          var eof, complete := port.PollByte(ws);
      }
      i := i + 1;
    }
    assert events[..i] == events;
    port.Known(ws);
    return false;
  }
}
