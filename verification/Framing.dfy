/**
 * The command stream: length-prefixed packets, the three decoders that share it, and the
 * trace of packets that a given stream of bytes must dispatch.
 */
module Framing {
  import opened Bytes

  datatype Decoder = Gles1 | Gles2 | RenderControl

  /** One dispatched command: the decoder that ran it and the bytes of its packet. */
  datatype Event = Event(decoder: Decoder, packet: seq<byte>)

  predicate Knows(d: Decoder, op: int) {
    match d
    case Gles1 => 1024 <= op <= 1314
    case Gles2 => 2048 <= op <= 2255
    case RenderControl => 10000 <= op <= 10025
  }

  function Opcode(b: seq<byte>): int
    requires |b| >= 8
  {
    I32(U32At(b, 0))
  }

  function PacketLen(b: seq<byte>): nat
    requires |b| >= 8
  {
    U32At(b, 4)
  }

  /** How far the decoders move their position: the length field again, but as a signed `int`. */
  function Advance(b: seq<byte>): int
    requires |b| >= 8
  {
    I32(PacketLen(b))
  }

  /** A header and all the bytes it announces are there. */
  predicate Whole(b: seq<byte>) {
    |b| >= 8 && PacketLen(b) <= |b|
  }

  predicate Takes(d: Decoder, b: seq<byte>) {
    Whole(b) && Knows(d, Opcode(b))
  }

  predicate Known(op: int) {
    Knows(Gles1, op) || Knows(Gles2, op) || Knows(RenderControl, op)
  }

  predicate Served(b: seq<byte>) {
    Whole(b) && Known(Opcode(b))
  }

  function Owner(b: seq<byte>): Decoder
    requires Served(b)
  {
    var op := Opcode(b);
    if Knows(Gles1, op) then Gles1 else if Knows(Gles2, op) then Gles2 else RenderControl
  }

  /** The opcode ranges are disjoint: a packet is taken by its owner and by no other decoder. */
  lemma OwnerIsUnique(b: seq<byte>, d: Decoder)
    ensures Takes(d, b) <==> Served(b) && d == Owner(b)
  {
  }

  /**
   * No packet that is reached announces a length of 0 or one of 2^31 and more: on such a packet
   * the decoders do not move forward.
   */
  predicate Sane(b: seq<byte>)
    decreases |b|
  {
    Served(b) ==> Advance(b) > 0 && Sane(b[Advance(b)..])
  }

  /** The commands that a stream must dispatch: its packets in order, up to the first that is not whole or not known. */
  function Trace(b: seq<byte>): seq<Event>
    requires Sane(b)
    decreases |b|
  {
    if Served(b) then [Event(Owner(b), b[..Advance(b)])] + Trace(b[Advance(b)..]) else []
  }

  /** The bytes that stay buffered after those commands. */
  function Rest(b: seq<byte>): seq<byte>
    requires Sane(b)
    decreases |b|
  {
    if Served(b) then Rest(b[Advance(b)..]) else b
  }

  function Packets(events: seq<Event>): seq<seq<byte>> {
    if events == [] then [] else [events[0].packet] + Packets(events[1..])
  }

  // ---------------------------------------------------------------- laws of the trace

  lemma HeaderOfPrefix(a: seq<byte>, c: seq<byte>)
    requires |a| >= 8
    ensures Opcode(a + c) == Opcode(a) && PacketLen(a + c) == PacketLen(a)
  {
  }

  lemma ServedOfPrefix(a: seq<byte>, c: seq<byte>)
    requires Served(a)
    ensures Served(a + c) && Owner(a + c) == Owner(a) && Advance(a + c) == Advance(a)
    ensures 0 <= Advance(a) ==> (a + c)[..Advance(a)] == a[..Advance(a)] && (a + c)[Advance(a)..] == a[Advance(a)..] + c
  {
    HeaderOfPrefix(a, c);
  }

  lemma {:induction false} SaneOfPrefix(a: seq<byte>, c: seq<byte>)
    requires Sane(a + c)
    ensures Sane(a)
    decreases |a|
  {
    if Served(a) {
      ServedOfPrefix(a, c);
      SaneOfPrefix(a[Advance(a)..], c);
    }
  }

  /** Parsing a stream is the same as parsing a prefix and then, from what that leaves, the remainder. */
  lemma {:induction false} TraceOfSplit(a: seq<byte>, c: seq<byte>)
    requires Sane(a + c)
    ensures Sane(a) && Sane(Rest(a) + c)
    ensures Trace(a + c) == Trace(a) + Trace(Rest(a) + c)
    ensures Rest(a + c) == Rest(Rest(a) + c)
    decreases |a|
  {
    SaneOfPrefix(a, c);
    if Served(a) {
      var n := Advance(a);
      ServedOfPrefix(a, c);
      TraceOfSplit(a[n..], c);
      Assoc([Event(Owner(a), a[..n])], Trace(a[n..]), Trace(Rest(a[n..]) + c));
    }
  }

  /** What is left can start no command. */
  lemma {:induction false} RestIsBlocked(b: seq<byte>)
    requires Sane(b)
    ensures !Served(Rest(b)) && |Rest(b)| <= |b|
    decreases |b|
  {
    if Served(b) {
      RestIsBlocked(b[Advance(b)..]);
    }
  }

  lemma FlattenCons(event: Event, events: seq<Event>)
    ensures Flatten(Packets([event] + events)) == event.packet + Flatten(Packets(events))
  {
    assert ([event] + events)[1..] == events;
    assert ([event.packet] + Packets(events))[1..] == Packets(events);
  }

  /** Every byte is either in exactly one dispatched packet, in stream order, or still buffered. */
  lemma {:induction false} NothingLost(b: seq<byte>)
    requires Sane(b)
    ensures Flatten(Packets(Trace(b))) + Rest(b) == b
    decreases |b|
  {
    if Served(b) {
      var n := Advance(b);
      NothingLost(b[n..]);
      FlattenCons(Event(Owner(b), b[..n]), Trace(b[n..]));
      Assoc(b[..n], Flatten(Packets(Trace(b[n..]))), Rest(b[n..]));
    }
  }

  /** A packet as a guest writes it. */
  predicate WellFormed(p: seq<byte>) {
    Served(p) && PacketLen(p) == |p| < TWO31
  }

  lemma TraceOfPacket(p: seq<byte>, more: seq<byte>)
    requires WellFormed(p) && Sane(more)
    ensures Sane(p + more) && Trace(p + more) == [Event(Owner(p), p)] + Trace(more) && Rest(p + more) == Rest(more)
  {
    ServedOfPrefix(p, more);
    assert (p + more)[|p|..] == more && (p + more)[..|p|] == p;
  }

  /**
   * For every list of well-formed packets followed by an incomplete or unknown remainder, the
   * trace is those packets, each once and in order, each under the one decoder that knows it.
   */
  lemma {:induction false} TraceOfPackets(packets: seq<seq<byte>>, tail: seq<byte>)
    requires forall i :: 0 <= i < |packets| ==> WellFormed(packets[i])
    requires !Served(tail)
    ensures var b := Flatten(packets) + tail;
            && Sane(b) && Rest(b) == tail && |Trace(b)| == |packets|
            && forall i :: 0 <= i < |packets| ==>
                 WellFormed(packets[i]) && Trace(b)[i] == Event(Owner(packets[i]), packets[i])
  {
    if packets == [] {
      assert Flatten(packets) + tail == tail;
    } else {
      var p, more := packets[0], Flatten(packets[1..]) + tail;
      assert Flatten(packets) + tail == p + more;
      TraceOfPackets(packets[1..], tail);
      TraceOfPacket(p, more);
    }
  }

  /** A header whose opcode no decoder knows. */
  predicate Unknown(b: seq<byte>) {
    |b| >= 8 && !Known(Opcode(b))
  }

  /** Once an unknown opcode heads the buffer, nothing more is dispatched and nothing is dropped. */
  lemma UnknownBlocksForever(b: seq<byte>, c: seq<byte>)
    requires Sane(b + c)
    requires Sane(b) ==> Unknown(Rest(b))
    ensures Sane(b) && Trace(b + c) == Trace(b) && Rest(b + c) == Rest(b) + c
  {
    TraceOfSplit(b, c);
    HeaderOfPrefix(Rest(b), c);
  }

  // ---------------------------------------------------------------- chunks

  /** The commands dispatched when the stream arrives in these pieces, starting from `pending` buffered bytes. */
  function FedTrace(pending: seq<byte>, chunks: seq<seq<byte>>): seq<Event>
    requires Sane(pending + Flatten(chunks))
    decreases |chunks|
  {
    if chunks == [] then [] else
      var b := pending + chunks[0];
      assert pending + Flatten(chunks) == b + Flatten(chunks[1..]);
      TraceOfSplit(b, Flatten(chunks[1..]));
      Trace(b) + FedTrace(Rest(b), chunks[1..])
  }

  lemma {:induction false} FedTraceIsTrace(pending: seq<byte>, chunks: seq<seq<byte>>)
    requires Sane(pending + Flatten(chunks))
    requires !Served(pending)
    ensures FedTrace(pending, chunks) == Trace(pending + Flatten(chunks))
    decreases |chunks|
  {
    if chunks == [] {
      assert pending + Flatten(chunks) == pending;
    } else {
      var b := pending + chunks[0];
      assert pending + Flatten(chunks) == b + Flatten(chunks[1..]);
      TraceOfSplit(b, Flatten(chunks[1..]));
      RestIsBlocked(b);
      FedTraceIsTrace(Rest(b), chunks[1..]);
    }
  }

  /** Two ways of cutting the same stream dispatch the same commands. */
  lemma ChunkingIndependence(chunks: seq<seq<byte>>, chunks': seq<seq<byte>>)
    requires Flatten(chunks) == Flatten(chunks')
    requires Sane(Flatten(chunks))
    ensures Sane([] + Flatten(chunks)) && FedTrace([], chunks) == FedTrace([], chunks')
  {
    assert [] + Flatten(chunks) == Flatten(chunks);
    FedTraceIsTrace([], chunks);
    FedTraceIsTrace([], chunks');
  }

  // ---------------------------------------------------------------- progress

  /** The position after one more iteration of a framing loop that is at `pos` in `b`. */
  function Stepped(d: Decoder, b: seq<byte>, pos: int): int {
    if 0 <= pos <= |b| && Takes(d, b[pos..]) then pos + Advance(b[pos..]) else pos
  }

  /** The position after `k` iterations of a framing loop on `b` that starts at `pos`. */
  function Position(d: Decoder, b: seq<byte>, pos: int, k: nat): int {
    if k == 0 then pos else Stepped(d, b, Position(d, b, pos, k - 1))
  }

  /** A known opcode with length field 0 is dispatched over and over: the loop never moves. */
  lemma {:induction false} ZeroLengthNeverMoves(d: Decoder, b: seq<byte>, pos: nat, k: nat)
    requires pos <= |b| && Takes(d, b[pos..]) && PacketLen(b[pos..]) == 0
    ensures Position(d, b, pos, k) == pos
  {
    if k > 0 {
      ZeroLengthNeverMoves(d, b, pos, k - 1);
    }
  }

  /** After `k` iterations the loop is on a packet that `d` does not take. */
  predicate Stopped(d: Decoder, b: seq<byte>, pos: int, k: nat) {
    var end := Position(d, b, pos, k);
    0 <= end <= |b| && !Takes(d, b[end..])
  }

  ghost predicate LoopEnds(d: Decoder, b: seq<byte>, pos: int) {
    exists k: nat :: Stopped(d, b, pos, k)
  }

  /** Among the packets that `d` takes one after the other, none announces length 0. */
  predicate NoZeroRun(d: Decoder, b: seq<byte>)
    decreases |b|
  {
    Takes(d, b) ==> PacketLen(b) != 0 && NoZeroRun(d, b[PacketLen(b)..])
  }

  /** After its first packet the loop goes on as if it had started there. */
  lemma {:induction false} PositionFirst(d: Decoder, b: seq<byte>, pos: int, next: int, k: nat)
    requires Stepped(d, b, pos) == next
    ensures Position(d, b, pos, k + 1) == Position(d, b, next, k)
  {
    if k == 0 {
      assert Position(d, b, pos, 0) == pos;
    } else {
      PositionFirst(d, b, pos, next, k - 1);
    }
  }

  lemma StoppedFirst(d: Decoder, b: seq<byte>, pos: int, next: int, k: nat)
    requires Stepped(d, b, pos) == next
    ensures Stopped(d, b, pos, k + 1) <==> Stopped(d, b, next, k)
  {
    PositionFirst(d, b, pos, next, k);
  }

  lemma NextLoopEnds(d: Decoder, b: seq<byte>, pos: int, next: int)
    requires Stepped(d, b, pos) == next && !Stopped(d, b, pos, 0)
    ensures LoopEnds(d, b, pos) <==> LoopEnds(d, b, next)
  {
    if LoopEnds(d, b, pos) {
      var k: nat :| Stopped(d, b, pos, k);
      StoppedFirst(d, b, pos, next, k - 1);
    }
    if LoopEnds(d, b, next) {
      var k: nat :| Stopped(d, b, next, k);
      StoppedFirst(d, b, pos, next, k);
    }
  }

  lemma ZeroLengthHangs(d: Decoder, b: seq<byte>, pos: nat)
    requires pos <= |b| && Takes(d, b[pos..]) && PacketLen(b[pos..]) == 0
    ensures !LoopEnds(d, b, pos)
  {
    forall k: nat
      ensures !Stopped(d, b, pos, k)
    {
      ZeroLengthNeverMoves(d, b, pos, k);
    }
  }

  lemma TakenSteps(d: Decoder, b: seq<byte>, pos: nat) returns (next: nat)
    requires pos <= |b| < TWO31 && Takes(d, b[pos..]) && PacketLen(b[pos..]) != 0
    ensures Stepped(d, b, pos) == next && pos < next <= |b| && !Stopped(d, b, pos, 0)
    ensures NoZeroRun(d, b[pos..]) <==> NoZeroRun(d, b[next..])
  {
    next := pos + PacketLen(b[pos..]);
    assert b[pos..][PacketLen(b[pos..])..] == b[next..];
  }

  /** On less than 2 GiB a decoder's framing loop ends if and only if it comes to no packet of length 0. */
  lemma {:induction false} LoopEndsExactly(d: Decoder, b: seq<byte>, pos: nat)
    requires pos <= |b| < TWO31
    ensures LoopEnds(d, b, pos) <==> NoZeroRun(d, b[pos..])
    decreases |b| - pos
  {
    if !Takes(d, b[pos..]) {
      assert Stopped(d, b, pos, 0);
    } else if PacketLen(b[pos..]) == 0 {
      ZeroLengthHangs(d, b, pos);
    } else {
      var next := TakenSteps(d, b, pos);
      LoopEndsExactly(d, b, next);
      NextLoopEnds(d, b, pos, next);
    }
  }

  /** On the buffer, and on what any number of its packets leave of it, every decoder's loop ends. */
  ghost predicate LoopsEnd(b: seq<byte>)
    decreases |b|
  {
    && (forall d :: LoopEnds(d, b, 0))
    && (Served(b) && PacketLen(b) != 0 ==> LoopsEnd(b[PacketLen(b)..]))
  }

  lemma {:induction false} SaneRuns(d: Decoder, b: seq<byte>)
    requires |b| < TWO31 && Sane(b)
    ensures NoZeroRun(d, b) && LoopEnds(d, b, 0)
    decreases |b|
  {
    OwnerIsUnique(b, d);
    if Takes(d, b) {
      SaneRuns(d, b[PacketLen(b)..]);
    }
    assert b[0..] == b;
    LoopEndsExactly(d, b, 0);
  }

  /** On less than 2 GiB, a stream is sane if and only if no decoder can hang on it. */
  lemma {:induction false} SaneExactly(b: seq<byte>)
    requires |b| < TWO31
    ensures Sane(b) <==> LoopsEnd(b)
    decreases |b|
  {
    if Sane(b) {
      forall d
        ensures LoopEnds(d, b, 0)
      {
        SaneRuns(d, b);
      }
    }
    if Served(b) {
      OwnerIsUnique(b, Owner(b));
      if PacketLen(b) == 0 {
        assert b[0..] == b;
        ZeroLengthHangs(Owner(b), b, 0);
      } else {
        SaneExactly(b[PacketLen(b)..]);
      }
    }
  }

  // ---------------------------------------------------------------- one decoder

  /** How many bytes one `decode` call of decoder `d` consumes. */
  function DecodedLen(d: Decoder, b: seq<byte>): (n: nat)
    requires Sane(b)
    ensures n <= |b|
    decreases |b|
  {
    if Takes(d, b) then Advance(b) + DecodedLen(d, b[Advance(b)..]) else 0
  }

  function Decoded(d: Decoder, b: seq<byte>): seq<Event>
    requires Sane(b)
    decreases |b|
  {
    if Takes(d, b) then [Event(d, b[..Advance(b)])] + Decoded(d, b[Advance(b)..]) else []
  }

  /** A decoder's run is a prefix of the trace, and leaves the rest of it to be dispatched. */
  lemma {:induction false} DecodeIsPrefixOfTrace(d: Decoder, b: seq<byte>)
    requires Sane(b)
    ensures var left := b[DecodedLen(d, b)..];
            && Sane(left) && !Takes(d, left)
            && Trace(b) == Decoded(d, b) + Trace(left) && Rest(b) == Rest(left)
    decreases |b|
  {
    OwnerIsUnique(b, d);
    if Takes(d, b) {
      var next := b[Advance(b)..];
      DecodeIsPrefixOfTrace(d, next);
      assert b[DecodedLen(d, b)..] == next[DecodedLen(d, next)..];
    }
  }

  // ---------------------------------------------------------------- bounds

  /** Every header of the stream has a known opcode and announces at most `limit` bytes. */
  predicate Bounded(b: seq<byte>, limit: nat)
    decreases |b|
  {
    |b| >= 8 ==>
      && Known(Opcode(b))
      && 0 < PacketLen(b) <= limit && limit < TWO31
      && (Whole(b) ==> Bounded(b[PacketLen(b)..], limit))
  }

  lemma {:induction false} RestIsShort(a: seq<byte>, c: seq<byte>, limit: nat)
    requires Bounded(a + c, limit) && 8 <= limit
    ensures Sane(a) && |Rest(a)| < limit
    decreases |a|
  {
    if |a| >= 8 {
      HeaderOfPrefix(a, c);
      if Whole(a) {
        ServedOfPrefix(a, c);
        RestIsShort(a[Advance(a)..], c, limit);
      }
    }
  }
}
