/** The growable sliding buffer that collects what the socket delivers. */
module ReadBuffers {
  import opened Bytes

  const INT_MAX := TWO31 - 1

  class ReadBuffer {
    var buf: array<byte>
    var readPtr: nat
    var validData: nat

    ghost predicate Valid()
      reads this
    {
      readPtr + validData <= buf.Length
    }

    /** The bytes received and not yet consumed. */
    ghost function Contents(): seq<byte>
      requires Valid()
      reads this, buf
    {
      buf[readPtr..readPtr + validData]
    }

    constructor (bufsize: nat)
      ensures Valid() && fresh(buf) && buf.Length == bufsize && Contents() == []
    {
      buf := new byte[bufsize](_ => 0);
      readPtr := 0;
      validData := 0;
    }

    /**
     * Slides the pending bytes to the front, doubles the buffer when it is full, and reads once.
     * `incoming` is what the socket holds (nothing: closed or failed), `maxAlloc` the largest
     * block the allocator grants.
     */
    method GetData(incoming: seq<byte>, maxAlloc: nat) returns (stat: int)
      requires Valid() && buf.Length < TWO63 && |incoming| <= INT_MAX
      modifies this, buf
      ensures Valid() && (buf == old(buf) || fresh(buf))
      ensures buf.Length == (if old(validData < buf.Length) || 2 * old(buf.Length) > maxAlloc
                             then old(buf.Length) else 2 * old(buf.Length))
      ensures incoming == [] || old(validData) == buf.Length ==> stat == -1 && Contents() == old(Contents())
      ensures incoming != [] && old(validData) < buf.Length ==>
                && 0 < stat <= |incoming| && (stat == |incoming| || validData == buf.Length)
                && Contents() == old(Contents()) + incoming[..stat]
    {
      Slide();
      var ok := MakeRoom(maxAlloc);
      if !ok {
        return -1;
      }
      readPtr := 0;
      var len := buf.Length - validData;
      stat := if |incoming| < len then |incoming| else len;
      if stat == 0 {
        return -1;
      }
      Append(incoming[..stat]);
    }

    /** The `memmove` of the pending bytes to offset 0. */
    method Slide()
      requires Valid()
      modifies buf
      ensures Valid() && buf[..validData] == old(Contents())
    {
      if validData > 0 && readPtr > 0 {
        forall i | 0 <= i < validData {
          buf[i] := buf[readPtr + i];
        }
      }
    }

    /** A full buffer is reallocated at twice its size, with the source's guard against `size_t` overflow. */
    method MakeRoom(maxAlloc: nat) returns (ok: bool)
      requires validData <= buf.Length < TWO63
      modifies this`buf
      ensures ok <==> validData < old(buf.Length) || 2 * old(buf.Length) <= maxAlloc
      ensures if ok && validData == old(buf.Length)
              then fresh(buf) && buf.Length == 2 * old(buf.Length) else buf == old(buf)
      ensures validData <= buf.Length && buf[..validData] == old(buf[..validData])
    {
      ok := true;
      if buf.Length - validData == 0 {
        var newSize := buf.Length * 2 % TWO64;
        if newSize < buf.Length {
          newSize := INT_MAX;
        }
        if newSize > maxAlloc {
          return false;
        }
        buf := new byte[newSize](i requires 0 <= i < newSize reads this, buf => if i < buf.Length then buf[i] else 0);
      }
    }

    method Append(data: seq<byte>)
      requires readPtr == 0 && validData + |data| <= buf.Length
      modifies this`validData, buf
      ensures Valid() && Contents() == old(buf[..validData]) + data && validData == old(validData) + |data|
    {
      forall i | 0 <= i < |data| {
        buf[validData + i] := data[i];
      }
      validData := validData + |data|;
    }

    method Consume(amount: nat)
      requires Valid() && amount <= validData
      modifies this`readPtr, this`validData
      ensures Valid() && Contents() == old(Contents())[amount..]
      ensures validData == old(validData) - amount
    {
      validData := validData - amount;
      readPtr := readPtr + amount;
    }
  }
}

/** The render thread: three decoders in rotation over one read buffer. */
module RenderThreads {
  import opened Bytes
  import opened Framing
  import opened ReadBuffers

  /** The two header words at `pos`. */
  method ReadHeader(b: seq<byte>, pos: nat) returns (opcode: int, packetLen: nat)
    requires pos + 8 <= |b|
    ensures opcode == Opcode(b[pos..]) && packetLen == PacketLen(b[pos..]) < TWO32
  {
    opcode, packetLen := I32(U32At(b, pos)), U32At(b, pos + 4);
  }

  lemma SliceOfSlice(b: seq<byte>, pos: nat, n: nat)
    requires pos + n <= |b|
    ensures b[pos..pos + n] == b[pos..][..n] && b[pos + n..] == b[pos..][n..]
  {
  }

  /** The call sites `events` and `pos` have reached when `left` is still to be decoded. */
  ghost predicate Reached(d: Decoder, b: seq<byte>, pos: nat, events: seq<Event>, left: seq<byte>) {
    && Sane(b) && Sane(left)
    && events + Decoded(d, left) == Decoded(d, b)
    && pos + DecodedLen(d, left) == DecodedLen(d, b)
  }

  /** One iteration on a packet that the decoder takes. */
  lemma ReachedNext(d: Decoder, b: seq<byte>, pos: nat, events: seq<Event>, left: seq<byte>)
    requires Reached(d, b, pos, events, left) && Takes(d, left)
    ensures var n := Advance(left);
            n > 0 && Reached(d, b, pos + n, events + [Event(d, left[..n])], left[n..])
  {
    OwnerIsUnique(left, d);
    Assoc(events, [Event(d, left[..Advance(left)])], Decoded(d, left[Advance(left)..]));
  }

  /** One `decode` call: the framing loop, with every GL call an event. */
  method Decode(d: Decoder, b: seq<byte>) returns (pos: nat, events: seq<Event>)
    requires Sane(b)
    ensures pos == DecodedLen(d, b) && events == Decoded(d, b)
  {
    pos, events := 0, [];
    if |b| < 8 { return; }
    var unknownOpcode := false;
    ghost var left := b;
    while |b| - pos >= 8 && !unknownOpcode
      invariant pos <= |b| && left == b[pos..]
      invariant Reached(d, b, pos, events, left)
      invariant unknownOpcode ==> !Takes(d, left)
      decreases |b| - pos, !unknownOpcode
    {
      var opcode, packetLen := ReadHeader(b, pos);
      if |b| - pos < packetLen { break; }
      if Knows(d, opcode) {
        ReachedNext(d, b, pos, events, left);
        var n := I32(packetLen);
        SliceOfSlice(b, pos, n);
        events := events + [Event(d, b[pos..pos + n])];
        pos := pos + n;
        left := left[n..];
      } else {
        unknownOpcode := true;
      }
    }
  }

  /** One decoder's turn: decode, then drop from the buffer what was consumed. */
  method Turn(d: Decoder, readBuf: ReadBuffer) returns (progress: bool, events: seq<Event>)
    requires readBuf.Valid() && Sane(readBuf.Contents())
    modifies readBuf`readPtr, readBuf`validData
    ensures readBuf.Valid() && Sane(readBuf.Contents())
    ensures Trace(old(readBuf.Contents())) == events + Trace(readBuf.Contents())
    ensures Rest(old(readBuf.Contents())) == Rest(readBuf.Contents())
    ensures !progress ==> readBuf.Contents() == old(readBuf.Contents()) && events == [] && !Takes(d, readBuf.Contents())
    ensures progress ==> readBuf.validData < old(readBuf.validData)
    ensures readBuf.validData <= old(readBuf.validData)
  {
    DecodeIsPrefixOfTrace(d, readBuf.Contents());
    var last;
    last, events := Decode(d, readBuf.buf[readBuf.readPtr..readBuf.readPtr + readBuf.validData]);
    progress := last > 0;
    if last > 0 {
      readBuf.Consume(last);
    } else {
      assert readBuf.Contents()[0..] == readBuf.Contents();
    }
  }

  /** The inner loop: the decoders take turns until none of them makes progress. */
  method Drain(readBuf: ReadBuffer) returns (trace: seq<Event>)
    requires readBuf.Valid() && Sane(readBuf.Contents())
    modifies readBuf`readPtr, readBuf`validData
    ensures readBuf.Valid()
    ensures trace == Trace(old(readBuf.Contents()))
    ensures readBuf.Contents() == Rest(old(readBuf.Contents()))
  {
    trace := [];
    var progress := true;
    while progress
      invariant readBuf.Valid() && Sane(readBuf.Contents())
      invariant trace + Trace(readBuf.Contents()) == Trace(old(readBuf.Contents()))
      invariant Rest(readBuf.Contents()) == Rest(old(readBuf.Contents()))
      invariant !progress ==> !Served(readBuf.Contents())
      decreases readBuf.validData, progress
    {
      var p1, e1 := Turn(Gles1, readBuf);
      var p2, e2 := Turn(Gles2, readBuf);
      var p3, e3 := Turn(RenderControl, readBuf);
      Assoc(trace, e1, e2 + (e3 + Trace(readBuf.Contents())));
      Assoc(trace + e1, e2, e3 + Trace(readBuf.Contents()));
      Assoc(trace + e1 + e2, e3, Trace(readBuf.Contents()));
      trace := trace + e1 + e2 + e3;
      progress := p1 || p2 || p3;
    }
  }

  ghost predicate Fits(input: seq<byte>, limit: nat) { 8 <= limit && Bounded(input, limit) }

  /** The bytes that a read of at most `cut` finds. */
  function Arriving(input: seq<byte>, received: nat, cut: nat): (b: seq<byte>)
    requires received <= |input|
    ensures |b| <= cut && received + |b| <= |input| && b == input[received..received + |b|]
  {
    if received + cut <= |input| then input[received..received + cut] else input[received..]
  }

  /** The bytes that the next read finds when the stream is cut as `cuts` says and then closes. */
  function Incoming(input: seq<byte>, received: nat, cuts: seq<nat>, readCount: nat): seq<byte>
    requires received <= |input|
  {
    Arriving(input, received, if readCount < |cuts| then cuts[readCount] else 0)
  }

  /** What a prefix of a sane or bounded stream inherits from it. */
  lemma Received(input: seq<byte>, got: seq<byte>, more: seq<byte>, limit: nat)
    requires Sane(input) && |got| + |more| <= |input|
    requires got == input[..|got|] && more == input[|got|..|got| + |more|]
    ensures Sane(got) && Sane(got + more)
    ensures Fits(input, limit) ==> |Rest(got)| < limit
  {
    assert input == got + input[|got|..];
    assert input == got + more + input[|got| + |more|..];
    SaneOfPrefix(got, input[|got|..]);
    SaneOfPrefix(got + more, input[|got| + |more|..]);
    if Fits(input, limit) {
      RestIsShort(got, input[|got|..], limit);
    }
  }

  lemma ReceivedPart(input: seq<byte>, got: seq<byte>, more: seq<byte>, n: nat)
    requires |got| + |more| <= |input| && n <= |more|
    requires got == input[..|got|] && more == input[|got|..|got| + |more|]
    ensures got <= got + more[..n] <= input
  {
  }

  lemma TraceGrows(got: seq<byte>, incoming: seq<byte>, n: nat)
    requires n <= |incoming| && Sane(got) && Sane(got + incoming)
    ensures var b := Rest(got) + incoming[..n];
            && Sane(got + incoming[..n]) && Sane(b)
            && Trace(got + incoming[..n]) == Trace(got) + Trace(b) && Rest(got + incoming[..n]) == Rest(b)
  {
    assert got + incoming == got + incoming[..n] + incoming[n..];
    SaneOfPrefix(got + incoming[..n], incoming[n..]);
    TraceOfSplit(got, incoming[..n]);
  }

  /** A read, and the dump of the bytes just read: the last `stat` of the valid ones. */
  method Receive(readBuf: ReadBuffer, dump: seq<byte>, incoming: seq<byte>, maxAlloc: nat)
    returns (stat: int, dump': seq<byte>)
    requires readBuf.Valid() && readBuf.buf.Length < TWO63 && |incoming| <= INT_MAX
    modifies readBuf, readBuf.buf
    ensures readBuf.Valid() && (readBuf.buf == old(readBuf.buf) || fresh(readBuf.buf))
    ensures readBuf.buf.Length == (if || old(readBuf.validData < readBuf.buf.Length)
                                      || 2 * old(readBuf.buf.Length) > maxAlloc
                                   then old(readBuf.buf.Length) else 2 * old(readBuf.buf.Length))
    ensures stat <= |incoming| && (stat <= 0 <==> incoming == [] || old(readBuf.validData) == readBuf.buf.Length)
    ensures dump' == if stat > 0 then dump + incoming[..stat] else dump
    ensures readBuf.Contents() == if stat > 0 then old(readBuf.Contents()) + incoming[..stat]
                                  else old(readBuf.Contents())
  {
    dump' := dump;
    stat := readBuf.GetData(incoming, maxAlloc);
    if stat <= 0 { return; }
    var skip := readBuf.validData - stat;
    var newest := readBuf.buf[readBuf.readPtr + skip..readBuf.readPtr + skip + (readBuf.validData - skip)];
    assert newest == readBuf.Contents()[skip..];
    dump' := dump + newest;
  }

  /**
   * One pass of the outer loop: a read, the dump of the bytes just read, and the decoders' turns.
   * `dump` is everything received so far and `trace` everything dispatched so far.
   */
  method Pass(readBuf: ReadBuffer, dump: seq<byte>, trace: seq<Event>, incoming: seq<byte>, maxAlloc: nat)
    returns (stat: int, dump': seq<byte>, trace': seq<Event>)
    requires readBuf.Valid() && readBuf.buf.Length < TWO63 && |incoming| <= INT_MAX
    requires Sane(dump) && Sane(dump + incoming) && trace == Trace(dump) && readBuf.Contents() == Rest(dump)
    modifies readBuf, readBuf.buf
    ensures readBuf.Valid() && (readBuf.buf == old(readBuf.buf) || fresh(readBuf.buf))
    ensures readBuf.buf.Length == (if || old(readBuf.validData < readBuf.buf.Length)
                                      || 2 * old(readBuf.buf.Length) > maxAlloc
                                   then old(readBuf.buf.Length) else 2 * old(readBuf.buf.Length))
    ensures stat <= |incoming| && (stat <= 0 <==> incoming == [] || old(readBuf.validData) == readBuf.buf.Length)
    ensures dump' == if stat > 0 then dump + incoming[..stat] else dump
    ensures Sane(dump') && trace' == Trace(dump') && readBuf.Contents() == Rest(dump')
  {
    trace' := trace;
    stat, dump' := Receive(readBuf, dump, incoming, maxAlloc);
    if stat <= 0 { return; }
    TraceGrows(dump, incoming, stat);
    var events := Drain(readBuf);
    trace' := trace + events;
  }

  /** One pass on the stream that is still to come, and what it does to the size of the buffer. */
  method PassOn(readBuf: ReadBuffer, input: seq<byte>, cut: nat, dump: seq<byte>, trace: seq<Event>, maxAlloc: nat,
                ghost limit: nat)
    returns (stat: int, dump': seq<byte>, trace': seq<Event>)
    requires readBuf.Valid() && readBuf.buf.Length < TWO63 && cut <= INT_MAX && maxAlloc < TWO63
    requires Sane(input) && dump <= input
    requires Sane(dump) && trace == Trace(dump) && readBuf.Contents() == Rest(dump)
    modifies readBuf, readBuf.buf
    ensures readBuf.Valid() && (readBuf.buf == old(readBuf.buf) || fresh(readBuf.buf)) && readBuf.buf.Length < TWO63
    ensures old(readBuf.buf.Length) <= readBuf.buf.Length
    ensures Fits(input, limit) ==> readBuf.buf.Length <= Max(old(readBuf.buf.Length), 2 * (limit - 1))
    ensures dump <= dump' <= input && |dump'| == |dump| + if stat > 0 then stat else 0
    ensures Sane(dump') && trace' == Trace(dump') && readBuf.Contents() == Rest(dump')
    ensures stat <= 0 && 0 < old(readBuf.buf.Length) && Fits(input, limit) && 2 * (limit - 1) <= maxAlloc ==>
              Arriving(input, |dump|, cut) == []
  {
    var incoming := Arriving(input, |dump|, cut);
    Received(input, dump, incoming, limit);
    stat, dump', trace' := Pass(readBuf, dump, trace, incoming, maxAlloc);
    ReceivedPart(input, dump, incoming, if stat > 0 then stat else 0);
  }

  /**
   * A whole run of the thread over everything the guest ever sends. However the socket cuts the
   * stream, the trace is that of the bytes received, the dump file holds exactly those bytes, and
   * what was not dispatched is still in the buffer. When all opcodes are known and no packet is
   * longer than `limit`, the buffer stays below the bound and only the socket ends the run.
   */
  method Run(input: seq<byte>, cuts: seq<nat>, bufsize: nat, maxAlloc: nat, ghost limit: nat)
    returns (trace: seq<Event>, received: nat, readCount: nat, dump: seq<byte>, readBuf: ReadBuffer)
    requires Sane(input) && bufsize < TWO63 && maxAlloc < TWO63
    requires forall i :: 0 <= i < |cuts| ==> cuts[i] <= INT_MAX
    ensures received <= |input| && dump == input[..received]
    ensures Sane(dump) && trace == Trace(dump)
    ensures fresh(readBuf) && readBuf.Valid() && readBuf.Contents() == Rest(dump)
    ensures Fits(input, limit) ==> readBuf.buf.Length <= Max(bufsize, 2 * (limit - 1))
    ensures 0 < bufsize && Fits(input, limit) && 2 * (limit - 1) <= maxAlloc ==>
              Incoming(input, received, cuts, readCount) == []
  {
    readBuf := new ReadBuffer(bufsize);
    trace, received, readCount, dump := [], 0, 0, [];
    ghost var fits := Fits(input, limit);
    ghost var bound := Max(bufsize, 2 * (limit - 1));
    var stat := 1;
    while stat > 0
      invariant received <= |input| && dump == input[..received]
      invariant Sane(dump) && trace == Trace(dump)
      invariant fresh(readBuf) && fresh(readBuf.buf) && readBuf.Valid() && readBuf.Contents() == Rest(dump)
      invariant readBuf.buf.Length < TWO63
      invariant 0 < bufsize ==> 0 < readBuf.buf.Length
      invariant fits ==> readBuf.buf.Length <= bound
      invariant stat <= 0 && 0 < bufsize && fits && 2 * (limit - 1) <= maxAlloc ==>
                Incoming(input, received, cuts, readCount) == []
      decreases |input| - received, stat
    {
      var cut := if readCount < |cuts| then cuts[readCount] else 0;
      stat, dump, trace := PassOn(readBuf, input, cut, dump, trace, maxAlloc, limit);
      if stat > 0 {
        received := received + stat;
        readCount := readCount + 1;
      }
    }
  }
}
