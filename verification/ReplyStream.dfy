/**
 * The reply side of a connection. `IOStream` hands out regions of a buffer that `SocketStream`
 * owns; each of the two keeps its own idea of the buffer and of its size.
 */
module ReplyStreams {
  import opened Bytes

  /** What one `send` does: it accepts some bytes, is interrupted, or fails for good. */
  datatype SendResult = Sent(count: nat) | Interrupted | Failed

  function Min(a: nat, b: nat): nat { if a < b then a else b }

  lemma FlattenFrom(parts: seq<seq<byte>>, i: nat, done: seq<byte>)
    requires i < |parts|
    ensures Flatten(parts[i..]) == parts[i] + Flatten(parts[i + 1..])
    ensures done + Flatten(parts[i..]) == done + parts[i] + Flatten(parts[i + 1..])
  {
    assert parts[i..][1..] == parts[i + 1..];
    Assoc(done, parts[i], Flatten(parts[i + 1..]));
  }

  /** A `size_t` squeezed through `int allocLen` and widened again. */
  function AllocLen(n: nat): nat {
    var i := I32(n % TWO32);
    if i >= 0 then i else i + TWO64
  }

  /**
   * A fresh buffer covers the request, so that `m_free -= len` does not underflow, exactly when the
   * request is below 2^31 or its low word is negative (and then asks the allocator for about 2^64 bytes).
   */
  lemma AllocLenCovers(bufsize: nat, len: nat)
    requires bufsize < TWO31 && len < TWO64
    ensures AllocLen(Max(bufsize, len)) >= len <==> len < TWO31 || len % TWO32 >= TWO31
  {
    assert len == len / TWO32 * TWO32 + len % TWO32;
    assert len / TWO32 < TWO32;
  }

  class SocketStream {
    const valid: bool            // the socket is open
    var attached: bool           // IOStream::m_buf is set; it then is SocketStream::m_buf
    var bufsize: nat             // IOStream::m_bufsize
    var free: nat                // IOStream::m_free
    var sockBuf: array?<byte>    // SocketStream::m_buf
    var sockBufsize: nat         // SocketStream::m_bufsize
    var wire: seq<byte>          // everything the peer has been sent

    /** What ties the two views of the buffer together. */
    ghost predicate Valid()
      reads this
    {
      && (attached ==> sockBuf != null && free <= bufsize <= sockBuf.Length)
      && (sockBuf != null ==> sockBufsize <= sockBuf.Length)
    }

    /** The bytes of the regions handed out since the last flush. */
    ghost function Pending(): seq<byte>
      requires Valid()
      reads this, sockBuf
    {
      if attached then sockBuf[..bufsize - free] else []
    }

    constructor (valid: bool, bufSize: nat)
      ensures Valid() && Pending() == [] && wire == [] && bufsize == bufSize && this.valid == valid
      ensures sockBuf == null
    {
      this.valid := valid;
      attached, bufsize, free := false, bufSize, 0;
      sockBuf, sockBufsize, wire := null, bufSize, [];
    }

    /**
     * Sends all of `data`, through short writes and interruptions; `script` is how the sends go, then
     * they accept everything.
     */
    method WriteFully(data: seq<byte>, script: seq<SendResult>) returns (stat: int, script': seq<SendResult>)
      modifies this`wire
      ensures stat == 0 ==> wire == old(wire) + data
      ensures stat < 0 ==> !valid || Failed in script
      ensures stat <= 0 && exists k :: 0 <= k <= |data| && wire == old(wire) + data[..k]
      ensures forall r :: r in script' ==> r in script
    {
      script' := script;
      stat := 0;
      if !valid {
        assert wire == old(wire) + data[..0];
        return -1, script;
      }
      var res := |data|;
      while res > 0
        invariant 0 <= res <= |data| && stat == 0
        invariant wire == old(wire) + data[..|data| - res]
        invariant forall r :: r in script' ==> r in script
        decreases |script'|, res
      {
        var sent := if script' == [] then Sent(res) else script'[0];
        script' := if script' == [] then [] else script'[1..];
        match sent {
          case Failed =>
            stat := -1;
            break;
          case Interrupted =>
          case Sent(count) =>
            var n := Min(count, res);
            var at := |data| - res;
            Assoc(old(wire), data[..at], data[at..at + n]);
            assert data[..at] + data[at..at + n] == data[..at + n];
            wire := wire + data[at..at + n];
            res := res - n;
        }
      }
      assert data[..|data|] == data;
    }

    /** `SocketStream::allocBuffer`; `granted` says whether the allocator delivers. */
    method AllocBuffer(minSize: nat, granted: bool) returns (ok: bool)
      requires sockBuf != null ==> sockBufsize <= sockBuf.Length
      modifies this`sockBuf, this`sockBufsize
      ensures ok <==> sockBuf != null
      ensures sockBuf != null ==> sockBufsize <= sockBuf.Length && minSize <= sockBuf.Length
      ensures sockBuf == old(sockBuf) || sockBuf == null || fresh(sockBuf)
      ensures granted ==> ok
    {
      var allocSize := Max(sockBufsize, minSize);
      if sockBuf == null {
        if granted {
          sockBuf := new byte[allocSize](_ => 0);
        }
      } else if sockBufsize < allocSize {
        if granted {
          var was := sockBuf;
          sockBuf := new byte[allocSize](i requires 0 <= i < allocSize reads was =>
                                           if i < was.Length then was[i] else 0);
          sockBufsize := allocSize;
        } else {
          sockBuf := null;
          sockBufsize := 0;
        }
      }
      ok := sockBuf != null;
    }

    /** `IOStream::flush`. */
    method Flush(script: seq<SendResult>) returns (stat: int, script': seq<SendResult>)
      requires Valid()
      modifies this`attached, this`free, this`wire
      ensures Valid()
      ensures stat == 0 ==> wire == old(wire + Pending()) && Pending() == []
      ensures stat < 0 ==> !valid || Failed in script
      ensures stat <= 0 && (forall r :: r in script' ==> r in script)
      ensures attached ==> free == bufsize
    {
      script' := script;
      if !attached || free == bufsize {
        return 0, script;
      }
      stat, script' := WriteFully(sockBuf[..bufsize - free], script);
      attached := false;
      free := 0;
    }

    /**
     * `IOStream::alloc`: reserves the next `len` bytes and returns their offset in the buffer, or -1.
     * The new region starts where the pending bytes end, so no two live regions overlap.
     */
    method Alloc(len: nat, granted: bool, script: seq<SendResult>) returns (ptr: int, script': seq<SendResult>)
      requires Valid()
      requires AllocLen(Max(bufsize, len)) >= len
      modifies this
      ensures Valid() && (sockBuf == old(sockBuf) || sockBuf == null || fresh(sockBuf))
      ensures ptr >= 0 ==> attached && |Pending()| == ptr + len <= sockBuf.Length
      ensures ptr >= 0 ==> wire + Pending()[..ptr] == old(wire + Pending())
      ensures ptr < 0 ==> !granted || !valid || Failed in script
      ensures valid && Failed !in script && ptr < 0 ==> wire + Pending() == old(wire + Pending())
      ensures forall r :: r in script' ==> r in script
      ensures bufsize == old(bufsize) || bufsize == AllocLen(Max(old(bufsize), len))
    {
      script' := script;
      if attached && len > free {
        var stat;
        stat, script' := Flush(script);
        if stat < 0 {
          return -1, script';
        }
      }
      if !attached || len > bufsize {
        var allocLen := AllocLen(Max(bufsize, len));
        attached := AllocBuffer(allocLen, granted);
        if !attached {
          return -1, script';
        }
        bufsize, free := allocLen, allocLen;
      }
      ptr := bufsize - free;
      free := free - len;
    }

    /** A caller writes into a region it was given. */
    method Fill(ptr: nat, data: seq<byte>)
      requires Valid() && attached && ptr + |data| <= |Pending()|
      modifies sockBuf
      ensures Valid() && Pending() == old(Pending())[..ptr] + data + old(Pending())[ptr + |data|..]
      ensures Pending()[..ptr + |data|] == old(Pending())[..ptr] + data
    {
      forall i | 0 <= i < |data| {
        sockBuf[ptr + i] := data[i];
      }
      assert Pending()[..ptr + |data|] == old(Pending())[..ptr] + data;
    }

    /**
     * One reply with several outputs: a single region, cut into consecutive parts at the running
     * sums of the sizes before them.
     */
    method Reply(parts: seq<seq<byte>>, granted: bool, script: seq<SendResult>) returns (ok: bool,
                 script': seq<SendResult>)
      requires Valid() && bufsize < TWO31 && |Flatten(parts)| < TWO31
      modifies this, sockBuf
      ensures Valid() && bufsize < TWO31 && (sockBuf == old(sockBuf) || sockBuf == null || fresh(sockBuf))
      ensures ok ==> wire + Pending() == old(wire + Pending()) + Flatten(parts)
      ensures !ok && valid && Failed !in script ==> wire + Pending() == old(wire + Pending())
      ensures !ok ==> !granted || !valid || Failed in script
      ensures forall r :: r in script' ==> r in script
    {
      AllocLenCovers(bufsize, |Flatten(parts)|);
      var ptr;
      ptr, script' := Alloc(|Flatten(parts)|, granted, script);
      ok := ptr >= 0;
      if ok {
        ghost var before := Pending()[..ptr];
        FillParts(ptr, parts);
        Assoc(wire, before, Flatten(parts));
      }
    }

    method FillParts(ptr: nat, parts: seq<seq<byte>>)
      requires Valid() && attached && |Pending()| == ptr + |Flatten(parts)|
      modifies sockBuf
      ensures Valid() && Pending() == old(Pending())[..ptr] + Flatten(parts)
    {
      var at := ptr;
      ghost var done := Pending()[..ptr];
      ghost var all := done + Flatten(parts);
      assert parts[0..] == parts;
      for i := 0 to |parts|
        invariant Valid() && at == |done| && done + Flatten(parts[i..]) == all
        invariant |Pending()| == |all| && Pending()[..at] == done
      {
        FlattenFrom(parts, i, done);
        Fill(at, parts[i]);
        at := at + |parts[i]|;
        done := done + parts[i];
      }
    }
  }

  datatype Call = Reply(parts: seq<seq<byte>>, granted: bool) | Flush

  /** The bytes that a list of calls hands over, in call order. */
  function Output(calls: seq<Call>): seq<byte> {
    if calls == [] then []
    else Output(calls[..|calls| - 1]) + match calls[|calls| - 1] case Reply(parts, _) => Flatten(parts) case Flush => []
  }

  /**
   * A session of replies and flushes, stopped by the first call that fails. Unless the socket
   * failed for good, what was sent followed by what is pending is the output of the calls that
   * were made, byte for byte.
   */
  method Session(valid: bool, bufSize: nat, calls: seq<Call>, script: seq<SendResult>)
    returns (stream: SocketStream, done: nat)
    requires bufSize < TWO31
    requires forall i :: 0 <= i < |calls| && calls[i].Reply? ==> |Flatten(calls[i].parts)| < TWO31
    ensures fresh(stream) && stream.Valid() && done <= |calls|
    ensures valid && Failed !in script ==> stream.wire + stream.Pending() == Output(calls[..done])
    ensures valid && Failed !in script && done < |calls| ==> calls[done].Reply? && !calls[done].granted
    ensures valid && Failed !in script && 0 < done == |calls| && calls[done - 1].Flush? ==>
            stream.wire == Output(calls[..done])
  {
    stream := new SocketStream(valid, bufSize);
    var script' := script;
    done := 0;
    var ok := true;
    while ok && done < |calls|
      invariant fresh(stream) && stream.valid == valid && stream.Valid() && stream.bufsize < TWO31 && done <= |calls|
      invariant stream.sockBuf != null ==> fresh(stream.sockBuf)
      invariant forall r :: r in script' ==> r in script
      invariant valid && Failed !in script ==> stream.wire + stream.Pending() == Output(calls[..done])
      invariant !ok && valid && Failed !in script ==> done < |calls| && calls[done].Reply? && !calls[done].granted
      invariant ok && valid && Failed !in script && done > 0 && calls[done - 1].Flush? ==>
                stream.wire == Output(calls[..done])
      decreases |calls| - done, ok
    {
      assert calls[..done + 1][..done] == calls[..done];
      match calls[done] {
        case Reply(parts, granted) =>
          ok, script' := stream.Reply(parts, granted, script');
        case Flush =>
          var stat;
          stat, script' := stream.Flush(script');
          ok := stat >= 0;
      }
      if ok {
        done := done + 1;
      }
    }
  }
}
