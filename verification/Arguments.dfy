/** The arguments of a packet: how a guest lays them out and where the decoders look for them. */
module Arguments {
  import opened Bytes
  import Framing

  /** A 4-byte value, or a block of bytes preceded by its 4-byte length. */
  datatype Arg = Scalar(value: nat) | Blob(bytes: seq<byte>)

  predicate Encodable(a: Arg) {
    match a
    case Scalar(v) => v < TWO32
    case Blob(b) => |b| < TWO32
  }

  function Encode(a: Arg): seq<byte>
    requires Encodable(a)
  {
    match a
    case Scalar(v) => U32Bytes(v)
    case Blob(b) => U32Bytes(|b|) + b
  }

  function Encodings(args: seq<Arg>): (parts: seq<seq<byte>>)
    requires forall i :: 0 <= i < |args| ==> Encodable(args[i])
    ensures |parts| == |args|
  {
    seq(|args|, i requires 0 <= i < |args| => Encode(args[i]))
  }

  function EncodeAll(args: seq<Arg>): seq<byte>
    requires forall i :: 0 <= i < |args| ==> Encodable(args[i])
  {
    Flatten(Encodings(args))
  }

  /** An 8-byte header and the arguments back to back. */
  function Packet(opcode: nat, args: seq<Arg>): seq<byte>
    requires opcode < TWO32 && forall i :: 0 <= i < |args| ==> Encodable(args[i])
    requires 8 + |EncodeAll(args)| < TWO32
  {
    U32Bytes(opcode) + U32Bytes(8 + |EncodeAll(args)|) + EncodeAll(args)
  }

  /** Where argument `k` starts, walking over the lengths that the packet itself holds. */
  function Offset(p: seq<byte>, blobs: seq<bool>, k: nat): nat
    requires k <= |blobs|
  {
    if k == 0 then 8 else
      var at := Offset(p, blobs, k - 1);
      if !blobs[k - 1] then at + 4 else if at + 4 <= |p| then at + 4 + U32At(p, at) else at
  }

  function Shape(args: seq<Arg>): (blobs: seq<bool>)
    ensures |blobs| == |args|
  {
    seq(|args|, i requires 0 <= i < |args| => args[i].Blob?)
  }

  /** `arg` is at `at`, wholly inside the packet. */
  predicate Holds(p: seq<byte>, at: nat, arg: Arg) {
    match arg
    case Scalar(v) => at + 4 <= |p| && U32At(p, at) == v
    case Blob(b) => at + 4 + |b| <= |p| && U32At(p, at) == |b| && p[at + 4..at + 4 + |b|] == b
  }

  lemma U32InMiddle(a: seq<byte>, v: nat, c: seq<byte>)
    requires v < TWO32
    ensures U32At(a + U32Bytes(v) + c, |a|) == v
  {
    var b, p := U32Bytes(v), a + U32Bytes(v) + c;
    assert p[|a|] == b[0] && p[|a| + 1] == b[1] && p[|a| + 2] == b[2] && p[|a| + 3] == b[3];
  }

  lemma HoldsInMiddle(a: seq<byte>, arg: Arg, c: seq<byte>)
    requires Encodable(arg)
    ensures Holds(a + Encode(arg) + c, |a|, arg)
  {
    match arg {
      case Scalar(v) => U32InMiddle(a, v, c);
      case Blob(b) =>
        assert a + Encode(arg) + c == a + U32Bytes(|b|) + (b + c);
        U32InMiddle(a, |b|, b + c);
    }
  }

  lemma EncodingLen(arg: Arg)
    requires Encodable(arg)
    ensures |Encode(arg)| == if arg.Blob? then 4 + |arg.bytes| else 4
  {
  }

  /** With the bytes before and after it, argument `k` is the part of the packet at this distance from its start. */
  lemma ArgumentPart(p: seq<byte>, head: seq<byte>, parts: seq<seq<byte>>, k: nat, arg: Arg)
    requires |head| == 8 && k < |parts| && p == head + Flatten(parts) && Encodable(arg) && parts[k] == Encode(arg)
    ensures Holds(p, 8 + |Flatten(parts[..k])|, arg)
    ensures |Flatten(parts[..k + 1])| == |Flatten(parts[..k])| + |parts[k]|
  {
    FlattenSplits(parts, k);
    var a, c := Flatten(parts[..k]), Flatten(parts[k + 1..]);
    Assoc(head, a + parts[k], c);
    Assoc(head, a, parts[k]);
    HoldsInMiddle(head + a, arg, c);
  }

  /** Stepping over one argument by the length that stands there. */
  lemma OffsetStep(p: seq<byte>, blobs: seq<bool>, k: nat, arg: Arg)
    requires k < |blobs| && Encodable(arg) && blobs[k] == arg.Blob? && Holds(p, Offset(p, blobs, k), arg)
    ensures Offset(p, blobs, k + 1) == Offset(p, blobs, k) + |Encode(arg)|
  {
    EncodingLen(arg);
  }

  lemma OffsetNext(p: seq<byte>, head: seq<byte>, parts: seq<seq<byte>>, blobs: seq<bool>, k: nat, arg: Arg)
    requires |head| == 8 && k < |parts| == |blobs| && p == head + Flatten(parts)
    requires Encodable(arg) && parts[k] == Encode(arg) && blobs[k] == arg.Blob?
    requires Offset(p, blobs, k) == 8 + |Flatten(parts[..k])|
    ensures Offset(p, blobs, k + 1) == 8 + |Flatten(parts[..k + 1])|
  {
    ArgumentPart(p, head, parts, k, arg);
    OffsetStep(p, blobs, k, arg);
  }

  /** `parts` are the encodings of `args`, and `blobs` their shape. */
  ghost predicate Encoded(args: seq<Arg>, parts: seq<seq<byte>>, blobs: seq<bool>) {
    && |parts| == |args| == |blobs|
    && forall i :: 0 <= i < |args| ==>
         Encodable(args[i]) && parts[i] == Encode(args[i]) && blobs[i] == args[i].Blob?
  }

  lemma {:induction false} OffsetIs(p: seq<byte>, head: seq<byte>, args: seq<Arg>, parts: seq<seq<byte>>,
                                    blobs: seq<bool>, k: nat)
    requires Encoded(args, parts, blobs) && |head| == 8 && p == head + Flatten(parts) && k <= |args|
    ensures Offset(p, blobs, k) == 8 + |Flatten(parts[..k])|
  {
    if k > 0 {
      var j := k - 1;
      OffsetIs(p, head, args, parts, blobs, j);
      OffsetNext(p, head, parts, blobs, j, args[j]);
    }
  }

  /** Every argument is found, whole, at the offset that the nested length expressions compute. */
  lemma ArgumentAt(p: seq<byte>, head: seq<byte>, args: seq<Arg>, k: nat)
    requires forall i :: 0 <= i < |args| ==> Encodable(args[i])
    requires |head| == 8 && p == head + EncodeAll(args) && k < |args|
    ensures Offset(p, Shape(args), k) == 8 + |Flatten(Encodings(args)[..k])|
    ensures Holds(p, Offset(p, Shape(args), k), args[k])
  {
    OffsetIs(p, head, args, Encodings(args), Shape(args), k);
    ArgumentPart(p, head, Encodings(args), k, args[k]);
  }

  // ---------------------------------------------------------------- three calls

  /** `size` bytes at `at`, inside the packet, are `b`. */
  predicate PointsTo(p: seq<byte>, at: nat, b: seq<byte>) {
    at + |b| <= |p| && p[at..at + |b|] == b
  }

  predicate Reads(p: seq<byte>, at: nat, v: nat) {
    at + 4 <= |p| && U32At(p, at) == v
  }

  /** The expressions that `decode` evaluates for `glShaderBinary` and, the same ones, for `glMultiDrawElementsEXT`. */
  predicate ShaderBinaryReads(p: seq<byte>, n: nat, shaders: seq<byte>, format: nat, binary: seq<byte>, length: nat) {
    && Reads(p, 8, n)
    && Reads(p, 8 + 4, |shaders|)
    && PointsTo(p, 8 + 4 + 4, shaders)
    && Reads(p, 8 + 4 + 4 + U32At(p, 8 + 4), format)
    && Reads(p, 8 + 4 + 4 + U32At(p, 8 + 4) + 4, |binary|)
    && PointsTo(p, 8 + 4 + 4 + U32At(p, 8 + 4) + 4 + 4, binary)
    && Reads(p, 8 + 4 + 4 + U32At(p, 8 + 4) + 4 + 4 + U32At(p, 8 + 4 + 4 + U32At(p, 8 + 4) + 4), length)
  }

  /** The same for `glGetPerfMonitorCountersAMD`. */
  predicate PerfMonitorCountersReads(p: seq<byte>, group: nat, num: seq<byte>, active: seq<byte>, size: nat,
                                     counters: seq<byte>) {
    && Reads(p, 8, group)
    && Reads(p, 8 + 4, |num|)
    && PointsTo(p, 8 + 4 + 4, num)
    && Reads(p, 8 + 4 + 4 + U32At(p, 8 + 4), |active|)
    && PointsTo(p, 8 + 4 + 4 + U32At(p, 8 + 4) + 4, active)
    && Reads(p, 8 + 4 + 4 + U32At(p, 8 + 4) + 4 + U32At(p, 8 + 4 + 4 + U32At(p, 8 + 4)), size)
    && Reads(p, 8 + 4 + 4 + U32At(p, 8 + 4) + 4 + U32At(p, 8 + 4 + 4 + U32At(p, 8 + 4)) + 4, |counters|)
    && PointsTo(p, 8 + 4 + 4 + U32At(p, 8 + 4) + 4 + U32At(p, 8 + 4 + 4 + U32At(p, 8 + 4)) + 4 + 4, counters)
  }

  /** All arguments of a packet, each at its offset. */
  ghost predicate HoldsAll(p: seq<byte>, args: seq<Arg>) {
    forall k :: 0 <= k < |args| ==> Holds(p, Offset(p, Shape(args), k), args[k])
  }

  lemma PacketHoldsAll(opcode: nat, args: seq<Arg>)
    requires opcode < TWO32 && forall i :: 0 <= i < |args| ==> Encodable(args[i])
    requires 8 + |EncodeAll(args)| < TWO32
    ensures HoldsAll(Packet(opcode, args), args)
  {
    forall k | 0 <= k < |args|
      ensures Holds(Packet(opcode, args), Offset(Packet(opcode, args), Shape(args), k), args[k])
    {
      ArgumentAt(Packet(opcode, args), U32Bytes(opcode) + U32Bytes(8 + |EncodeAll(args)|), args, k);
    }
  }

  lemma ShaderBinaryArguments(p: seq<byte>, n: nat, shaders: seq<byte>, format: nat, binary: seq<byte>, length: nat)
    requires HoldsAll(p, [Scalar(n), Blob(shaders), Scalar(format), Blob(binary), Scalar(length)])
    ensures ShaderBinaryReads(p, n, shaders, format, binary, length)
  {
    var args := [Scalar(n), Blob(shaders), Scalar(format), Blob(binary), Scalar(length)];
    var blobs := [false, true, false, true, false];
    assert Shape(args) == blobs;
    assert Holds(p, Offset(p, blobs, 0), args[0]);
    assert Holds(p, Offset(p, blobs, 1), args[1]);
    assert Holds(p, Offset(p, blobs, 2), args[2]);
    assert Holds(p, Offset(p, blobs, 3), args[3]);
    assert Holds(p, Offset(p, blobs, 4), args[4]);
  }

  lemma PerfMonitorCountersArguments(p: seq<byte>, group: nat, num: seq<byte>, active: seq<byte>, size: nat,
                                     counters: seq<byte>)
    requires HoldsAll(p, [Scalar(group), Blob(num), Blob(active), Scalar(size), Blob(counters)])
    ensures PerfMonitorCountersReads(p, group, num, active, size, counters)
  {
    var args := [Scalar(group), Blob(num), Blob(active), Scalar(size), Blob(counters)];
    var blobs := [false, true, true, false, true];
    assert Shape(args) == blobs;
    assert Holds(p, Offset(p, blobs, 0), args[0]);
    assert Holds(p, Offset(p, blobs, 1), args[1]);
    assert Holds(p, Offset(p, blobs, 2), args[2]);
    assert Holds(p, Offset(p, blobs, 3), args[3]);
    assert Holds(p, Offset(p, blobs, 4), args[4]);
  }

  ghost predicate CanSend(opcode: nat, args: seq<Arg>) {
    && opcode < TWO32 && (forall i :: 0 <= i < |args| ==> Encodable(args[i]))
    && 8 + |EncodeAll(args)| < TWO31
  }

  /** Encoding and decoding are inverse for these two layouts. */
  lemma RoundTrips(opcode: nat, u: nat, a: seq<byte>, v: nat, b: seq<byte>, x: nat, c: seq<byte>)
    ensures var args := [Scalar(u), Blob(a), Scalar(v), Blob(b), Scalar(x)];
            CanSend(opcode, args) ==> ShaderBinaryReads(Packet(opcode, args), u, a, v, b, x)
    ensures var args := [Scalar(u), Blob(a), Blob(b), Scalar(v), Blob(c)];
            CanSend(opcode, args) ==> PerfMonitorCountersReads(Packet(opcode, args), u, a, b, v, c)
  {
    var args1 := [Scalar(u), Blob(a), Scalar(v), Blob(b), Scalar(x)];
    if CanSend(opcode, args1) {
      PacketHoldsAll(opcode, args1);
      ShaderBinaryArguments(Packet(opcode, args1), u, a, v, b, x);
    }
    var args2 := [Scalar(u), Blob(a), Blob(b), Scalar(v), Blob(c)];
    if CanSend(opcode, args2) {
      PacketHoldsAll(opcode, args2);
      PerfMonitorCountersArguments(Packet(opcode, args2), u, a, b, v, c);
    }
  }

  /** A packet with a known opcode is one that the framing loops accept and dispatch whole. */
  lemma PacketIsWellFormed(opcode: nat, args: seq<Arg>)
    requires CanSend(opcode, args) && Framing.Known(opcode)
    ensures Framing.WellFormed(Packet(opcode, args)) && Framing.Opcode(Packet(opcode, args)) == opcode
  {
    var rest := EncodeAll(args);
    var p, len := Packet(opcode, args), U32Bytes(8 + |rest|);
    assert p == [] + U32Bytes(opcode) + (len + rest);
    U32InMiddle([], opcode, len + rest);
    U32InMiddle(U32Bytes(opcode), 8 + |rest|, rest);
  }
}
