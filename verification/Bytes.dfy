/** Bytes, and the little-endian 32-bit words that the renderer reads from them. */
module Bytes {
  type byte = x: nat | x < 256

  const TWO31: int := 0x8000_0000
  const TWO32: int := 0x1_0000_0000
  const TWO63: int := 0x8000_0000_0000_0000
  const TWO64: int := 0x1_0000_0000_0000_0000

  /** `*(unsigned int *)(b + i)` on a little-endian host. */
  function U32At(b: seq<byte>, i: nat): (v: nat)
    requires i + 4 <= |b|
    ensures v < TWO32
  {
    var b0: int, b1: int, b2: int, b3: int := b[i], b[i + 1], b[i + 2], b[i + 3];
    b0 + 0x100 * b1 + 0x1_0000 * b2 + 0x100_0000 * b3
  }

  /** The same 32 bits read as a signed `int`. */
  function I32(u: nat): (v: int)
    requires u < TWO32
    ensures -TWO31 <= v < TWO31
  {
    if u < TWO31 then u else u - TWO32
  }

  function U32Bytes(v: nat): (b: seq<byte>)
    requires v < TWO32
    ensures |b| == 4 && U32At(b, 0) == v
  {
    var r1 := v / 0x100;
    var r2 := r1 / 0x100;
    var r3 := r2 / 0x100;
    [v % 0x100, r1 % 0x100, r2 % 0x100, r3]
  }

  function Max(a: int, b: int): int { if a < b then b else a }

  lemma Assoc<T>(a: seq<T>, b: seq<T>, c: seq<T>)
    ensures a + b + c == a + (b + c)
  {
  }

  function Flatten<T>(parts: seq<seq<T>>): seq<T> {
    if parts == [] then [] else parts[0] + Flatten(parts[1..])
  }

  lemma {:induction false} FlattenAppend<T>(parts: seq<seq<T>>, last: seq<T>)
    ensures Flatten(parts + [last]) == Flatten(parts) + last
  {
    if parts == [] {
      assert Flatten([last]) == last + Flatten<T>([]);
    } else {
      assert (parts + [last])[1..] == parts[1..] + [last];
      FlattenAppend(parts[1..], last);
    }
  }

  lemma {:induction false} FlattenSplits<T>(parts: seq<seq<T>>, k: nat)
    requires k < |parts|
    ensures Flatten(parts) == Flatten(parts[..k]) + parts[k] + Flatten(parts[k + 1..])
    ensures Flatten(parts[..k + 1]) == Flatten(parts[..k]) + parts[k]
  {
    assert parts[..k + 1] == parts[..k] + [parts[k]];
    FlattenAppend(parts[..k], parts[k]);
    if k > 0 {
      FlattenSplits(parts[1..], k - 1);
      assert parts[1..][..k - 1] == parts[..k][1..] && parts[1..][k - 1] == parts[k] &&
             parts[1..][k..] == parts[k + 1..];
      Assoc(parts[0], Flatten(parts[..k][1..]), parts[k]);
      Assoc(parts[0], Flatten(parts[..k][1..]) + parts[k], Flatten(parts[k + 1..]));
    }
  }
}
