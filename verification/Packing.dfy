/** The packing helpers of `glUtils`: vertex data with a stride, and the strings of a shader source. */
module Packing {
  import opened Bytes

  // ---------------------------------------------------------------- strided gather

  /** Elements 0 .. n-1 of `vsize` bytes each, `stride` bytes apart. */
  function Gather(src: seq<byte>, vsize: nat, stride: nat, n: nat): (g: seq<byte>)
    requires n > 0 ==> (n - 1) * stride + vsize <= |src|
    ensures |g| == n * vsize
  {
    if n == 0 then [] else
      assert (n - 2) * stride + vsize <= (n - 1) * stride + vsize;
      Gather(src, vsize, stride, n - 1) + src[(n - 1) * stride..(n - 1) * stride + vsize]
  }

  lemma MulMono(a: nat, b: nat, m: nat)
    requires a <= b
    ensures a * m <= b * m
  {
  }

  /** Byte `o` of element `c` comes from byte `o` of the strided element. */
  lemma {:induction false} GatherAt(src: seq<byte>, vsize: nat, stride: nat, n: nat, c: nat, o: nat)
    requires c < n && o < vsize && (n - 1) * stride + vsize <= |src|
    ensures 0 <= c * vsize + o < n * vsize && c * stride + o < |src|
    ensures Gather(src, vsize, stride, n)[c * vsize + o] == src[c * stride + o]
  {
    MulMono(c + 1, n, vsize);
    MulMono(c, n - 1, stride);
    if c < n - 1 {
      MulMono(c + 1, n - 1, vsize);
      MulMono(n - 2, n - 1, stride);
      GatherAt(src, vsize, stride, n - 1, c, o);
    } else {
      LastOfGather(src, vsize, stride, n, o);
    }
  }

  lemma LastOfGather(src: seq<byte>, vsize: nat, stride: nat, n: nat, o: nat)
    requires 0 < n && o < vsize && (n - 1) * stride + vsize <= |src|
    ensures 0 <= (n - 1) * vsize + o < n * vsize
    ensures Gather(src, vsize, stride, n)[(n - 1) * vsize + o] == src[(n - 1) * stride + o]
  {
    assert n * vsize == (n - 1) * vsize + vsize;
    if n > 1 {
      MulMono(n - 2, n - 1, stride);
    }
    var before, last := Gather(src, vsize, stride, n - 1), src[(n - 1) * stride..(n - 1) * stride + vsize];
    assert (before + last)[|before| + o] == last[o];
  }

  /** Without gaps the gather is a plain copy: the two branches of the code agree. */
  lemma {:induction false} PackedGather(src: seq<byte>, vsize: nat, n: nat)
    requires n * vsize <= |src|
    ensures n > 0 ==> (n - 1) * vsize + vsize == n * vsize
    ensures Gather(src, vsize, vsize, n) == src[..n * vsize]
  {
    if n > 0 {
      assert (n - 1) * vsize + vsize == n * vsize;
      PackedGather(src, vsize, n - 1);
    }
  }

  lemma PackedData(src: seq<byte>, vsize: nat, datalen: nat, n: nat)
    requires Elements(datalen, vsize, n) && (n > 0 ==> (n - 1) * vsize + vsize <= |src|)
    ensures datalen <= n * vsize <= |src| && src[..datalen] == Gather(src, vsize, vsize, n)[..datalen]
  {
    assert n > 0 ==> (n - 1) * vsize + vsize == n * vsize;
    PackedGather(src, vsize, n);
  }

  /** `datalen` bytes take `n` elements, the last one possibly cut. */
  ghost predicate Elements(datalen: nat, vsize: nat, n: nat) {
    datalen <= n * vsize && (n > 0 ==> (n - 1) * vsize < datalen)
  }

  function EffectiveStride(vsize: nat, stride: nat): nat { if stride == 0 then vsize else stride }

  /** How many bytes are written: whole elements, unless they are packed. */
  ghost function Written(datalen: nat, vsize: nat, stride: nat, n: nat): nat {
    if EffectiveStride(vsize, stride) == vsize then datalen else n * vsize
  }

  /** Less than one element is written past the data. */
  lemma WrittenIsShort(datalen: nat, vsize: nat, stride: nat, n: nat)
    requires vsize > 0 && Elements(datalen, vsize, n)
    ensures datalen <= Written(datalen, vsize, stride, n) < datalen + vsize
  {
    assert n > 0 ==> n * vsize == (n - 1) * vsize + vsize;
  }

  /** Where the last element is cut by `datalen`, its remainder is written too, and nothing after it. */
  method PackPointerData(dst: array<byte>, src: seq<byte>, vsize: nat, stride: nat, datalen: nat, ghost n: nat)
    requires vsize > 0 && Elements(datalen, vsize, n) && n * vsize <= dst.Length && n * vsize < TWO32
    requires n > 0 ==> (n - 1) * EffectiveStride(vsize, stride) + vsize <= |src|
    modifies dst
    ensures var w := Written(datalen, vsize, stride, n);
            && datalen <= w < datalen + vsize && w <= dst.Length
            && dst[..w] == Gather(src, vsize, EffectiveStride(vsize, stride), n)[..w] && dst[w..] == old(dst[w..])
    ensures EffectiveStride(vsize, stride) == vsize || datalen == n * vsize ==> dst[datalen..] == old(dst[datalen..])
  {
    WrittenIsShort(datalen, vsize, stride, n);
    var st := EffectiveStride(vsize, stride);
    if st == vsize {
      PackedData(src, vsize, datalen, n);
      CopyElement(dst, 0, src[..datalen]);
    } else {
      PackStrided(dst, src, vsize, st, datalen, n);
    }
  }

  method PackStrided(dst: array<byte>, src: seq<byte>, vsize: nat, stride: nat, datalen: nat, ghost n: nat)
    requires vsize > 0 && Elements(datalen, vsize, n) && n * vsize <= dst.Length && n * vsize < TWO32
    requires n > 0 ==> (n - 1) * stride + vsize <= |src|
    modifies dst
    ensures dst[..n * vsize] == Gather(src, vsize, stride, n) && dst[n * vsize..] == old(dst[n * vsize..])
  {
    var i, from := 0, 0;
    ghost var c := 0;
    while i < datalen
      invariant c <= n && i == c * vsize && from == c * stride
      invariant c > 0 ==> (c - 1) * stride + vsize <= |src|
      invariant dst[..i] == Gather(src, vsize, stride, c) && dst[i..] == old(dst[i..])
      decreases n - c
    {
      InBounds(c, n, vsize, stride, datalen);
      CopyElement(dst, i, src[from..from + vsize]);
      i := (i + vsize) % TWO32;
      from := from + stride;
      c := c + 1;
    }
    LastElement(c, n, vsize, datalen);
  }

  lemma InBounds(c: nat, n: nat, vsize: nat, stride: nat, datalen: nat)
    requires Elements(datalen, vsize, n) && c <= n && c * vsize < datalen && n * vsize < TWO32
    ensures c < n && c * vsize + vsize <= n * vsize && c * stride <= (n - 1) * stride
    ensures (c + 1) * vsize == c * vsize + vsize == (c * vsize + vsize) % TWO32
    ensures (c + 1) * stride == c * stride + stride
  {
    assert c * vsize + vsize == (c + 1) * vsize && (c + 1) * vsize <= n * vsize;
  }

  lemma LastElement(c: nat, n: nat, vsize: nat, datalen: nat)
    requires vsize > 0 && Elements(datalen, vsize, n) && c <= n && datalen <= c * vsize
    ensures c == n
  {
    assert c <= n - 1 ==> c * vsize <= (n - 1) * vsize;
  }

  method CopyElement(dst: array<byte>, at: nat, data: seq<byte>)
    requires at + |data| <= dst.Length
    modifies dst
    ensures dst[..at + |data|] == old(dst[..at]) + data && dst[at + |data|..] == old(dst[at + |data|..])
  {
    forall k | 0 <= k < |data| {
      dst[at + k] := data[k];
    }
  }

  /** The variant that writes to the stream emits the same bytes. */
  method WritePackPointerData(src: seq<byte>, vsize: nat, stride: nat, datalen: nat,
                              ghost n: nat) returns (wire: seq<byte>)
    requires vsize > 0 && Elements(datalen, vsize, n) && n * vsize < TWO32
    requires n > 0 ==> (n - 1) * EffectiveStride(vsize, stride) + vsize <= |src|
    ensures var g := Gather(src, vsize, EffectiveStride(vsize, stride), n);
            Written(datalen, vsize, stride, n) <= |g| && wire == g[..Written(datalen, vsize, stride, n)]
  {
    var st := EffectiveStride(vsize, stride);
    if st == vsize {
      PackedData(src, vsize, datalen, n);
      wire := src[..datalen];
    } else {
      wire := WriteStrided(src, vsize, st, datalen, n);
    }
  }

  method WriteStrided(src: seq<byte>, vsize: nat, stride: nat, datalen: nat, ghost n: nat) returns (wire: seq<byte>)
    requires vsize > 0 && Elements(datalen, vsize, n) && n * vsize < TWO32
    requires n > 0 ==> (n - 1) * stride + vsize <= |src|
    ensures wire == Gather(src, vsize, stride, n)
  {
    wire := [];
    var i, from := 0, 0;
    ghost var c := 0;
    while i < datalen
      invariant c <= n && i == c * vsize && from == c * stride
      invariant c > 0 ==> (c - 1) * stride + vsize <= |src|
      invariant wire == Gather(src, vsize, stride, c)
      decreases n - c
    {
      InBounds(c, n, vsize, stride, datalen);
      wire := wire + src[from..from + vsize];
      i := (i + vsize) % TWO32;
      from := from + stride;
      c := c + 1;
    }
    LastElement(c, n, vsize, datalen);
  }

  // ---------------------------------------------------------------- shader strings

  /** One string of a shader source: its bytes or NULL, and its length or a negative number for "up to the NUL". */
  datatype Source = Source(text: seq<byte>, isNull: bool, length: int)

  ghost predicate NulFree(b: seq<byte>) {
    forall k :: 0 <= k < |b| ==> b[k] != 0
  }

  /** C strings: the text is what comes before the NUL. */
  ghost predicate AreStrings(sources: seq<Source>) {
    forall k :: 0 <= k < |sources| ==> NulFree(sources[k].text)
  }

  /** An explicit length does not exceed the string. */
  predicate Fits(s: Source) {
    s.length <= if s.isNull then 0 else |s.text|
  }

  /** So do the first `n`. */
  ghost predicate AllFit(sources: seq<Source>, n: nat)
    requires n <= |sources|
  {
    forall i :: 0 <= i < n ==> Fits(sources[i])
  }

  /** The bytes that are appended for it. */
  function Selected(s: Source): seq<byte> {
    if s.isNull then [] else if s.length < 0 || s.length > |s.text| then s.text else s.text[..s.length]
  }

  /** How far `p` moves on: past the terminator, where the length exceeds the string. */
  function Moves(s: Source): nat {
    if s.isNull then 0 else if s.length < 0 then |s.text| else s.length
  }

  /** The bytes that `glUtilsCalcShaderSourceLen` counts for it. */
  function CountOf(s: Source): nat {
    if s.length >= 0 then s.length else if s.isNull then 0 else |s.text|
  }

  function Zeros(n: nat): seq<byte> { seq(n, _ => 0) }

  /** What it fills of a zeroed destination: its bytes, and the gap up to where the next string starts. */
  function Cell(s: Source): (c: seq<byte>)
    ensures |c| == Moves(s)
  {
    Selected(s) + Zeros(Moves(s) - |Selected(s)|)
  }

  /** Where `p` is after the first `n` strings. */
  function At(sources: seq<Source>, n: nat): nat
    requires n <= |sources|
  {
    if n == 0 then 0 else At(sources, n - 1) + Moves(sources[n - 1])
  }

  function Layout(sources: seq<Source>, n: nat): (b: seq<byte>)
    requires n <= |sources|
    ensures |b| == At(sources, n)
  {
    if n == 0 then [] else Layout(sources, n - 1) + Cell(sources[n - 1])
  }

  function SourceLen(sources: seq<Source>, n: nat): nat
    requires n <= |sources|
  {
    if n == 0 then 0 else SourceLen(sources, n - 1) + CountOf(sources[n - 1])
  }

  method CalcShaderSourceLen(sources: seq<Source>) returns (len: nat)
    ensures len == SourceLen(sources, |sources|)
  {
    len := 0;
    for i := 0 to |sources|
      invariant len == SourceLen(sources, i)
    {
      var l;
      if sources[i].length < 0 {
        l := if sources[i].isNull then 0 else |sources[i].text|;
      } else {
        l := sources[i].length;
      }
      len := len + l;
    }
  }

  // Packing, on any destination

  /** Where `strcat` writes: the first NUL from `p` on. */
  function End(dst: seq<byte>, p: nat): (e: nat)
    requires p <= |dst|
    ensures p <= e <= |dst| && (e < |dst| ==> dst[e] == 0)
    decreases |dst| - p
  {
    if p == |dst| || dst[p] == 0 then p else End(dst, p + 1)
  }

  /** `data` and a NUL written from `e` on. */
  function Appended(dst: seq<byte>, e: nat, data: seq<byte>): (dst': seq<byte>)
    requires e + |data| < |dst|
    ensures |dst'| == |dst|
    decreases |data|
  {
    if data == [] then dst[e := 0] else Appended(dst[e := data[0]], e + 1, data[1..])
  }

  lemma {:induction false} AppendedAt(dst: seq<byte>, e: nat, data: seq<byte>, k: nat)
    requires e + |data| < |dst| && k < |dst|
    ensures Appended(dst, e, data)[k] ==
            if k < e || k > e + |data| then dst[k] else if k < e + |data| then data[k - e] else 0
    decreases |data|
  {
    if data != [] {
      AppendedAt(dst[e := data[0]], e + 1, data[1..], k);
    }
  }

  /** One string ends inside the destination. */
  predicate Inside(dst: seq<byte>, p: nat, s: Source) {
    s.isNull || (p <= |dst| && End(dst, p) + |Selected(s)| < |dst|)
  }

  /** The destination after one string. */
  function PackedOne(dst: seq<byte>, p: nat, s: Source): (dst': seq<byte>)
    ensures |dst'| == |dst|
  {
    if s.isNull || !Inside(dst, p, s) then dst else Appended(dst, End(dst, p), Selected(s))
  }

  /** The destination after the first `n` strings, each appended at the first NUL from where `p` is then. */
  function Packed(dst: seq<byte>, sources: seq<Source>, n: nat): (dst': seq<byte>)
    requires n <= |sources|
    ensures |dst'| == |dst|
  {
    if n == 0 then dst else PackedOne(Packed(dst, sources, n - 1), At(sources, n - 1), sources[n - 1])
  }

  /** String `i` ends inside the destination. */
  predicate InsideAt(dst: seq<byte>, sources: seq<Source>, i: nat)
    requires i < |sources|
  {
    Inside(Packed(dst, sources, i), At(sources, i), sources[i])
  }

  /** So do the first `n`, which is all the code asks for. */
  ghost predicate AllInside(dst: seq<byte>, sources: seq<Source>, n: nat)
    requires n <= |sources|
  {
    forall i :: 0 <= i < n ==> InsideAt(dst, sources, i)
  }

  /** The string `s` and a NUL stand at `p`. */
  ghost predicate StandsAt(dst: seq<byte>, p: nat, s: Source) {
    && p + |Selected(s)| < |dst| && dst[p + |Selected(s)|] == 0
    && forall j :: p <= j < p + |Selected(s)| ==> dst[j] == Selected(s)[j - p]
  }

  /** A string appended at a NUL, followed by the new NUL. */
  lemma PackedAtNul(dst: seq<byte>, p: nat, s: Source)
    requires p < |dst| && dst[p] == 0 && Inside(dst, p, s)
    ensures StandsAt(PackedOne(dst, p, s), p, s)
    ensures forall k :: 0 <= k < p || p + |Selected(s)| < k < |dst| ==> PackedOne(dst, p, s)[k] == dst[k]
  {
    assert End(dst, p) == p;
    forall k | 0 <= k < |dst|
      ensures PackedOne(dst, p, s)[k] ==
              if k < p || k > p + |Selected(s)| then dst[k] else if k < p + |Selected(s)| then Selected(s)[k - p] else 0
    {
      if !s.isNull {
        AppendedAt(dst, p, Selected(s), k);
      }
    }
  }

  /** Nothing before `p` is touched. */
  lemma PackedOneKeeps(dst: seq<byte>, p: nat, s: Source)
    ensures forall k :: 0 <= k < p && k < |dst| ==> PackedOne(dst, p, s)[k] == dst[k]
  {
    if !s.isNull && Inside(dst, p, s) {
      forall k | 0 <= k < p && k < |dst|
        ensures PackedOne(dst, p, s)[k] == dst[k]
      {
        AppendedAt(dst, End(dst, p), Selected(s), k);
      }
    }
  }

  // How long the packed string is

  /**
   * The packed string so far, with `p` where the next one goes and `len` the length computed so far: as
   * long as all lengths fit, its first NUL is at `p`, which is `len`; later there is a NUL before that.
   */
  ghost predicate Terminated(out: seq<byte>, p: nat, len: nat, fit: bool) {
    if fit then p == len && p < |out| && out[p] == 0 && (forall j :: 0 <= j < p ==> out[j] != 0)
    else exists k :: 0 <= k < |out| && k <= p && k < len && out[k] == 0
  }

  lemma FittingStep(out: seq<byte>, p: nat, s: Source)
    requires Terminated(out, p, p, true) && Inside(out, p, s) && NulFree(s.text)
    ensures Terminated(PackedOne(out, p, s), p + Moves(s), p + CountOf(s), Fits(s))
  {
    PackedAtNul(out, p, s);
    if !Fits(s) {
      assert PackedOne(out, p, s)[p + |Selected(s)|] == 0;
    }
  }

  lemma OverrunStep(out: seq<byte>, p: nat, len: nat, s: Source)
    requires Terminated(out, p, len, false) && Inside(out, p, s)
    ensures Terminated(PackedOne(out, p, s), p + Moves(s), len + CountOf(s), false)
  {
    var k :| 0 <= k < |out| && k <= p && k < len && out[k] == 0;
    if k < p {
      PackedOneKeeps(out, p, s);
      assert PackedOne(out, p, s)[k] == 0;
    } else {
      PackedAtNul(out, p, s);
      assert PackedOne(out, p, s)[p + |Selected(s)|] == 0;
    }
  }

  lemma {:induction false} PackedIsTerminated(dst: seq<byte>, sources: seq<Source>, n: nat)
    requires n <= |sources| && AreStrings(sources) && 0 < |dst| && dst[0] == 0 && AllInside(dst, sources, n)
    ensures Terminated(Packed(dst, sources, n), At(sources, n), SourceLen(sources, n), AllFit(sources, n))
  {
    if n > 0 {
      var m := n - 1;
      PackedIsTerminated(dst, sources, m);
      assert InsideAt(dst, sources, m);
      if AllFit(sources, m) {
        FittingStep(Packed(dst, sources, m), At(sources, m), sources[m]);
      } else {
        OverrunStep(Packed(dst, sources, m), At(sources, m), SourceLen(sources, m), sources[m]);
      }
    }
  }

  ghost predicate FirstNul(b: seq<byte>, n: nat) {
    n < |b| && b[n] == 0 && NulFree(b[..n])
  }

  lemma TerminatedExactly(out: seq<byte>, p: nat, len: nat, fit: bool)
    requires Terminated(out, p, len, fit)
    ensures FirstNul(out, len) <==> fit
  {
    if !fit && len < |out| {
      var k :| 0 <= k < |out| && k <= p && k < len && out[k] == 0;
      assert out[..len][k] == 0;
    }
  }

  /** On any destination: the computed length is that of the packed string if and only if every explicit length fits. */
  lemma SourceLenExactly(dst: seq<byte>, sources: seq<Source>)
    requires AreStrings(sources) && 0 < |dst| && dst[0] == 0 && AllInside(dst, sources, |sources|)
    ensures FirstNul(Packed(dst, sources, |sources|), SourceLen(sources, |sources|)) <==> AllFit(sources, |sources|)
  {
    var n := |sources|;
    PackedIsTerminated(dst, sources, n);
    TerminatedExactly(Packed(dst, sources, n), At(sources, n), SourceLen(sources, n), AllFit(sources, n));
  }

  // What is packed

  /** `out` holds `layout` and a NUL, and after that what `dst` holds. */
  ghost predicate Holds(out: seq<byte>, dst: seq<byte>, layout: seq<byte>) {
    && |layout| < |out| == |dst| && out[|layout|] == 0
    && (forall j :: 0 <= j < |layout| ==> out[j] == layout[j])
    && (forall k :: |layout| < k < |dst| ==> out[k] == dst[k])
  }

  ghost predicate Zeroed(dst: seq<byte>) {
    forall k :: 0 <= k < |dst| ==> dst[k] == 0
  }

  lemma CellIsPacked(out: seq<byte>, dst: seq<byte>, layout: seq<byte>, s: Source)
    requires Holds(out, dst, layout) && |layout| + Moves(s) < |dst| && (Fits(s) || Zeroed(dst))
    ensures Inside(out, |layout|, s) && Holds(PackedOne(out, |layout|, s), dst, layout + Cell(s))
  {
    assert End(out, |layout|) == |layout|;
    PackedAtNul(out, |layout|, s);
  }

  /** Where all lengths fit, or the destination was zeroed: the cells one after the other, and a terminator. */
  lemma {:induction false} PackedIsLayout(dst: seq<byte>, sources: seq<Source>, n: nat)
    requires n <= |sources| && At(sources, n) < |dst| && dst[0] == 0 && (AllFit(sources, n) || Zeroed(dst))
    ensures AllInside(dst, sources, n) && Holds(Packed(dst, sources, n), dst, Layout(sources, n))
  {
    if n > 0 {
      var m := n - 1;
      PackedIsLayout(dst, sources, m);
      CellIsPacked(Packed(dst, sources, m), dst, Layout(sources, m), sources[m]);
    }
  }

  // The loops

  /** `strcat` / `strncat`: finds the end of the string at `p` and appends there. */
  method Append(dst: array<byte>, p: nat, data: seq<byte>)
    requires p <= dst.Length && End(dst[..], p) + |data| < dst.Length
    modifies dst
    ensures dst[..] == Appended(old(dst[..]), End(old(dst[..]), p), data)
  {
    var e := p;
    while dst[e] != 0
      invariant p <= e < dst.Length && End(dst[..], e) == End(dst[..], p)
      decreases dst.Length - e
    {
      e := e + 1;
    }
    forall k | 0 <= k < |data| {
      dst[e + k] := data[k];
    }
    dst[e + |data|] := 0;
    forall k | 0 <= k < dst.Length
      ensures dst[k] == Appended(old(dst[..]), e, data)[k]
    {
      AppendedAt(old(dst[..]), e, data, k);
    }
  }

  /** Appends one string at the first NUL from `p` on; `p` moves by its length, also past the new end. */
  method PackOne(dst: array<byte>, p: nat, s: Source) returns (l: nat)
    requires Inside(dst[..], p, s)
    modifies dst
    ensures l == Moves(s) && dst[..] == PackedOne(old(dst[..]), p, s)
  {
    l := 0;
    if !s.isNull {
      if s.length < 0 {
        l := |s.text|;
        Append(dst, p, s.text);
      } else {
        l := s.length;
        Append(dst, p, if l <= |s.text| then s.text[..l] else s.text);
      }
    }
  }

  /** Packs the strings one after the other into whatever is there. */
  method PackStrings(dst: array<byte>, sources: seq<Source>)
    requires AreStrings(sources) && 0 < dst.Length && AllInside(dst[..][0 := 0], sources, |sources|)
    modifies dst
    ensures dst[..] == Packed(old(dst[..])[0 := 0], sources, |sources|)
    ensures FirstNul(dst[..], SourceLen(sources, |sources|)) <==> AllFit(sources, |sources|)
  {
    SourceLenExactly(dst[..][0 := 0], sources);
    dst[0] := 0;
    assert dst[..] == old(dst[..])[0 := 0];
    PackAll(dst, sources);
  }

  method PackAll(dst: array<byte>, sources: seq<Source>)
    requires AllInside(dst[..], sources, |sources|)
    modifies dst
    ensures dst[..] == Packed(old(dst[..]), sources, |sources|)
  {
    var p: nat := 0;
    for i := 0 to |sources|
      invariant p == At(sources, i) && dst[..] == Packed(old(dst[..]), sources, i)
    {
      assert InsideAt(old(dst[..]), sources, i);
      var l := PackOne(dst, p, sources[i]);
      p := p + l;
    }
  }
}
