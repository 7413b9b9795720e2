/** The vertex data that a decoder keeps per attribute location, in buffers that are reused and only ever grow. */
module ContextData {
  import opened Bytes

  datatype Store = Store(loc: nat, data: seq<byte>)

  /** The bytes stored last at `loc`. */
  function LastStored(stores: seq<Store>, loc: nat): seq<byte> {
    if stores == [] then [] else
      var last := stores[|stores| - 1];
      if last.loc == loc then last.data else LastStored(stores[..|stores| - 1], loc)
  }

  /** The longest data ever stored at `loc`. */
  function Capacity(stores: seq<Store>, loc: nat): nat {
    if stores == [] then 0 else
      var last, before := stores[|stores| - 1], Capacity(stores[..|stores| - 1], loc);
      if last.loc == loc && before < |last.data| then |last.data| else before
  }

  // The locations of the GLES1 arrays

  const TEXCOORD0_LOCATION := 4
  const MATRIXINDEX_LOCATION := 12

  /** A location of one of the other arrays: vertex, normal, colour, point size, matrix index and weight. */
  predicate OtherArray(loc: nat) { loc < 4 || 12 <= loc < 14 }

  /** `TEXCOORD0_LOCATION + unit`, passed on as an `unsigned int`. */
  function TexCoordLocation(unit: int): (loc: nat)
    requires -TWO31 <= unit < TWO31 - TEXCOORD0_LOCATION
    ensures loc < TWO32
  {
    (TEXCOORD0_LOCATION + unit + TWO32) % TWO32
  }

  /**
   * The eight texture units have their own locations, all different; a unit hits another array's
   * location exactly if it is -4 to -1, 8 or 9, and unit 8 hits the matrix indices.
   */
  lemma TexCoordLocations(unit: int, unit': int)
    requires -TWO31 <= unit < TWO31 - TEXCOORD0_LOCATION && -TWO31 <= unit' < TWO31 - TEXCOORD0_LOCATION
    ensures 4 <= TexCoordLocation(unit) < 12 <==> 0 <= unit < 8
    ensures TexCoordLocation(unit) == TexCoordLocation(unit') <==> unit == unit'
    ensures OtherArray(TexCoordLocation(unit)) <==> -4 <= unit < 0 || 8 <= unit < 10
    ensures TexCoordLocation(unit) == MATRIXINDEX_LOCATION <==> unit == 8
  {
  }

  class GLDecoderContextData {
    const pointerData: array<seq<byte>>   // per location, the contents of its FixedBuffer

    constructor (nLocations: nat)
      ensures fresh(pointerData) && pointerData.Length == nLocations
      ensures forall l :: 0 <= l < nLocations ==> pointerData[l] == []
    {
      pointerData := new seq<byte>[nLocations](_ => []);
    }

    /** `FixedBuffer::alloc`: a buffer that is too short is replaced, and its contents are lost. */
    method Alloc(loc: nat, size: nat)
      requires loc < pointerData.Length
      modifies pointerData
      ensures forall l :: 0 <= l < pointerData.Length && l != loc ==> pointerData[l] == old(pointerData[l])
      ensures if size <= old(|pointerData[loc]|) then pointerData[loc] == old(pointerData[loc])
              else |pointerData[loc]| == size
    {
      if |pointerData[loc]| >= size {
        return;
      }
      pointerData[loc] := seq(size, _ => 0);
    }

    method StorePointerData(loc: nat, data: seq<byte>)
      requires loc < pointerData.Length
      modifies pointerData
      ensures forall l :: 0 <= l < pointerData.Length && l != loc ==> pointerData[l] == old(pointerData[l])
      ensures data <= pointerData[loc]
      ensures |pointerData[loc]| == if old(|pointerData[loc]|) < |data| then |data| else old(|pointerData[loc]|)
    {
      Alloc(loc, |data|);
      pointerData[loc] := data + pointerData[loc][|data|..];
    }

    /**
     * `glTexCoordPointerData`: units 0 to 7 leave every other array's data alone, and unit 8 replaces
     * the matrix indices.
     */
    method StoreTexCoords(unit: int, data: seq<byte>)
      requires -TWO31 <= unit < TWO31 - TEXCOORD0_LOCATION && TexCoordLocation(unit) < pointerData.Length
      modifies pointerData
      ensures data <= pointerData[TexCoordLocation(unit)]
      ensures forall l :: 0 <= l < pointerData.Length && l != TexCoordLocation(unit) ==>
              pointerData[l] == old(pointerData[l])
      ensures 0 <= unit < 8 ==> forall l :: 0 <= l < pointerData.Length && OtherArray(l) ==>
              pointerData[l] == old(pointerData[l])
      ensures unit == 8 ==> data <= pointerData[MATRIXINDEX_LOCATION]
    {
      TexCoordLocations(unit, unit);
      StorePointerData(TexCoordLocation(unit), data);
    }

    /**
     * After any stores, every location's buffer starts with what was stored there last, at the greatest
     * size ever stored.
     */
    method Replay(stores: seq<Store>)
      requires forall i :: 0 <= i < |stores| ==> stores[i].loc < pointerData.Length
      requires forall l :: 0 <= l < pointerData.Length ==> pointerData[l] == []
      modifies pointerData
      ensures forall l :: 0 <= l < pointerData.Length ==>
                LastStored(stores, l) <= pointerData[l] && |pointerData[l]| == Capacity(stores, l)
    {
      for i := 0 to |stores|
        invariant forall l :: 0 <= l < pointerData.Length ==>
                    LastStored(stores[..i], l) <= pointerData[l] && |pointerData[l]| == Capacity(stores[..i], l)
      {
        assert stores[..i + 1][..i] == stores[..i];
        StorePointerData(stores[i].loc, stores[i].data);
      }
      assert stores[..|stores|] == stores;
    }
  }
}
