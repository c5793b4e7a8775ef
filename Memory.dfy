/**
 * Bounded linear memory: a fixed number of `int` cells addressed from 0, where every access
 * outside the cells throws `IllegalAddressException(address, memSize)`.
 */
module LinearMemory {
  import opened JavaInt
  import opened Faults

  /** The address check both accesses perform: `address < 0 || address > memSize - 1`. */
  predicate IsIllegal(address: int, memSize: int)
  {
    address < 0 || address > memSize - 1
  }

  /** Reading the cell at `address` of the memory contents `cells`. */
  function Load(cells: seq<int32>, address: int): (r: Result<int32>)
    ensures r.Err? <==> !(0 <= address < |cells|)
    ensures r.Err? ==> r.fault == IllegalAddress(address, |cells|)
    ensures r.Ok? ==> r.value == cells[address]
  {
    if IsIllegal(address, |cells|) then Err(IllegalAddress(address, |cells|)) else Ok(cells[address])
  }

  /** The memory contents after writing `v` at `address`, or the fault that prevents it. */
  function Store(cells: seq<int32>, address: int, v: int32): (r: Result<seq<int32>>)
    ensures r.Err? <==> !(0 <= address < |cells|)
    ensures r.Err? ==> r.fault == IllegalAddress(address, |cells|)
    ensures r.Ok? ==> |r.value| == |cells|
    ensures r.Ok? ==> forall a :: 0 <= a < |cells| && a != address ==> r.value[a] == cells[a]
  {
    if IsIllegal(address, |cells|) then Err(IllegalAddress(address, |cells|)) else Ok(cells[address := v])
  }

  /** A read after a successful write at the same address returns the value written. */
  lemma ReadAfterWrite(cells: seq<int32>, address: int, v: int32)
    requires Store(cells, address, v).Ok?
    ensures Load(Store(cells, address, v).value, address) == Ok(v)
  {
  }

  /** A write leaves reads at every other address as they were, faults included. */
  lemma ReadOtherAfterWrite(cells: seq<int32>, address: int, v: int32, other: int)
    requires Store(cells, address, v).Ok? && other != address
    ensures Load(Store(cells, address, v).value, other) == Load(cells, other)
  {
  }

  /** Writes at two different addresses commute. */
  lemma WritesCommute(cells: seq<int32>, a: int, v: int32, b: int, w: int32)
    requires a != b && Store(cells, a, v).Ok? && Store(cells, b, w).Ok?
    ensures Store(Store(cells, a, v).value, b, w) == Store(Store(cells, b, w).value, a, v)
  {
    var ab := Store(Store(cells, a, v).value, b, w).value;
    var ba := Store(Store(cells, b, w).value, a, v).value;
    assert forall k :: 0 <= k < |cells| ==> ab[k] == ba[k];
    assert ab == ba;
  }

  /** A write of the value already held leaves the memory as it was. */
  lemma WriteSameValue(cells: seq<int32>, address: int)
    requires 0 <= address < |cells|
    ensures Store(cells, address, cells[address]) == Ok(cells)
  {
    assert cells[address := cells[address]] == cells;
  }

  class Memory {
    const internalMemory: array<int32>
    const memSize: int32

    ghost predicate Valid()
    {
      internalMemory.Length == memSize as int
    }

    /** A memory of `memSize` cells, all 0; Java refuses a negative array size. */
    constructor (memSize: int32)
      requires memSize >= 0
      ensures Valid() && this.memSize == memSize && fresh(internalMemory)
      ensures internalMemory[..] == seq(memSize as int, _ => 0)
    {
      this.memSize := memSize;
      internalMemory := new int32[memSize](_ => 0);
    }

    /** Returns the cell at `address`, or throws for an address outside the memory. */
    method Read(address: int32) returns (r: Result<int32>)
      requires Valid()
      ensures r == Load(internalMemory[..], address as int)
    {
      if address < 0 || address > memSize - 1 {
        return Err(IllegalAddress(address as int, memSize as int));
      }
      return Ok(internalMemory[address]);
    }

    /** Stores `value` at `address`, or throws and changes nothing. */
    method Write(address: int32, value: int32) returns (c: Completion)
      requires Valid()
      modifies internalMemory
      ensures Store(old(internalMemory[..]), address as int, value) ==
              if c.Normal? then Ok(internalMemory[..]) else Err(c.fault)
      ensures c.Abrupt? ==> internalMemory[..] == old(internalMemory[..])
    {
      if address < 0 || address > memSize - 1 {
        return Abrupt(IllegalAddress(address as int, memSize as int));
      }
      internalMemory[address] := value;
      return Normal;
    }
  }
}
