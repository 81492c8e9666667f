/** The USB driver's bump allocator of kernel/usb/memory.hpp: `AllocMem`
    carves regions out of a static pool of `kMemoryPoolSize` bytes, rounding
    the allocation pointer up to the requested alignment and, when a region
    would straddle a multiple of `boundary`, moving it up to that multiple.
    Addresses are modelled as unbounded naturals. */
module UsbMemory {
  import opened Wrappers

  /** `kMemoryPoolSize`. */
  const MemoryPoolSize: nat := 4096 * 32

  /** `Allocator`'s default template arguments. */
  const DefaultAlignment: nat := 64
  const DefaultBoundary: nat := 4096

  /** Rounds `value` up to a multiple of `alignment`; 0 means no constraint. */
  function Ceil(value: nat, alignment: nat): (r: nat)
    ensures alignment == 0 ==> r == value
    ensures alignment > 0 ==> r % alignment == 0 && value <= r < value + alignment
  {
    if alignment == 0 then value
    else
      var r := (value + alignment - 1) / alignment * alignment;
      CeilBounds(value, alignment);
      r
  }

  lemma CeilBounds(value: nat, alignment: nat)
    requires alignment > 0
    ensures var r := (value + alignment - 1) / alignment * alignment;
      r % alignment == 0 && value <= r < value + alignment
  {
    var q := (value + alignment - 1) / alignment;
    var m := (value + alignment - 1) % alignment;
    assert value + alignment - 1 == q * alignment + m;
    assert (q * alignment) % alignment == 0 by {
      MultipleMod(q, alignment);
    }
  }

  lemma MultipleMod(q: int, a: nat)
    requires a > 0
    ensures (q * a) % a == 0
  {
    var d := (q * a) / a;
    var r := (q * a) % a;
    assert (q - d) * a == r;
    if q - d >= 1 {
      MulMonotone(1, q - d, a);
    } else if q - d <= -1 {
      MulMonotone(q - d, -1, a);
    }
  }

  /** The smallest multiple of `alignment` that is at least `value`: every
      multiple at or above `value` is at or above `Ceil(value, alignment)`. */
  lemma CeilIsLeast(value: nat, alignment: nat, m: nat)
    requires alignment > 0 && m % alignment == 0 && value <= m
    ensures Ceil(value, alignment) <= m
  {
    var r := Ceil(value, alignment);
    if m < r {
      assert r - m < alignment;
      DifferenceOfMultiples(r, m, alignment);
      assert false;
    }
  }

  lemma DifferenceOfMultiples(x: nat, y: nat, a: nat)
    requires a > 0 && x % a == 0 && y % a == 0 && y < x
    ensures x - y >= a
  {
    var qx := x / a;
    var qy := y / a;
    assert x == qx * a;
    assert y == qy * a;
    assert qy < qx by {
      if qx <= qy {
        MulMonotone(qx, qy, a);
      }
    }
    assert x - y == (qx - qy) * a;
    MulMonotone(1, qx - qy, a);
  }

  lemma MulMonotone(x: int, y: int, a: nat)
    requires x <= y
    ensures x * a <= y * a
  {
  }

  /** The outcome of one `AllocMem` call: the new allocation pointer and the
      region handed out, if any. */
  datatype AllocResult = AllocResult(next: nat, region: Option<nat>)

  /** Where `AllocMem` places a region of `size` bytes when the allocation
      pointer is at `ptr`: aligned first, then moved up to the next multiple
      of `boundary` when the region would reach past it. */
  function PlaceRegion(ptr: nat, size: nat, alignment: nat, boundary: nat): (start: nat)
    ensures ptr <= start
  {
    var aligned := Ceil(ptr, alignment);
    var nextBoundary := Ceil(aligned, boundary);
    if boundary > 0 && nextBoundary < aligned + size then nextBoundary else aligned
  }

  /** `AllocMem` on a pool ending at `poolEnd`: a region handed out lies
      inside the pool above the old pointer and the allocation pointer moves past
      it; nullptr comes back exactly when the placed region would reach past
      the pool's end, and the allocation pointer keeps its rounding even then. */
  function AllocSpec(ptr: nat, poolEnd: nat, size: nat, alignment: nat, boundary: nat): (r: AllocResult)
    ensures r.region.Some? ==> ptr <= r.region.value && r.region.value + size <= poolEnd && r.next == r.region.value + size
    ensures r.region.None? <==> poolEnd < PlaceRegion(ptr, size, alignment, boundary) + size
    ensures ptr <= r.next
  {
    var start := PlaceRegion(ptr, size, alignment, boundary);
    if poolEnd < start + size then AllocResult(start, None)
    else AllocResult(start + size, Some(start))
  }

  /** With a nonzero alignment the region is a multiple of it, provided the
      alignment and the boundary are powers of two as every caller passes
      (then one of them divides the other). */
  lemma AllocAligned(ptr: nat, poolEnd: nat, size: nat, alignment: nat, boundary: nat)
    requires alignment > 0
    requires boundary == 0 || boundary % alignment == 0 || alignment % boundary == 0
    ensures var r := AllocSpec(ptr, poolEnd, size, alignment, boundary);
      r.region.Some? ==> r.region.value % alignment == 0
  {
    var aligned := Ceil(ptr, alignment);
    var nextBoundary := Ceil(aligned, boundary);
    if boundary > 0 && nextBoundary < aligned + size {
      if boundary % alignment == 0 {
        ModTransitive(nextBoundary, boundary, alignment);
      } else {
        ModTransitive(aligned, alignment, boundary);
        CeilIsLeast(aligned, boundary, aligned);
      }
    }
  }

  lemma ModTransitive(x: nat, a: nat, b: nat)
    requires a > 0 && b > 0 && x % a == 0 && a % b == 0
    ensures x % b == 0
  {
    var p := x / a;
    var q := a / b;
    assert x == p * a;
    assert a == q * b;
    assert x == (p * q) * b;
    MultipleMod(p * q, b);
  }

  /** With a nonzero boundary and a size of at most one boundary, the region
      `[p, p + size)` lies within one boundary-sized block. */
  lemma AllocWithinBoundary(ptr: nat, poolEnd: nat, size: nat, alignment: nat, boundary: nat)
    requires boundary > 0 && 0 < size <= boundary
    ensures var r := AllocSpec(ptr, poolEnd, size, alignment, boundary);
      r.region.Some? ==> r.region.value / boundary == (r.region.value + size - 1) / boundary
  {
    var aligned := Ceil(ptr, alignment);
    var nextBoundary := Ceil(aligned, boundary);
    if nextBoundary < aligned + size {
      SameBlock(nextBoundary, size - 1, boundary);
    } else {
      BeforeNextBoundary(aligned, size - 1, boundary);
    }
  }

  /** A region that ends before the next multiple of `b` at or above its start
      stays in its start's block. */
  lemma BeforeNextBoundary(x: nat, d: nat, b: nat)
    requires b > 0 && x + d < Ceil(x, b)
    ensures x / b == (x + d) / b
  {
    var k := x / b;
    assert x == k * b + x % b;
    if x % b == 0 {
      CeilIsLeast(x, b, x);
    } else {
      var m := (k + 1) * b;
      MultipleMod(k + 1, b);
      CeilIsLeast(x, b, m);
      DivInBlock(x + d, k, b);
    }
  }

  lemma SameBlock(x: nat, d: nat, b: nat)
    requires b > 0 && x % b == 0 && d < b
    ensures x / b == (x + d) / b
  {
    var k := x / b;
    assert x == k * b;
    DivInBlock(x + d, k, b);
  }

  lemma DivInBlock(y: nat, k: nat, b: nat)
    requires b > 0 && k * b <= y < (k + 1) * b
    ensures y / b == k
  {
    var q := y / b;
    var m := y % b;
    assert y == q * b + m;
    if q < k {
      MulMonotone(q + 1, k, b);
    } else if q > k {
      MulMonotone(k + 1, q, b);
    }
  }

  /** Two successive allocations never overlap: the second starts at or after
      the end of the first. */
  lemma SuccessiveAllocationsDisjoint(ptr: nat, poolEnd: nat, size1: nat, a1: nat, b1: nat, size2: nat, a2: nat, b2: nat)
    ensures var r1 := AllocSpec(ptr, poolEnd, size1, a1, b1);
      var r2 := AllocSpec(r1.next, poolEnd, size2, a2, b2);
      r1.region.Some? && r2.region.Some? ==> r1.region.value + size1 <= r2.region.value
  {
  }

  /** `AllocArray<T>`: the byte count requested for `numObj` objects of
      `elemSize` bytes each. */
  function ArrayBytes(elemSize: nat, numObj: nat): (bytes: nat)
    ensures numObj > 0 ==> bytes >= elemSize
    ensures elemSize > 0 ==> bytes >= numObj
    ensures bytes == 0 <==> elemSize == 0 || numObj == 0
  {
    elemSize * numObj
  }

  /** The pool behind `AllocMem`: `memory_pool` starts at `poolBase` and
      `alloc_ptr` is the next free byte. */
  class MemoryPool {
    const poolBase: nat
    var allocPtr: nat

    function PoolEnd(): nat
    {
      poolBase + MemoryPoolSize
    }

    /** The allocation pointer starts at the pool's first byte. */
    constructor (base: nat)
      ensures poolBase == base && allocPtr == base
    {
      poolBase := base;
      allocPtr := base;
    }

    /** `AllocMem`: round the allocation pointer up to the alignment, move it to the next
        boundary when the region would cross it, and bump it past the region
        when that fits inside the pool. */
    method AllocMem(size: nat, alignment: nat, boundary: nat) returns (p: Option<nat>)
      modifies this
      ensures AllocResult(allocPtr, p) == AllocSpec(old(allocPtr), PoolEnd(), size, alignment, boundary)
    {
      if alignment > 0 {
        allocPtr := Ceil(allocPtr, alignment);
      }
      if boundary > 0 {
        var nextBoundary := Ceil(allocPtr, boundary);
        if nextBoundary < allocPtr + size {
          allocPtr := nextBoundary;
        }
      }
      if PoolEnd() < allocPtr + size {
        return None;
      }
      p := Some(allocPtr);
      allocPtr := allocPtr + size;
    }

    /** `AllocArray<T>`: `AllocMem` of `sizeof(T) * numObj` bytes with the same
        alignment and boundary. */
    method AllocArray(elemSize: nat, numObj: nat, alignment: nat, boundary: nat) returns (p: Option<nat>)
      modifies this
      ensures AllocResult(allocPtr, p) == AllocSpec(old(allocPtr), PoolEnd(), ArrayBytes(elemSize, numObj), alignment, boundary)
    {
      p := AllocMem(ArrayBytes(elemSize, numObj), alignment, boundary);
    }

    /** `Allocator<T>::allocate`: `AllocArray<T>` with the default alignment
        64 and boundary 4096. */
    method Allocate(elemSize: nat, n: nat) returns (p: Option<nat>)
      modifies this
      ensures AllocResult(allocPtr, p) == AllocSpec(old(allocPtr), PoolEnd(), ArrayBytes(elemSize, n), DefaultAlignment, DefaultBoundary)
      ensures p.Some? ==> p.value % DefaultAlignment == 0 && old(allocPtr) <= p.value && p.value + ArrayBytes(elemSize, n) <= PoolEnd()
      ensures p.Some? && 0 < ArrayBytes(elemSize, n) <= DefaultBoundary ==>
        p.value / DefaultBoundary == (p.value + ArrayBytes(elemSize, n) - 1) / DefaultBoundary
    {
      ghost var ptr := allocPtr;
      p := AllocArray(elemSize, n, DefaultAlignment, DefaultBoundary);
      AllocAligned(ptr, PoolEnd(), ArrayBytes(elemSize, n), DefaultAlignment, DefaultBoundary);
      if 0 < ArrayBytes(elemSize, n) <= DefaultBoundary {
        AllocWithinBoundary(ptr, PoolEnd(), ArrayBytes(elemSize, n), DefaultAlignment, DefaultBoundary);
      }
    }

    /** `FreeMem` and `Allocator::deallocate`: nothing is reclaimed, so the
        pointer never moves back. */
    method FreeMem(p: nat)
      ensures allocPtr == old(allocPtr)
    {
    }
  }
}
