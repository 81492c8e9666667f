/** The physical-frame bitmap allocator of kernel/memory_manager.hpp, with the
    byte-unit literals and FrameID. One bit per 4 KiB frame: bit m of
    `alloc_map_[n]` describes frame `n * 64 + m`, 0 free and 1 used. */
module MemoryManager {

  import opened MapLine

  /** `size_t` and `unsigned long long`: 64-bit unsigned. */
  const SizeTLimit: nat := 0x1_0000_0000_0000_0000
  type SizeT = x: nat | x < SizeTLimit

  /** `operator""_KiB`, `_MiB`, `_GiB`: multiplications in unsigned long long. */
  function KiB(kib: SizeT): (bytes: SizeT)
    ensures kib < 0x40_0000_0000_0000 ==> bytes == kib * 0x400
  {
    (kib * 1024) % SizeTLimit
  }

  function MiB(mib: SizeT): (bytes: SizeT)
    ensures mib < 0x1000_0000_0000 ==> bytes == mib * 0x10_0000
  {
    (mib * KiB(1024)) % SizeTLimit
  }

  function GiB(gib: SizeT): (bytes: SizeT)
    ensures gib < 0x4_0000_0000 ==> bytes == gib * 0x4000_0000
  {
    (gib * MiB(1024)) % SizeTLimit
  }

  /** `kBytesPerFrame{4_KiB}`; BitmapDimensions shows the literal is 4_KiB. */
  const BytesPerFrame: SizeT := 0x1000

  /** `FrameID`: a frame number. */
  datatype FrameID = FrameID(id: SizeT)

  /** `FrameID::Frame()`: the frame's physical address `id_ * kBytesPerFrame`
      (a size_t product). Every such address is 4 KiB aligned. */
  function Frame(f: FrameID): (address: SizeT)
    ensures address % 4096 == 0
    ensures f.id < 0x10_0000_0000_0000 ==> address == f.id * 4096
  {
    (f.id * BytesPerFrame) % SizeTLimit
  }

  /** `kNullFrame`: the largest size_t as id. */
  const NullFrame: FrameID := FrameID(SizeTLimit - 1)

  /** `kMaxPhysicalMemoryBytes{128_GiB}`, `kFrameCount`, `kBitsPerMapLine`
      (8 * sizeof(unsigned long)) and the number of lines of `alloc_map_`.
      The counts are written as literals; BitmapDimensions derives them. */
  const MaxPhysicalMemoryBytes: SizeT := GiB(128)
  const FrameCount: nat := 0x200_0000
  const BitsPerMapLine: nat := 64
  const MapLineCount: nat := 0x8_0000

  lemma BitmapDimensions()
    ensures BytesPerFrame == KiB(4)
    ensures MaxPhysicalMemoryBytes == 0x20_0000_0000
    ensures FrameCount == MaxPhysicalMemoryBytes / BytesPerFrame
    ensures MapLineCount == FrameCount / BitsPerMapLine
    ensures MapLineCount * BitsPerMapLine == FrameCount
  {
  }

  /** The bit of frame `id` in a whole map. */
  predicate MapBit(m: seq<bv64>, id: nat)
    requires id / BitsPerMapLine < |m|
  {
    Test(m[id / BitsPerMapLine], LineMask(BitIndex(id % BitsPerMapLine)))
  }

  /** Updating the line of frame `id` changes the bit of `id` and of no other frame. */
  lemma MapUpdate(m: seq<bv64>, id: nat, used: bool)
    requires id / BitsPerMapLine < |m|
    ensures MapBit(m[id / BitsPerMapLine := Update(m[id / BitsPerMapLine], LineMask(BitIndex(id % BitsPerMapLine)), used)], id) == used
    ensures forall g: nat :: g / BitsPerMapLine < |m| && g != id ==>
      MapBit(m[id / BitsPerMapLine := Update(m[id / BitsPerMapLine], LineMask(BitIndex(id % BitsPerMapLine)), used)], g) == MapBit(m, g)
  {
    var line, bit := id / BitsPerMapLine, id % BitsPerMapLine;
    var m' := m[line := Update(m[line], LineMask(BitIndex(bit)), used)];
    UpdateLineSameBit(m[line], BitIndex(bit), used);
    forall g: nat | g / BitsPerMapLine < |m| && g != id
      ensures MapBit(m', g) == MapBit(m, g)
    {
      var gLine, gBit := g / BitsPerMapLine, g % BitsPerMapLine;
      if gLine == line {
        BitIndexInjective(bit, gBit);
        if used {
          SetLineOtherBit(m[line], BitIndex(bit), BitIndex(gBit));
        } else {
          ClearLineOtherBit(m[line], BitIndex(bit), BitIndex(gBit));
        }
      }
    }
  }

  /** Number of set bits among bits 0 .. n-1 of a map line (`std::bitset::count` for n = 64). */
  function LineCount(x: bv64, n: nat): nat
    requires n <= BitsPerMapLine
  {
    if n == 0 then 0 else LineCount(x, n - 1) + (if Test(x, LineMask(BitIndex(n - 1))) then 1 else 0)
  }

  /** Used frames among frames lo .. hi-1 of a whole map. */
  ghost function CountUsed(m: seq<bv64>, lo: nat, hi: nat): nat
    requires |m| == MapLineCount && hi <= FrameCount
    decreases hi
  {
    if hi <= lo then 0 else CountUsed(m, lo, hi - 1) + (if MapBit(m, hi - 1) then 1 else 0)
  }

  /** Bit k of map line `line` is the bit of frame `line * 64 + k`. */
  lemma MapBitOfLine(m: seq<bv64>, line: nat, k: nat)
    requires line < |m| && k < BitsPerMapLine
    ensures (line * BitsPerMapLine + k) / BitsPerMapLine == line
    ensures MapBit(m, line * BitsPerMapLine + k) == Test(m[line], LineMask(BitIndex(k)))
  {
    FrameOfLineBit(line, k);
  }

  /** Counting the bits of map line `line` counts the used frames it describes
      (`base` is the line's first frame, `line * 64`). */
  lemma {:induction false} LineCountIsCountUsed(m: seq<bv64>, line: nat, base: nat, n: nat)
    requires |m| == MapLineCount && line < MapLineCount && n <= BitsPerMapLine
    requires base == line * BitsPerMapLine
    ensures base + n <= FrameCount
    ensures CountUsed(m, base, base + n) == LineCount(m[line], n)
  {
    LineWithinMap(line);
    if n > 0 {
      var k := n - 1;
      LineCountIsCountUsed(m, line, base, k);
      CountUsedStep(m, line, base, k);
    }
  }

  /** One more frame of line `line` adds its bit to the count. */
  lemma CountUsedStep(m: seq<bv64>, line: nat, base: nat, k: nat)
    requires |m| == MapLineCount && line < MapLineCount && k < BitsPerMapLine
    requires base == line * BitsPerMapLine
    ensures base + k + 1 <= FrameCount
    ensures CountUsed(m, base, base + k + 1) - CountUsed(m, base, base + k)
      == LineCount(m[line], k + 1) - LineCount(m[line], k)
  {
    LineWithinMap(line);
    MapBitOfLine(m, line, k);
  }

  /** Counting a range counts its two halves. */
  lemma {:induction false} CountUsedSplit(m: seq<bv64>, lo: nat, mid: nat, hi: nat)
    requires |m| == MapLineCount && lo <= mid <= hi <= FrameCount
    ensures CountUsed(m, lo, hi) == CountUsed(m, lo, mid) + CountUsed(m, mid, hi)
    decreases hi
  {
    if mid < hi {
      CountUsedSplit(m, lo, mid, hi - 1);
    }
  }

  /** The frames of every map line lie below kFrameCount. */
  lemma LineWithinMap(line: nat)
    requires line < MapLineCount
    ensures line * BitsPerMapLine + BitsPerMapLine <= FrameCount
  {
  }

  datatype Error = Success | NoEnoughMemory

  /** `struct MemoryStat`. */
  datatype MemoryStat = MemoryStat(allocatedFrames: SizeT, totalFrames: SizeT)

  class BitmapMemoryManager {
    var allocMap: array<bv64>
    var rangeBegin: FrameID
    var rangeEnd: FrameID

    /** The map has `kFrameCount / kBitsPerMapLine` lines and the managed range ends
        inside the map (the source indexes the map without a check). */
    ghost predicate Valid()
      reads this
    {
      allocMap.Length == MapLineCount && rangeEnd.id <= FrameCount
    }

    /** The constructor: an all-free map and the range [0, kFrameCount). */
    constructor ()
      ensures Valid() && fresh(allocMap)
      ensures rangeBegin == FrameID(0) && rangeEnd == FrameID(FrameCount)
      ensures forall f :: 0 <= f < FrameCount ==> !GetBit(FrameID(f))
    {
      allocMap := new bv64[MapLineCount](_ => 0);
      rangeBegin := FrameID(0);
      rangeEnd := FrameID(FrameCount);
    }

    /** `GetBit`: bit `id % 64` of line `id / 64`. */
    predicate GetBit(frame: FrameID)
      reads this, allocMap
      requires Valid() && frame.id < FrameCount
    {
      MapBit(allocMap[..], frame.id)
    }

    /** `SetBit`: sets or clears one frame's bit; every other frame keeps its bit. */
    method SetBit(frame: FrameID, used: bool)
      requires Valid() && frame.id < FrameCount
      modifies allocMap
      ensures GetBit(frame) == used
      ensures forall f :: 0 <= f < FrameCount && f != frame.id ==> GetBit(FrameID(f)) == old(GetBit(FrameID(f)))
    {
      var line := frame.id / BitsPerMapLine;
      var bit := frame.id % BitsPerMapLine;
      MapUpdate(allocMap[..], frame.id, used);
      allocMap[line] := Update(allocMap[line], LineMask(BitIndex(bit)), used);
    }

    /** `MarkAllocated`: frames start .. start+n-1 become used, the rest keep their bits. */
    method MarkAllocated(start: FrameID, numFrames: SizeT)
      requires Valid() && start.id + numFrames <= FrameCount
      modifies allocMap
      ensures forall f :: start.id <= f < start.id + numFrames ==> GetBit(FrameID(f))
      ensures forall f :: 0 <= f < FrameCount && !(start.id <= f < start.id + numFrames) ==>
        GetBit(FrameID(f)) == old(GetBit(FrameID(f)))
    {
      var i := 0;
      while i < numFrames
        invariant 0 <= i <= numFrames
        invariant forall f :: start.id <= f < start.id + i ==> GetBit(FrameID(f))
        invariant forall f :: 0 <= f < FrameCount && !(start.id <= f < start.id + i) ==>
          GetBit(FrameID(f)) == old(GetBit(FrameID(f)))
      {
        SetBit(FrameID(start.id + i), true);
        i := i + 1;
      }
    }

    /** `Free`: frames start .. start+n-1 become free, the rest keep their bits. */
    method Free(start: FrameID, numFrames: SizeT) returns (err: Error)
      requires Valid() && start.id + numFrames <= FrameCount
      modifies allocMap
      ensures err == Success
      ensures forall f :: start.id <= f < start.id + numFrames ==> !GetBit(FrameID(f))
      ensures forall f :: 0 <= f < FrameCount && !(start.id <= f < start.id + numFrames) ==>
        GetBit(FrameID(f)) == old(GetBit(FrameID(f)))
    {
      var i := 0;
      while i < numFrames
        invariant 0 <= i <= numFrames
        invariant forall f :: start.id <= f < start.id + i ==> !GetBit(FrameID(f))
        invariant forall f :: 0 <= f < FrameCount && !(start.id <= f < start.id + i) ==>
          GetBit(FrameID(f)) == old(GetBit(FrameID(f)))
      {
        SetBit(FrameID(start.id + i), false);
        i := i + 1;
      }
      err := Success;
    }

    /** `SetMemoryRange`: later allocations come from [begin, end). */
    method SetMemoryRange(begin: FrameID, end: FrameID)
      requires Valid() && end.id <= FrameCount
      modifies this
      ensures Valid() && allocMap == old(allocMap)
      ensures rangeBegin == begin && rangeEnd == end
    {
      rangeBegin := begin;
      rangeEnd := end;
    }

    /** Frames s .. s+n-1 lie in the managed range and are all free. */
    ghost predicate FreeRun(s: nat, n: nat)
      reads this, allocMap
      requires Valid()
    {
      rangeBegin.id <= s && s + n <= rangeEnd.id &&
      forall f :: s <= f < s + n ==> !GetBit(FrameID(f))
    }

    /** The search loop of `Allocate`: try each start from `range_begin_`; on a
        used frame at start+i restart at start+i+1; give up once a candidate
        frame reaches `range_end_`. Finds the lowest start of a free run. */
    method FindFreeRun(numFrames: SizeT) returns (found: bool, start: nat)
      requires Valid() && numFrames > 0
      ensures found ==> FreeRun(start, numFrames)
      ensures found ==> forall s :: rangeBegin.id <= s < start ==> !FreeRun(s, numFrames)
      ensures !found ==> forall s :: rangeBegin.id <= s ==> !FreeRun(s, numFrames)
    {
      start := rangeBegin.id;
      while true
        invariant rangeBegin.id <= start
        invariant start > rangeBegin.id ==> start <= rangeEnd.id
        invariant forall s :: rangeBegin.id <= s < start ==> !FreeRun(s, numFrames)
        decreases if start <= rangeEnd.id then rangeEnd.id - start + 1 else 0
      {
        var i := 0;
        while i < numFrames
          invariant 0 <= i <= numFrames
          invariant forall f :: start <= f < start + i ==> f < rangeEnd.id && !GetBit(FrameID(f))
        {
          if start + i >= rangeEnd.id {
            forall s | rangeBegin.id <= s
              ensures !FreeRun(s, numFrames)
            {
              if s >= start {
                assert s + numFrames > rangeEnd.id;
              }
            }
            return false, start;
          }
          if GetBit(FrameID(start + i)) {
            break;
          }
          i := i + 1;
        }
        if i == numFrames {
          return true, start;
        }
        var used := start + i;
        forall s | rangeBegin.id <= s <= used
          ensures !FreeRun(s, numFrames)
        {
          if s >= start && s + numFrames <= rangeEnd.id {
            assert s <= used < s + numFrames;
          }
        }
        start := used + 1;
      }
    }

    /** `Allocate`: first fit. Returns the lowest start of `num_frames` free
        frames in [range_begin_, range_end_) and marks them used; otherwise
        kNullFrame with kNoEnoughMemory and no change. Zero frames always
        succeed at `range_begin_`. */
    method Allocate(numFrames: SizeT) returns (frame: FrameID, err: Error)
      requires Valid()
      modifies allocMap
      ensures err == Success && numFrames > 0 ==> old(FreeRun(frame.id, numFrames))
      ensures err == Success && numFrames > 0 ==> forall s :: old(rangeBegin.id) <= s < frame.id ==> old(!FreeRun(s, numFrames))
      ensures err == Success ==> forall f :: frame.id <= f < frame.id + numFrames ==> GetBit(FrameID(f))
      ensures err == Success ==> forall f :: 0 <= f < FrameCount && !(frame.id <= f < frame.id + numFrames) ==>
        GetBit(FrameID(f)) == old(GetBit(FrameID(f)))
      ensures err == NoEnoughMemory ==> frame == NullFrame && numFrames > 0
      ensures err == NoEnoughMemory ==> forall s :: old(rangeBegin.id) <= s ==> old(!FreeRun(s, numFrames))
      ensures err == NoEnoughMemory ==> unchanged(allocMap)
      ensures numFrames == 0 ==> err == Success && frame == rangeBegin
    {
      if numFrames == 0 {
        return rangeBegin, Success;
      }
      var found, start := FindFreeRun(numFrames);
      assert forall s :: FreeRun(s, numFrames) == old(FreeRun(s, numFrames));
      if !found {
        return NullFrame, NoEnoughMemory;
      }
      MarkAllocated(FrameID(start), numFrames);
      return FrameID(start), Success;
    }

    /** `Stat`: the set bits of the whole map lines from `range_begin_ / 64` up to
        (not including) `range_end_ / 64`, and `range_end_ - range_begin_` frames
        in all (a size_t difference). */
    method Stat() returns (stat: MemoryStat)
      requires Valid()
      ensures rangeBegin.id / BitsPerMapLine < rangeEnd.id / BitsPerMapLine ==>
        stat.allocatedFrames == CountUsed(allocMap[..], rangeBegin.id / BitsPerMapLine * BitsPerMapLine,
                                          rangeEnd.id / BitsPerMapLine * BitsPerMapLine)
      ensures rangeBegin.id / BitsPerMapLine >= rangeEnd.id / BitsPerMapLine ==> stat.allocatedFrames == 0
      ensures stat.totalFrames == (rangeEnd.id - rangeBegin.id) % SizeTLimit
    {
      var first := rangeBegin.id / BitsPerMapLine;
      var last := rangeEnd.id / BitsPerMapLine;
      var sum := 0;
      var i := first;
      while i < last
        invariant first <= i && (first < last ==> i <= last)
        invariant first < last ==> sum == LinesUsed(allocMap[..], first, i)
        invariant first >= last ==> sum == 0
        invariant sum <= (i - first) * BitsPerMapLine
      {
        LineCountBound(allocMap[i], BitsPerMapLine);
        sum := sum + LineCount(allocMap[i], BitsPerMapLine);
        i := i + 1;
      }
      if first < last {
        LinesUsedIsCountUsed(allocMap[..], first, last, first * BitsPerMapLine, last * BitsPerMapLine);
      }
      stat := MemoryStat(sum, (rangeEnd.id - rangeBegin.id) % SizeTLimit);
    }
  }

  /** Set bits of the whole map lines first .. last-1. */
  ghost function LinesUsed(m: seq<bv64>, first: nat, last: nat): nat
    requires last <= |m|
    decreases last
  {
    if last <= first then 0 else LinesUsed(m, first, last - 1) + LineCount(m[last - 1], BitsPerMapLine)
  }

  lemma LinesUsedSnoc(m: seq<bv64>, first: nat, last: nat)
    requires first < last <= |m|
    ensures LinesUsed(m, first, last) == LinesUsed(m, first, last - 1) + LineCount(m[last - 1], BitsPerMapLine)
  {
  }

  /** Counting line by line counts the used frames of those lines. */
  lemma {:induction false} LinesUsedIsCountUsed(m: seq<bv64>, first: nat, last: nat, lo: nat, hi: nat)
    requires |m| == MapLineCount && first <= last <= MapLineCount
    requires lo == first * BitsPerMapLine && hi == last * BitsPerMapLine
    ensures hi <= FrameCount
    ensures LinesUsed(m, first, last) == CountUsed(m, lo, hi)
  {
    if last > first {
      var base := hi - BitsPerMapLine;
      LinesUsedIsCountUsed(m, first, last - 1, lo, base);
      LineCountIsCountUsed(m, last - 1, base, BitsPerMapLine);
      CountUsedSplit(m, lo, base, hi);
      LinesUsedSnoc(m, first, last);
    } else {
      LineWithinMap(0);
    }
  }

  /** Bit k of map line `line` describes frame `line * BitsPerMapLine + k`. */
  lemma FrameOfLineBit(line: nat, k: nat)
    requires k < BitsPerMapLine
    ensures (line * BitsPerMapLine + k) / BitsPerMapLine == line
    ensures (line * BitsPerMapLine + k) % BitsPerMapLine == k
  {
  }

  lemma {:induction false} LineCountBound(x: bv64, n: nat)
    requires n <= BitsPerMapLine
    ensures LineCount(x, n) <= n
  {
    if n > 0 {
      LineCountBound(x, n - 1);
    }
  }
}
