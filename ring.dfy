/** The xHCI TRB rings of kernel/usb/xhci/ring.hpp: the producer `Ring`
    (Command and Transfer Rings) with its cycle-bit protocol, the consumer
    `EventRing`, and the Event Ring Segment Table entry.
    Ring layout and the cycle-bit protocol follow the xHCI specification,
    section 4.9 (TRB Ring); the Link TRB follows section 6.4.4.1 and the
    segment table entry section 6.5. A TRB is an opaque four-word payload whose
    cycle bit is bit 0 of the last word. */
module XhciRing {
  import opened Wrappers

  /** A TRB: four little-endian 32-bit words. */
  datatype Trb = Trb(w0: bv32, w1: bv32, w2: bv32, w3: bv32)

  const ZeroTrb: Trb := Trb(0, 0, 0, 0)

  /** The cycle bit: bit 0 of word 3. */
  predicate CycleBit(t: Trb)
  {
    t.w3 & 1 != 0
  }

  /** The word-3 part of `CopyToLast`: `(data[3] & 0xfffffffe) | cycle_bit_`. */
  function StampWord(w: bv32, cycle: bool): (r: bv32)
    ensures (r & 1 != 0) == cycle
    ensures r & 0xFFFF_FFFE == w & 0xFFFF_FFFE
  {
    (w & 0xFFFF_FFFE) | (if cycle then 1 else 0)
  }

  /** The TRB `CopyToLast` stores: the caller's words with the ring's cycle bit. */
  function WithCycle(t: Trb, cycle: bool): (r: Trb)
    ensures CycleBit(r) == cycle
    ensures r.w0 == t.w0 && r.w1 == t.w1 && r.w2 == t.w2
    ensures r.w3 & 0xFFFF_FFFE == t.w3 & 0xFFFF_FFFE
  {
    var w3 := StampWord(t.w3, cycle);
    assert w3 & 1 != 0 <==> cycle;
    Trb(t.w0, t.w1, t.w2, w3)
  }

  /** TRB type of a Link TRB, and the fields of its word 3: the Toggle Cycle
      flag at bit 1 and the TRB type at bits 15:10 (xHCI section 6.4.4.1). */
  const LinkTrbType: bv32 := 6
  const ToggleCycleFlag: bv32 := 2

  /** `LinkTRB{buf_}` with `toggle_cycle = true`: the Ring Segment Pointer
      (bits 63:4 of words 0-1) addresses the start of the ring. */
  function LinkTrb(segment: bv64): Trb
  {
    Trb(((segment & 0xFFFF_FFF0) as bv32), ((segment >> 32) as bv32), 0, (LinkTrbType << 10) | ToggleCycleFlag)
  }

  /** A Link TRB carries the ring's 16-byte aligned start address, toggles the
      consumer's cycle state and has type 6. */
  lemma LinkTrbFields(segment: bv64)
    requires segment & 0xF == 0
    ensures ((LinkTrb(segment).w1 as bv64) << 32) | (LinkTrb(segment).w0 as bv64) == segment
    ensures LinkTrb(segment).w3 & ToggleCycleFlag != 0
    ensures (LinkTrb(segment).w3 >> 10) & 0x3F == LinkTrbType
  {
  }

  datatype Error = Success | NoEnoughMemory

  /** The abstract state of a producer ring: the slots, `write_index_` and `cycle_bit_`. */
  datatype RingState = RingState(slots: seq<Trb>, writeIndex: nat, cycleBit: bool)

  /** At least one data slot plus the Link TRB slot, and the next write never
      targets the last slot, which stays reserved for the Link TRB. */
  predicate ValidRing(s: RingState)
  {
    |s.slots| >= 2 && s.writeIndex < |s.slots| - 1
  }

  /** `CopyToLast`: stamps the TRB with the cycle bit and stores it at the write index. */
  function CopyToLastSpec(s: RingState, data: Trb): (r: RingState)
    requires s.writeIndex < |s.slots|
    ensures r.writeIndex == s.writeIndex && r.cycleBit == s.cycleBit
    ensures |r.slots| == |s.slots|
    ensures r.slots[s.writeIndex] == WithCycle(data, s.cycleBit)
    ensures forall k :: 0 <= k < |s.slots| && k != s.writeIndex ==> r.slots[k] == s.slots[k]
  {
    s.(slots := s.slots[s.writeIndex := WithCycle(data, s.cycleBit)])
  }

  /** `Push`: copy to the write index and advance; on reaching the last slot,
      write a Link TRB back to `segment` there, restart at 0 and flip the cycle bit. */
  function PushSpec(s: RingState, data: Trb, segment: bv64): RingState
    requires ValidRing(s)
  {
    var s1 := CopyToLastSpec(s, data).(writeIndex := s.writeIndex + 1);
    if s1.writeIndex == |s.slots| - 1 then
      CopyToLastSpec(s1, LinkTrb(segment)).(writeIndex := 0, cycleBit := !s.cycleBit)
    else
      s1
  }

  /** Push keeps the ring valid; before the last data slot it advances the
      write index by one, keeps the cycle bit and writes only its own slot. */
  lemma PushNoWrap(s: RingState, data: Trb, segment: bv64)
    requires ValidRing(s) && s.writeIndex + 1 < |s.slots| - 1
    ensures ValidRing(PushSpec(s, data, segment))
    ensures PushSpec(s, data, segment).writeIndex == s.writeIndex + 1
    ensures PushSpec(s, data, segment).cycleBit == s.cycleBit
    ensures PushSpec(s, data, segment).slots == s.slots[s.writeIndex := WithCycle(data, s.cycleBit)]
  {
  }

  /** At the last data slot Push writes the data there, the Link TRB with the
      current cycle bit into the last slot, restarts at 0 and flips the cycle
      bit; no other slot changes. */
  lemma PushWrap(s: RingState, data: Trb, segment: bv64)
    requires ValidRing(s) && s.writeIndex + 1 == |s.slots| - 1
    ensures ValidRing(PushSpec(s, data, segment))
    ensures PushSpec(s, data, segment).writeIndex == 0
    ensures PushSpec(s, data, segment).cycleBit == !s.cycleBit
    ensures PushSpec(s, data, segment).slots ==
      s.slots[s.writeIndex := WithCycle(data, s.cycleBit)][|s.slots| - 1 := WithCycle(LinkTrb(segment), s.cycleBit)]
  {
  }

  /** Pushing the TRBs of `ds` one after the other. */
  function PushAll(s: RingState, ds: seq<Trb>, segment: bv64): (r: RingState)
    requires ValidRing(s)
    ensures ValidRing(r) && |r.slots| == |s.slots|
    decreases |ds|
  {
    if |ds| == 0 then s
    else
      var before := PushAll(s, ds[..|ds| - 1], segment);
      if before.writeIndex + 1 < |before.slots| - 1 then
        PushNoWrap(before, ds[|ds| - 1], segment);
        PushSpec(before, ds[|ds| - 1], segment)
      else
        PushWrap(before, ds[|ds| - 1], segment);
        PushSpec(before, ds[|ds| - 1], segment)
  }

  /** N pushes that stay below the last data slot advance the write index by
      exactly N, keep the cycle bit, and store the TRBs in order from the old
      write index with the ring's cycle bit; the other slots are unchanged. */
  lemma {:induction false} PushAllNoWrap(s: RingState, ds: seq<Trb>, segment: bv64)
    requires ValidRing(s) && s.writeIndex + |ds| < |s.slots| - 1
    ensures PushAll(s, ds, segment).writeIndex == s.writeIndex + |ds|
    ensures PushAll(s, ds, segment).cycleBit == s.cycleBit
    ensures forall k :: 0 <= k < |ds| ==>
      PushAll(s, ds, segment).slots[s.writeIndex + k] == WithCycle(ds[k], s.cycleBit)
    ensures forall k :: 0 <= k < |s.slots| && !(s.writeIndex <= k < s.writeIndex + |ds|) ==>
      PushAll(s, ds, segment).slots[k] == s.slots[k]
  {
    if |ds| > 0 {
      var init := ds[..|ds| - 1];
      PushAllNoWrap(s, init, segment);
      var before := PushAll(s, init, segment);
      PushNoWrap(before, ds[|ds| - 1], segment);
      forall k | 0 <= k < |ds|
        ensures PushAll(s, ds, segment).slots[s.writeIndex + k] == WithCycle(ds[k], s.cycleBit)
      {
        if k < |ds| - 1 {
          assert ds[k] == init[k];
        }
      }
    }
  }

  /** A full lap from slot 0: pushing size-1 TRBs fills every data slot in
      order, emits the Link TRB into the last slot with the starting cycle bit,
      returns the write index to 0 and flips the cycle bit. */
  lemma FullLap(s: RingState, ds: seq<Trb>, segment: bv64)
    requires ValidRing(s) && s.writeIndex == 0 && |ds| == |s.slots| - 1
    ensures PushAll(s, ds, segment).writeIndex == 0
    ensures PushAll(s, ds, segment).cycleBit == !s.cycleBit
    ensures forall k :: 0 <= k < |ds| ==> PushAll(s, ds, segment).slots[k] == WithCycle(ds[k], s.cycleBit)
    ensures PushAll(s, ds, segment).slots[|s.slots| - 1] == WithCycle(LinkTrb(segment), s.cycleBit)
  {
    var init := ds[..|ds| - 1];
    PushAllNoWrap(s, init, segment);
    var before := PushAll(s, init, segment);
    PushWrap(before, ds[|ds| - 1], segment);
    forall k | 0 <= k < |ds|
      ensures PushAll(s, ds, segment).slots[k] == WithCycle(ds[k], s.cycleBit)
    {
      if k < |ds| - 1 {
        assert ds[k] == init[k];
        assert before.slots[s.writeIndex + k] == WithCycle(init[k], s.cycleBit);
      }
    }
  }

  /** After a full lap, the next TRB pushed into slot 0 carries the opposite
      cycle bit to the one pushed there on the previous lap, which is how the
      consumer tells the new TRB from the stale one. */
  lemma NextLapFlipsCycle(s: RingState, ds: seq<Trb>, segment: bv64, next: Trb)
    requires ValidRing(s) && s.writeIndex == 0 && |ds| == |s.slots| - 1
    ensures CycleBit(PushSpec(PushAll(s, ds, segment), next, segment).slots[0]) != CycleBit(PushAll(s, ds, segment).slots[0])
  {
    FullLap(s, ds, segment);
    var after := PushAll(s, ds, segment);
    if 1 < |after.slots| - 1 {
      PushNoWrap(after, next, segment);
    } else {
      PushWrap(after, next, segment);
    }
  }

  /** `class Ring`: the TRB buffer `buf_` (its length is `buf_size_`), its
      physical address, `cycle_bit_` and `write_index_`. */
  class Ring {
    var buf: array<Trb>
    var bufAddr: bv64
    var cycleBit: bool
    var writeIndex: nat

    function State(): RingState
      reads this, buf
    {
      RingState(buf[..], writeIndex, cycleBit)
    }

    ghost predicate Valid()
      reads this
    {
      buf.Length >= 2 && writeIndex < buf.Length - 1
    }

    /** A ring that owns no buffer yet (`buf_ = nullptr`, `buf_size_ = 0`). */
    constructor ()
      ensures buf.Length == 0 && writeIndex == 0
    {
      buf := new Trb[0];
      bufAddr := 0;
      cycleBit := false;
      writeIndex := 0;
    }

    /** `Initialize`: a zero-filled buffer of `bufSize` TRBs at the address the
        allocator returned, write index 0 and cycle bit 1; when the allocator
        returned nullptr, kNoEnoughMemory, and the ring is left owning no
        buffer (the old one is released before allocating; this body is
        reconstructed from the header, whose `buf_` then holds nullptr). */
    method Initialize(bufSize: nat, alloc: Option<bv64>) returns (err: Error)
      modifies this
      ensures cycleBit && writeIndex == 0
      ensures alloc.None? ==> err == NoEnoughMemory && buf.Length == 0 && bufAddr == old(bufAddr)
      ensures alloc.Some? ==> err == Success && fresh(buf) && bufAddr == alloc.value
      ensures alloc.Some? ==> buf[..] == seq(bufSize, _ => ZeroTrb)
      ensures alloc.Some? && bufSize >= 2 ==> Valid()
    {
      cycleBit := true;
      writeIndex := 0;
      if alloc.None? {
        buf := new Trb[0];
        return NoEnoughMemory;
      }
      buf := new Trb[bufSize](_ => ZeroTrb);
      bufAddr := alloc.value;
      err := Success;
    }

    /** `CopyToLast`: writes the stamped TRB at the write index; the index stays. */
    method CopyToLast(data: Trb)
      requires writeIndex < buf.Length
      modifies buf
      ensures State() == CopyToLastSpec(old(State()), data)
    {
      buf[writeIndex] := WithCycle(data, cycleBit);
    }

    /** `Push`: returns the slot that holds the caller's TRB, which is never the
        Link TRB's slot. */
    method Push(data: Trb) returns (slot: nat)
      requires Valid()
      modifies this, buf
      ensures buf == old(buf) && bufAddr == old(bufAddr)
      ensures State() == PushSpec(old(State()), data, bufAddr)
      ensures slot == old(writeIndex) && slot < buf.Length - 1
      ensures Valid()
    {
      slot := writeIndex;
      CopyToLast(data);
      writeIndex := writeIndex + 1;
      if writeIndex == buf.Length - 1 {
        CopyToLast(LinkTrb(bufAddr));
        writeIndex := 0;
        cycleBit := !cycleBit;
      }
    }
  }

  /** `union EventRingSegmentTableEntry`: the 64-bit segment base in words 0-1,
      the segment size in the low 16 bits of word 2, the rest reserved. */
  datatype ErstEntry = ErstEntry(segmentBase: bv64, segmentSize: bv16)

  function EncodeErstEntry(e: ErstEntry): seq<bv32>
  {
    [(e.segmentBase & 0xFFFF_FFFF) as bv32, (e.segmentBase >> 32) as bv32, e.segmentSize as bv32, 0]
  }

  function DecodeErstEntry(data: seq<bv32>): (e: ErstEntry)
    requires |data| == 4
    ensures data[2] & 0xFFFF_0000 == 0 && data[3] == 0 ==> EncodeErstEntry(e) == data
  {
    ErstEntry(((data[1] as bv64) << 32) | (data[0] as bv64), (data[2] & 0xFFFF) as bv16)
  }

  lemma ErstEntryRoundTrip(e: ErstEntry)
    ensures DecodeErstEntry(EncodeErstEntry(e)) == e
  {
  }

  /** The 16-bit `ring_segment_size` field that a `size_t` count is stored in:
      the count itself when it fits, its low 16 bits otherwise. */
  function SegmentSize(n: bv64): (r: bv16)
    ensures n < 0x1_0000 ==> r as bv64 == n
    ensures r as bv64 == n & 0xFFFF
  {
    if n < 0x1_0000 then n as bv16 else (n & 0xFFFF) as bv16
  }

  /** The segment never describes more TRBs than were allocated. */
  lemma SegmentSizeWithinBuffer(n: bv64)
    ensures SegmentSize(n) as int <= n as int
    ensures n as int < 0x1_0000 ==> SegmentSize(n) as int == n as int
  {
    if n < 0x1_0000 {
      SmallCount(n);
    } else {
      LargeCount(n);
    }
  }

  lemma SmallCount(n: bv64)
    requires n < 0x1_0000
    ensures (n as bv16) as int == n as int
  {
  }

  lemma LargeCount(n: bv64)
    requires n >= 0x1_0000
    ensures n as int >= 0x1_0000
  {
  }

  /** The abstract state of the event ring: the slots the controller writes,
      the dequeue position (the ERDP register, as an index) and `cycle_bit_`. */
  datatype EventState = EventState(slots: seq<Trb>, dequeue: nat, cycleBit: bool)

  predicate ValidEvent(s: EventState)
  {
    s.dequeue < |s.slots|
  }

  /** `HasFront`: the TRB at the dequeue pointer carries the consumer's cycle bit. */
  predicate HasFrontSpec(s: EventState)
    requires ValidEvent(s)
  {
    CycleBit(s.slots[s.dequeue]) == s.cycleBit
  }

  /** `Pop`: advance the dequeue pointer; past the segment end, wrap to its
      start and flip the cycle bit. */
  function PopSpec(s: EventState): (r: EventState)
    requires ValidEvent(s)
    ensures ValidEvent(r) && r.slots == s.slots
    ensures s.dequeue + 1 < |s.slots| ==> r.dequeue == s.dequeue + 1 && r.cycleBit == s.cycleBit
    ensures s.dequeue + 1 == |s.slots| ==> r.dequeue == 0 && r.cycleBit == !s.cycleBit
  {
    if s.dequeue + 1 == |s.slots| then s.(dequeue := 0, cycleBit := !s.cycleBit)
    else s.(dequeue := s.dequeue + 1)
  }

  /** The controller writing an event TRB tagged with cycle bit `cycle` into slot `k`. */
  function ControllerWrite(s: EventState, k: nat, t: Trb, cycle: bool): (r: EventState)
    requires k < |s.slots|
    ensures r.dequeue == s.dequeue && r.cycleBit == s.cycleBit && |r.slots| == |s.slots|
  {
    s.(slots := s.slots[k := WithCycle(t, cycle)])
  }

  /** A freshly initialized event ring (zeroed slots, cycle bit 1) has no front;
      once the controller writes one event with the consumer's cycle bit at the
      dequeue slot it has; after popping it, the ring is empty again and the
      dequeue pointer has advanced. */
  lemma EventRingHandshake(size: nat, t: Trb)
    requires size >= 2
    ensures !HasFrontSpec(EventState(seq(size, _ => ZeroTrb), 0, true))
    ensures HasFrontSpec(ControllerWrite(EventState(seq(size, _ => ZeroTrb), 0, true), 0, t, true))
    ensures PopSpec(ControllerWrite(EventState(seq(size, _ => ZeroTrb), 0, true), 0, t, true)).dequeue == 1
    ensures !HasFrontSpec(PopSpec(ControllerWrite(EventState(seq(size, _ => ZeroTrb), 0, true), 0, t, true)))
  {
    var fresh0 := EventState(seq(size, _ => ZeroTrb), 0, true);
    var written := ControllerWrite(fresh0, 0, t, true);
    assert written.slots[1] == ZeroTrb;
  }

  /** After a wrap the consumer expects the opposite cycle bit, so the events of
      the previous lap, still in the slots, do not read as new. */
  lemma WrapRejectsStaleEvents(s: EventState)
    requires ValidEvent(s) && s.dequeue + 1 == |s.slots|
    requires forall k :: 0 <= k < |s.slots| ==> CycleBit(s.slots[k]) == s.cycleBit
    ensures !HasFrontSpec(PopSpec(s))
  {
  }

  /** `class EventRing`: `buf_`, `cycle_bit_`, the segment table entry `erst_[0]`
      and the dequeue pointer, modelled as an index into `buf_`. */
  class EventRing {
    var buf: array<Trb>
    var cycleBit: bool
    var erst: ErstEntry
    var dequeueIndex: nat

    /** The slots of the one segment: the first `ring_segment_size` TRBs. */
    function State(): EventState
      reads this, buf
      requires Valid()
    {
      EventState(buf[..erst.segmentSize as int], dequeueIndex, cycleBit)
    }

    /** The one segment is non-empty and lies inside the buffer, and the
        dequeue pointer lies inside the segment. */
    ghost predicate Valid()
      reads this
    {
      0 < erst.segmentSize as int <= buf.Length && dequeueIndex < erst.segmentSize as int
    }

    constructor ()
      ensures buf.Length == 0
    {
      buf := new Trb[0];
      cycleBit := false;
      erst := ErstEntry(0, 0);
      dequeueIndex := 0;
    }

    /** `Initialize`: a zero-filled buffer, one segment table entry describing it
        (base address and the size truncated to 16 bits), cycle bit 1 and the
        dequeue pointer at the first TRB. Either allocation failing gives
        kNoEnoughMemory. The ring is usable exactly when the truncated size is
        non-zero: a multiple of 65536 TRBs describes an empty segment. */
    method Initialize(bufSize: bv64, bufAlloc: Option<bv64>, erstAlloc: Option<bv64>) returns (err: Error)
      modifies this
      ensures cycleBit
      ensures bufAlloc.None? || erstAlloc.None? <==> err == NoEnoughMemory
      ensures err == Success ==> fresh(buf) && buf.Length == bufSize as int && dequeueIndex == 0
      ensures err == Success ==> forall k :: 0 <= k < buf.Length ==> buf[k] == ZeroTrb
      ensures err == Success ==> erst.segmentBase == bufAlloc.value && erst.segmentSize == SegmentSize(bufSize)
      ensures err == Success ==> (Valid() <==> SegmentSize(bufSize) as int != 0)
      ensures err == Success && Valid() ==> !HasFront()
    {
      cycleBit := true;
      if bufAlloc.None? {
        return NoEnoughMemory;
      }
      var size := bufSize as int;
      var segmentSize := SegmentSize(bufSize);
      SegmentSizeWithinBuffer(bufSize);
      buf := new Trb[size](_ => ZeroTrb);
      if erstAlloc.None? {
        return NoEnoughMemory;
      }
      erst := ErstEntry(bufAlloc.value, segmentSize);
      dequeueIndex := 0;
      err := Success;
      if 0 < segmentSize as int {
        assert buf[0] == ZeroTrb;
      }
    }

    /** `HasFront`. */
    predicate HasFront()
      reads this, buf
      requires Valid()
    {
      HasFrontSpec(State())
    }

    /** `Front`: the TRB at the dequeue pointer. */
    function Front(): (t: Trb)
      reads this, buf
      requires Valid()
      ensures HasFront() <==> CycleBit(t) == cycleBit
    {
      buf[dequeueIndex]
    }

    /** `Pop`: the segment end is `ring_segment_size` TRBs past its base, so
        the dequeue pointer wraps there, not at the buffer's end, and the
        cycle bit flips. The header declares only `Pop()`; the wrap follows
        section 4.9.4 of the xHCI specification. */
    method Pop()
      requires Valid()
      modifies this
      ensures buf == old(buf) && erst == old(erst)
      ensures Valid()
      ensures State() == PopSpec(old(State()))
    {
      var p := dequeueIndex + 1;
      if p == erst.segmentSize as int {
        p := 0;
        cycleBit := !cycleBit;
      }
      dequeueIndex := p;
    }
  }
}
