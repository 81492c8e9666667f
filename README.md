# A verified model of the kernel data structures of a MikanOS-style hobby OS

This project models in Dafny the small, self-contained data structures at the
heart of a hobby x86-64 kernel written in C++, and proves what their
interfaces promise. It also models one user application, the `rpn`
calculator. One Dafny module stands for each source file:

- `XhciRing` (ring.dfy): the xHCI producer ring.
  - `Ring::Push` writes a TRB at `write_index_` stamped with `cycle_bit_`.
  - At the last slot it drops a Link TRB, returns to slot 0 and flips the cycle bit (xHCI sections 4.9 and 6.4.4.1).
  - Also modelled: the consumer side of the event ring (`HasFront`, `Front`, `Pop`) and the segment-table entry layout (xHCI section 6.5).
- `UsbDevice` (usb_device.dfy): the bookkeeping of `usb::Device`.
  - The four-entry waiter table routes a control-transfer completion back to the class driver that issued it.
  - The enumeration phases 1 to 4 lead to `is_initialized_`.
  - Sixteen endpoint configurations and sixteen class-driver slots are filled from a configuration descriptor (USB 2.0 sections 9.3, 9.4.3, 9.4.7 and 9.6).
- `UsbEndpoint` (endpoint.dfy): `EndpointID` addressing, `addr = num << 1 | dir_in`, which is the xHCI Device Context Index.
- `UsbMemory` (usb_memory.dfy): the USB driver's bump allocator with alignment and boundary, `AllocArray` and `Allocator`.
- `MemoryManager` (memory_manager.dfy, with bit-level lemmas in map_line.dfy):
  - the byte-unit literals and `FrameID`;
  - the bitmap frame allocator `BitmapMemoryManager`, one bit per 4 KiB frame.
- `Fat` (fat.dfy):
  - the first cluster of a directory entry;
  - the 8.3 short name: `ReadName`, `FormatName`, `SetFileName` and `NameIsEqual`;
  - cluster chains over the FAT: `NextCluster`, `ExtendCluster` and `AllocateClusterChain` (Microsoft FAT32 File System Specification).
- `Pci` (pci.dfy): class-code matching, BAR offsets, and capability and MSI header bit-fields (PCI Local Bus Specification 3.0, sections 6.2.1, 6.2.5.1, 6.7 and 6.8.1).
- `Layers` (layer.dfy): the z-order bookkeeping of `LayerManager` and `MakeLayerMessage`.
- `Font` (font.dfy): `CountUTF8Size`, `ConvertUTF8To32` and `IsHankaku` (RFC 3629 section 3).
- `Rpn` (rpn.dfy): the array-backed stack machine of `apps/rpn/rpn.cpp`.
- `Wrappers` (wrappers.dfy): `Option` and `Result`.

Form follows the source:

- **Code that updates state in place becomes classes with `modifies` clauses.** These are `Ring`, `EventRing`, `Device`, `MemoryPool`, `BitmapMemoryManager`, `LayerManager` and the rpn `Machine`.
- **Code that fills buffers step by step becomes methods with loops over arrays.** These are `ReadName`, `FormatName`, `SetFileName`, `NameIsEqual`, `ExtendCluster` and `AllocateClusterChain`.
- **Each such method is proved against a specification function, with lemmas about that function.** For example:
  - `Ring.Push` is proved against `PushSpec`, with the lemmas `PushNoWrap`, `PushWrap` and `FullLap`;
  - `ExtendCluster` is proved against `Link`, with the lemma `ExtendClusterAppends`;
  - `Machine.Run` is proved against `Exec`, with the lemmas `ExecDepth` and `ExampleRun`.
- **Pure header code becomes functions and lemmas.** This covers the bit-field unions, the `constexpr` constructors and the literals.

Where the bodies come from:

- **Modelled from source text.** These are `apps/rpn/rpn.cpp` and the inline bodies in the headers.
- **Written from the declarations, the header comments and the standards.** The `.cpp` files of fat, layer, memory_manager, usb/memory, usb/device, xhci/ring and font are not part of this model. Where no header fixes a rule, the model chooses one and the member's doc comment states it:
  - `Device`: a full waiter table refuses the registration and the transfer is not sent; a completion removes its waiter's entry; a completion without a waiter is dispatched on the phase and the request; phase 2 takes each endpoint's class driver from the interface descriptor before it.
  - `Ring` and `EventRing`: a failed `Ring.Initialize` leaves the ring without a buffer; `EventRing.Pop` wraps at the end of the one segment the table entry describes.
  - `BitmapMemoryManager`: `Allocate` is first fit from `range_begin_`; `Stat` counts the used bits of whole map lines.
  - `MemoryPool`: `AllocMem` rounds up to the alignment, skips to the next boundary when the region would cross it, and bumps; `FreeMem` reclaims nothing.
  - `LayerManager`: `UpDown` clamps the height to the top of the stack; `RemoveLayer` hides the layer first.
  - fat: `NextCluster` maps every end marker to `kEndOfClusterchain`; `ExtendCluster` takes free clusters in increasing order from cluster 2; `SetFileName` splits at the last dot.
  - font: the sequence length comes from the lead byte as in RFC 3629; continuation bytes are not checked.

## Model

| member | source | states |
|---|---|---|
| XhciRing.StampWord | kernel/usb/xhci/ring.hpp:47-51 | the cycle bit of word 3 becomes the given bit and all other bits are kept |
| XhciRing.WithCycle | kernel/usb/xhci/ring.hpp:47-51 | a TRB with its cycle field overridden: the cycle bit is the producer's, words 0-2 and the rest of word 3 are the caller's |
| XhciRing.LinkTrbFields | kernel/usb/xhci/ring.hpp:55-57 | the Link TRB carries the segment's 64-bit base in words 0-1, has Toggle Cycle set and has TRB type 6 (xHCI section 6.4.4.1) |
| XhciRing.CopyToLastSpec | kernel/usb/xhci/ring.hpp:47-51 | CopyToLast writes the stamped TRB at `write_index_` only, and leaves `write_index_`, `cycle_bit_` and every other slot unchanged |
| XhciRing.PushSpec | kernel/usb/xhci/ring.hpp:53-61 | the state after one `Push`, as the header comment describes it; its effect is stated by `PushNoWrap` and `PushWrap` below: the stamped TRB at the write index and one step on, or at the last data slot also a Link TRB, index 0 and the cycle bit flipped |
| XhciRing.PushNoWrap | kernel/usb/xhci/ring.hpp:53-61 | a push that does not reach the last slot writes the stamped TRB, advances the index by exactly 1, keeps the cycle bit and keeps the ring valid |
| XhciRing.PushWrap | kernel/usb/xhci/ring.hpp:55-57 | a push that reaches the last slot also writes a Link TRB there, resets the index to 0 and flips the cycle bit |
| XhciRing.PushAll | kernel/usb/xhci/ring.hpp:53-61 | any sequence of pushes keeps the ring valid and its size fixed |
| XhciRing.PushAllNoWrap | kernel/usb/xhci/ring.hpp:53-61 | pushes that stay below the last slot fill consecutive slots with the stamped TRBs and change no other slot |
| XhciRing.FullLap | kernel/usb/xhci/ring.hpp:53-61 | a full lap of size-1 pushes from slot 0 fills every slot, leaves a Link TRB in the last slot, returns to 0 and flips the cycle bit |
| XhciRing.NextLapFlipsCycle | kernel/usb/xhci/ring.hpp:42-61 | the first TRB of the next lap carries the opposite cycle bit, so the consumer can tell new TRBs from old ones |
| XhciRing.Ring.constructor | kernel/usb/xhci/ring.hpp:19-40 | a new ring has no buffer |
| XhciRing.Ring.Initialize | kernel/usb/xhci/ring.hpp:24-25 | a failed allocation returns kNoEnoughMemory and leaves the ring without a buffer; otherwise the ring is zeroed with cycle bit 1 and index 0, and a ring of at least two slots is valid |
| XhciRing.Ring.CopyToLast | kernel/usb/xhci/ring.hpp:47-51 | the new ring state is `CopyToLastSpec` of the old one |
| XhciRing.Ring.Push | kernel/usb/xhci/ring.hpp:53-61 | the new ring state is `PushSpec` of the old one; the returned slot is the old write index, never the Link TRB slot; the ring stays valid |
| XhciRing.DecodeErstEntry | kernel/usb/xhci/ring.hpp:64-74 | decoding a table entry whose reserved bits are zero and then encoding it gives back the same four words |
| XhciRing.ErstEntryRoundTrip | kernel/usb/xhci/ring.hpp:64-74 | encoding an entry and then decoding it gives back the base address and segment size |
| XhciRing.SegmentSize | kernel/usb/xhci/ring.hpp:69 | the size field is the low 16 bits of `buf_size`, and equals it when it fits |
| XhciRing.SegmentSizeWithinBuffer | kernel/usb/xhci/ring.hpp:69 | the segment never describes more TRBs than the buffer holds, and describes all of them below 65536 |
| XhciRing.PopSpec | kernel/usb/xhci/ring.hpp:94 | Pop advances the dequeue index by 1; from the last slot it returns to 0 and flips the consumer cycle bit |
| XhciRing.ControllerWrite | kernel/usb/xhci/ring.hpp:86-92 | a controller write changes no consumer state |
| XhciRing.EventRingHandshake | kernel/usb/xhci/ring.hpp:86-94 | a zeroed ring has no front; after the controller writes one event with cycle 1 it does; after Pop it does not again |
| XhciRing.WrapRejectsStaleEvents | kernel/usb/xhci/ring.hpp:86-94 | after wrapping, events left over from the previous lap are not seen as new |
| XhciRing.EventRing.constructor | kernel/usb/xhci/ring.hpp:96-102 | a new event ring has no buffer |
| XhciRing.EventRing.Initialize | kernel/usb/xhci/ring.hpp:78 | fails with kNoEnoughMemory exactly when either allocation fails; otherwise the buffer is zeroed, the table entry points at it with the truncated segment size, the dequeue index is 0, the ring is usable exactly when that size is non-zero, and then it has no front |
| XhciRing.EventRing.HasFront | kernel/usb/xhci/ring.hpp:86-88 | `HasFront()` compares the cycle bit of the TRB at the dequeue pointer with `cycle_bit_`; `Front`'s contract states the equivalence, and `EventRingHandshake` and `WrapRejectsStaleEvents` what it says about fresh and stale events |
| XhciRing.EventRing.Front | kernel/usb/xhci/ring.hpp:86-92 | `HasFront()` holds exactly when the TRB at the dequeue index carries the consumer's cycle bit |
| XhciRing.EventRing.Pop | kernel/usb/xhci/ring.hpp:94 | over the slots of the segment the table entry describes, the new state is `PopSpec` of the old one (advance, or wrap to slot 0 and flip the cycle bit at the segment's end) and the ring stays valid |
| UsbEndpoint.TypeCode | kernel/usb/endpoint.hpp:10-15 | the four endpoint types encode below 4 |
| UsbEndpoint.TypeOfCode | kernel/usb/endpoint.hpp:10-15 | every code below 4 decodes to the type whose code it is |
| UsbEndpoint.TypeCodeRoundTrip | kernel/usb/endpoint.hpp:10-15 | decoding the code of a type gives back that type |
| UsbEndpoint.DefaultEndpointID | kernel/usb/endpoint.hpp:19 | the default EndpointID is endpoint 0, direction out |
| UsbEndpoint.AddressIsDeviceContextIndex | kernel/usb/endpoint.hpp:28-36 | `EndpointID(n, d).Address() == 2n + d`, the xHCI Device Context Index |
| UsbEndpoint.NumberAndDirectionRoundTrip | kernel/usb/endpoint.hpp:28-42 | `Number()` and `IsIn()` give back the number and direction the ID was made from |
| UsbEndpoint.AddressRoundTrip | kernel/usb/endpoint.hpp:28-42 | every address is rebuilt from its number and direction |
| UsbEndpoint.AddressRange | kernel/usb/endpoint.hpp:23-36 | endpoint numbers 0..15 give addresses 0..31 |
| UsbEndpoint.MakeEndpointIDInjective | kernel/usb/endpoint.hpp:28 | distinct (number, direction) pairs give distinct IDs |
| UsbEndpoint.DefaultControlPipe | kernel/usb/endpoint.hpp:41-48 | `kDefaultControlPipeID` has Number 0, IsIn true and Address 1 |
| UsbEndpoint.CopyEndpointID | kernel/usb/endpoint.hpp:20-33 | copy construction and assignment keep the address, number and direction |
| UsbDevice.GetDescriptorSetup | kernel/usb/device.hpp:77-79 | GET_DESCRIPTOR: request 6, device-to-host standard, descriptor type in the high byte and index in the low byte of wValue, wIndex 0, wLength the length (USB 2.0 section 9.4.3) |
| UsbDevice.SetConfigurationSetup | kernel/usb/device.hpp:80-81 | SET_CONFIGURATION: request 9, host-to-device, configuration value in the low byte of wValue, no data stage (USB 2.0 section 9.4.7) |
| UsbDevice.PutWaiter | kernel/usb/device.hpp:71-74 | registers the issuer under the setup packet and keeps every other entry; fails with the table full exactly when the key is new and four entries are taken |
| UsbDevice.PutWaiterBounded | kernel/usb/device.hpp:74 | the waiter table never grows beyond four entries |
| UsbDevice.FifthWaiterRefused | kernel/usb/device.hpp:74 | a fifth distinct setup packet is refused |
| UsbDevice.RemoveWaiter | kernel/usb/device.hpp:71-73 | removing a matched waiter drops only that entry |
| UsbDevice.EndpointSlot | kernel/usb/device.hpp:41-46 | an endpoint address always names one of the 16 class-driver slots |
| UsbDevice.MakeEndpointConfig | kernel/usb/endpoint.hpp:50-62 | an endpoint descriptor becomes a config with its number and direction from bEndpointAddress, its type from bmAttributes, wMaxPacketSize and bInterval (USB 2.0 section 9.6.6) |
| UsbDevice.DescriptorStep | kernel/usb/device.hpp:41-65 | an endpoint descriptor yields an entry only after an interface descriptor, for that interface's driver and a slot 1..15 equal to its number; only an interface descriptor changes the driver |
| UsbDevice.ParseSlotsInRange | kernel/usb/device.hpp:41-46 | no parsed endpoint is assigned to slot 0 or beyond slot 15 |
| UsbDevice.AssignDriversKeepsSlotZero | kernel/usb/device.hpp:43-44 | assigning the parsed endpoints never touches slot 0 |
| UsbDevice.AssignDriversSlots | kernel/usb/device.hpp:41-46 | every parsed endpoint's slot receives a driver, and every other slot is unchanged |
| UsbDevice.ParseConfigurationUnfold | kernel/usb/device.hpp:67 | the configuration walk is one descriptor step followed by the walk from the next descriptor |
| UsbDevice.Capped | kernel/usb/device.hpp:64-65 | at most 16 endpoint configurations are kept, the first ones in descriptor order |
| UsbDevice.CappedWalk | kernel/usb/device.hpp:64-65 | a walk that stopped at the end of the descriptors or at 16 entries has collected exactly the capped list |
| UsbDevice.Configs | kernel/usb/device.hpp:64 | the configurations of the entries, in order |
| UsbDevice.Device.constructor | kernel/usb/device.hpp:46-74 | a fresh device has phase 0 and is not initialized, with no waiters, no endpoint configurations and all 16 class-driver slots empty |
| UsbDevice.Device.IsInitialized | kernel/usb/device.hpp:28 | the device reports itself initialized only in phase 4 |
| UsbDevice.Device.NumEndpointConfigs | kernel/usb/device.hpp:30 | the number of endpoint configurations is always between 0 and 16 |
| UsbDevice.Device.Buffer | kernel/usb/device.hpp:33-52 | the descriptor buffer has 256 bytes |
| UsbDevice.Device.IssueControl | kernel/usb/device.hpp:20-23 | with an issuer, the waiter is registered as `PutWaiter` does, and a full table refuses the transfer; every accepted transfer is recorded |
| UsbDevice.Device.ControlIn | kernel/usb/device.hpp:20-21 | without an issuer the IN transfer is always sent and the waiters are unchanged; with one, the waiter table becomes `PutWaiter` of the old one and the transfer is sent, and kWaiterTableFull is returned exactly when `PutWaiter` refuses, with nothing registered and nothing sent |
| UsbDevice.Device.ControlOut | kernel/usb/device.hpp:22-23 | without an issuer the OUT transfer is always sent and the waiters are unchanged; with one, the waiter table becomes `PutWaiter` of the old one and the transfer is sent, and kWaiterTableFull is returned exactly when `PutWaiter` refuses, with nothing registered and nothing sent |
| UsbDevice.Device.StartInitialize | kernel/usb/device.hpp:27 | enters phase 1 and requests the device descriptor on the default control pipe |
| UsbDevice.Device.OnControlCompleted | kernel/usb/device.hpp:36-69 | a completion whose setup packet has a waiter goes to that issuer and removes only its entry, nothing else changing; any other completion on a non-default endpoint is kNoMatchingResponder and changes nothing; on the default pipe, phase 1 or 2 with GET_DESCRIPTOR and phase 3 with SET_CONFIGURATION do what `InitializePhase1` to `InitializePhase3` promise and change nothing else, and anything else is kInvalidPhase with nothing changed; the phase only ever advances by one |
| UsbDevice.Device.InitializePhase1 | kernel/usb/device.hpp:55-66 | a device descriptor records bNumConfigurations, requests configuration descriptor 0 and moves to phase 2; anything else is rejected and nothing but the error changes |
| UsbDevice.Device.InitializePhase2 | kernel/usb/device.hpp:59-67 | a configuration descriptor fills the endpoint configs and class-driver slots from the capped descriptor walk, sends SET_CONFIGURATION and moves to phase 3; anything else is rejected, leaving the phase, the transfers, the endpoint configs and the class-driver slots as they were |
| UsbDevice.Device.RecordEndpoint | kernel/usb/device.hpp:41-65 | appends one endpoint configuration and assigns its driver to its slot |
| UsbDevice.Device.ReadDescriptor | kernel/usb/device.hpp:64-67 | one descriptor of the walk: the collected configurations and slots advance by exactly one `DescriptorStep` |
| UsbDevice.Device.ReadEndpoints | kernel/usb/device.hpp:64-67 | after the walk, the endpoint configs and class-driver slots are exactly those of the first 16 endpoint descriptors of the configuration |
| UsbDevice.Device.InitializePhase3 | kernel/usb/device.hpp:68 | the SET_CONFIGURATION completion notifies the class drivers and moves to phase 4 |
| UsbDevice.Device.InitializePhase4 | kernel/usb/device.hpp:62-69 | phase 4 marks the device initialized |
| UsbDevice.Device.OnEndpointsConfigured | kernel/usb/device.hpp:31 | each call is counted as one notification of the class drivers that their endpoints are configured |
| UsbDevice.Device.OnInterruptCompleted | kernel/usb/device.hpp:38-46 | an interrupt completion goes to the driver in its endpoint number's slot, is an error when there is none, and never goes to slot 0 |
| UsbDevice.GetDescriptor | kernel/usb/device.hpp:77-79 | issues one GET_DESCRIPTOR IN transfer without a waiter |
| UsbDevice.SetConfiguration | kernel/usb/device.hpp:80-81 | issues one SET_CONFIGURATION OUT transfer without a waiter |
| UsbMemory.Ceil | kernel/usb/memory.hpp:21 | the least multiple of the alignment at or above the value; alignment 0 leaves the value unchanged |
| UsbMemory.CeilBounds | kernel/usb/memory.hpp:21 | the round-up formula `(v + a - 1) / a * a` gives a multiple of a in `[v, v + a)` |
| UsbMemory.CeilIsLeast | kernel/usb/memory.hpp:14-16 | no multiple of the alignment between the value and its rounding is skipped |
| UsbMemory.PlaceRegion | kernel/usb/memory.hpp:14-23 | a region is never placed below the allocation pointer |
| UsbMemory.AllocSpec | kernel/usb/memory.hpp:11-26 | a region that is handed out lies inside the pool, above the old pointer, and the allocation pointer moves just past it; nullptr comes back exactly when the placed region would pass the pool's end |
| UsbMemory.AllocAligned | kernel/usb/memory.hpp:16-21 | with a nonzero alignment the region is a multiple of it |
| UsbMemory.AllocWithinBoundary | kernel/usb/memory.hpp:16-23 | with a nonzero boundary and size at most the boundary, the region does not cross a multiple of the boundary |
| UsbMemory.SuccessiveAllocationsDisjoint | kernel/usb/memory.hpp:14-26 | two successive allocations never overlap |
| UsbMemory.ArrayBytes | kernel/usb/memory.hpp:28-33 | `sizeof(T) * n` bytes, zero exactly when either factor is zero |
| UsbMemory.MemoryPool.constructor | kernel/usb/memory.hpp:11 | the allocation pointer starts at the pool's first byte |
| UsbMemory.MemoryPool.AllocMem | kernel/usb/memory.hpp:14-26 | the returned region and new pointer are those of `AllocSpec` |
| UsbMemory.MemoryPool.AllocArray | kernel/usb/memory.hpp:28-33 | exactly `AllocMem(sizeof(T) * n, alignment, boundary)` |
| UsbMemory.MemoryPool.Allocate | kernel/usb/memory.hpp:39-54 | `Allocator::allocate` uses alignment 64 and boundary 4096: the region is 64-aligned, inside the pool, and does not cross a 4 KiB page when it fits in one |
| UsbMemory.MemoryPool.FreeMem | kernel/usb/memory.hpp:35-58 | freeing reclaims nothing and leaves the allocation pointer unchanged |
| MemoryManager.KiB | kernel/memory_manager.hpp:14-16 | `_KiB` multiplies by 1024, exactly whenever the product fits 64 bits |
| MemoryManager.MiB | kernel/memory_manager.hpp:18-20 | `_MiB` multiplies by 1024 KiB, exactly whenever the product fits 64 bits |
| MemoryManager.GiB | kernel/memory_manager.hpp:22-24 | `_GiB` multiplies by 1024 MiB, exactly whenever the product fits 64 bits |
| MemoryManager.Frame | kernel/memory_manager.hpp:28-34 | `FrameID(n).Frame()` is the 4 KiB-aligned address `n * 4096` |
| MemoryManager.BitmapDimensions | kernel/memory_manager.hpp:57-64 | frames are 4 KiB, the limit is 128 GiB, `kFrameCount` is their quotient, and `alloc_map_` has `kFrameCount / 64` lines covering every frame exactly |
| MemoryManager.MapUpdate | kernel/memory_manager.hpp:47-53 | setting or clearing the bit of frame `n*64+m` in line n changes that frame's bit and no other |
| MemoryManager.MapBitOfLine | kernel/memory_manager.hpp:47-53 | bit m of `alloc_map_[n]` describes frame `n*64+m` |
| MemoryManager.LineCountIsCountUsed | kernel/memory_manager.hpp:47-53 | counting the set bits of a map line counts the used frames that line describes |
| MemoryManager.CountUsedSplit | kernel/memory_manager.hpp:82-83 | used frames of a range are the sum over its two halves |
| MemoryManager.LinesUsedIsCountUsed | kernel/memory_manager.hpp:82-83 | the line-by-line bit count equals the number of used frames in those lines |
| MemoryManager.LineCountBound | kernel/memory_manager.hpp:62-64 | a line holds at most 64 used frames |
| MemoryManager.BitmapMemoryManager.constructor | kernel/memory_manager.hpp:67-90 | every frame starts free, and the range is all frames |
| MemoryManager.BitmapMemoryManager.SetBit | kernel/memory_manager.hpp:93 | the frame's bit reads as the given value and every other frame's bit is unchanged |
| MemoryManager.BitmapMemoryManager.MarkAllocated | kernel/memory_manager.hpp:72 | frames s..s+k-1 read as used and all other bits are unchanged |
| MemoryManager.BitmapMemoryManager.Free | kernel/memory_manager.hpp:71 | frames s..s+k-1 read as free, all other bits are unchanged, and kSuccess is returned |
| MemoryManager.BitmapMemoryManager.SetMemoryRange | kernel/memory_manager.hpp:74-80 | the range becomes `[begin, end)` and the bitmap is untouched; `Allocate` searches from `range_begin_` |
| MemoryManager.BitmapMemoryManager.FindFreeRun | kernel/memory_manager.hpp:69-80 | finds the lowest start in the range of k free frames, or reports that there is none |
| MemoryManager.BitmapMemoryManager.Allocate | kernel/memory_manager.hpp:69-70 | returns the first run of k frames in the range that were all free and marks them used, leaving other bits unchanged; otherwise returns kNoEnoughMemory with `kNullFrame` and changes nothing |
| MemoryManager.BitmapMemoryManager.Stat | kernel/memory_manager.hpp:82-83 | allocated frames are the used frames of the lines the range covers, and total frames are `range_end - range_begin` |
| MapLine.BitIndexInjective | kernel/memory_manager.hpp:47-53 | distinct bit positions of a line are distinct bit indices |
| MapLine.MaskDisjoint | kernel/memory_manager.hpp:92-93 | the masks of two distinct bits share no bit |
| MapLine.UpdateSame | kernel/memory_manager.hpp:93 | after setting or clearing a mask, testing it gives the value written |
| MapLine.SetOther | kernel/memory_manager.hpp:93 | setting one bit leaves a disjoint bit unchanged |
| MapLine.ClearOther | kernel/memory_manager.hpp:93 | clearing one bit leaves a disjoint bit unchanged |
| Fat.JoinCluster | kernel/fat.hpp:68-71 | the first cluster has low 16 bits `first_cluster_low` and high 16 bits `first_cluster_high` |
| Fat.JoinClusterRoundTrip | kernel/fat.hpp:62-71 | splitting a cluster number into its halves and joining them gives it back |
| Fat.DirectoryEntry.constructor | kernel/fat.hpp:54-66 | the entry holds the given 11-byte name, cluster halves and size |
| Fat.DirectoryEntry.FirstCluster | kernel/fat.hpp:68-71 | low half `first_cluster_low`, high half `first_cluster_high` |
| Fat.Upper | kernel/fat.hpp:123-133 | upper-cases a-z and keeps every other byte |
| Fat.CStrShape | kernel/fat.hpp:95-110 | a C string is the prefix of its buffer before the first NUL |
| Fat.CStrOfTerminated | kernel/fat.hpp:95-110 | NUL-terminating bytes without a NUL gives back those bytes as the C string |
| Fat.TrimSpaces | kernel/fat.hpp:95-96 | removes exactly the trailing 0x20 padding |
| Fat.TrimPadSpace | kernel/fat.hpp:95-102 | trimming a space-padded field gives back the unpadded text |
| Fat.TrimmedLength | kernel/fat.hpp:95-96 | the length of the field without its trailing spaces |
| Fat.CopyTrimmed | kernel/fat.hpp:95-102 | copies a field without its trailing spaces and NUL-terminates it, touching nothing else |
| Fat.ReadName | kernel/fat.hpp:95-102 | base holds `name[0..8)` and ext holds `name[8..11)`, each without trailing spaces and NUL-terminated within 9 and 4 bytes |
| Fat.FormattedNameShape | kernel/fat.hpp:104-110 | the formatted name starts with the base, is the base alone exactly when the extension is empty, has no NUL and fits 12 bytes |
| Fat.StrLen | kernel/fat.hpp:104-110 | `strlen`: the index of the first NUL |
| Fat.StrCat | kernel/fat.hpp:104-110 | `strcat`: the C string in dest becomes its old value followed by the source's |
| Fat.FormatName | kernel/fat.hpp:104-110 | dest holds `"<base>"` when the extension is empty, otherwise `"<base>.<ext>"` |
| Fat.DotExtension | kernel/fat.hpp:104-110 | builds `"."` followed by the trimmed extension, with a NUL after the dot exactly when the extension is empty |
| Fat.LastDot | kernel/fat.hpp:164-169 | the position of the last dot of a name, or none |
| Fat.ShortName | kernel/fat.hpp:164-169 | the 11-byte short name `SetFileName` stores |
| Fat.CopyUpper | kernel/fat.hpp:164-169 | copies the first n bytes of the name upper-cased into the field at the offset, touching nothing else |
| Fat.PackSegment | kernel/fat.hpp:123-133 | packing a dot-free stretch of the name writes it upper-cased at the current field position |
| Fat.SetFileName | kernel/fat.hpp:164-169 | the entry's name becomes the upper-cased, space-padded base and extension of the dotted name |
| Fat.Pack83 | kernel/fat.hpp:123-133 | the 8.3 packing that `NameIsEqual` compares against always has 11 bytes |
| Fat.NameIsEqual | kernel/fat.hpp:123-133 | true exactly when the entry's 11 bytes equal the upper-cased 8.3 packing of the name |
| Fat.NameIsEqualIgnoresCase | kernel/fat.hpp:123-133 | names that differ only in letter case compare the same |
| Fat.PackUpper | kernel/fat.hpp:123-133 | packing a name and packing its upper-cased form agree |
| Fat.SetFileNameThenNameIsEqual | kernel/fat.hpp:164-169 | an entry named by `SetFileName` with an 8.3 name is found by `NameIsEqual` with that name |
| Fat.SetFileNameThenFormatName | kernel/fat.hpp:164-169 | for an upper-case 8.3 name, SetFileName then FormatName gives back the dotted name |
| Fat.FieldRoundTrip | kernel/fat.hpp:95-102 | a padded field reads back as the text that was padded |
| Fat.EndOfClusterchainIsEnd | kernel/fat.hpp:112 | `kEndOfClusterchain` (0x0fffffff) is recognised as the end of a chain, and no ordinary cluster number is |
| Fat.IsEndOfClusterchain | kernel/fat.hpp:144 | an entry value of 0x0ffffff8 or more ends a chain; `EndOfClusterchainIsEnd` proves that `kEndOfClusterchain` is such a value and that no cluster number of the table is |
| Fat.NextCluster | kernel/fat.hpp:112-119 | the FAT entry of the cluster, or `kEndOfClusterchain` when that entry is an end marker |
| Fat.FreeIn | kernel/fat.hpp:178-183 | the free clusters of a range in ascending order |
| Fat.Chain | kernel/fat.hpp:114-119 | the k clusters reached from c by following the FAT, starting at c, each inside the table |
| Fat.Link | kernel/fat.hpp:148-154 | the table after linking, of the same size; its values are stated by `LinkValues` |
| Fat.LinkValues | kernel/fat.hpp:148-154 | linking free clusters after a chain's end points the end at the first, each at the next, and the last at the end marker, and changes no other entry |
| Fat.LinkFromEnd | kernel/fat.hpp:148-154 | after linking, the old end starts a chain through all the new clusters |
| Fat.LinkExtendsChain | kernel/fat.hpp:148-154 | linking after a chain's end extends that chain by exactly the new clusters |
| Fat.ChainMembers | kernel/fat.hpp:114-119 | every cluster of a chain is in use, only the last one holds an end marker |
| Fat.FindChainEnd | kernel/fat.hpp:150-152 | following `NextCluster` from a chain member stops at the chain's last cluster |
| Fat.AppendFree | kernel/fat.hpp:148-154 | links the first n free clusters after the chain's end, in ascending order, and returns the last cluster linked |
| Fat.TakeIfFree | kernel/fat.hpp:148-154 | one scan step takes the candidate exactly when it was free at the start |
| Fat.ExtendCluster | kernel/fat.hpp:148-154 | the table becomes the old one with the first n free clusters linked after the chain's end; the result is the new end |
| Fat.ExtendClusterAppends | kernel/fat.hpp:148-154 | the chain containing the cluster grows by exactly n formerly free clusters and ends at the returned cluster |
| Fat.FreeAfterFirst | kernel/fat.hpp:178-183 | once the first free cluster is marked as an end, the free list is the rest |
| Fat.AllocatedTable | kernel/fat.hpp:178-183 | the table after `AllocateClusterChain` has the old size |
| Fat.FirstFreeCluster | kernel/fat.hpp:178-183 | the scan returns the lowest free cluster |
| Fat.AllocateClusterChain | kernel/fat.hpp:178-183 | returns the lowest free cluster and leaves the table as `AllocatedTable` |
| Fat.AllocateClusterChainBuilds | kernel/fat.hpp:178-183 | the returned head starts a chain of exactly max(n, 1) formerly free clusters in ascending order, and no other entry changes |
| Pci.MatchBase | kernel/pci.hpp:23 | `Match(b)`: the base class is b; `MatchHierarchy` states it |
| Pci.MatchBaseSub | kernel/pci.hpp:25 | `Match(b, s)`: `Match(b)` and the subclass is s; `MatchHierarchy` proves it implies `Match(b)` |
| Pci.MatchAll | kernel/pci.hpp:27-29 | `Match(b, s, i)`: `Match(b, s)` and the interface is i; `MatchHierarchy` proves it holds exactly for the class code (b, s, i) |
| Pci.MatchHierarchy | kernel/pci.hpp:22-29 | `Match(b)` is `b == base`; `Match(b, s)` adds the subclass and implies `Match(b)`; `Match(b, s, i)` holds exactly for that class code |
| Pci.DecodeClassCode | kernel/pci.hpp:53-61 | base is bits 31:24, subclass bits 23:16, interface bits 15:8 of the register |
| Pci.ClassCodeRoundTrip | kernel/pci.hpp:53-61 | encoding a class code with any revision and then decoding it gives it back |
| Pci.CalcBarAddress | kernel/pci.hpp:98-100 | the offset is a dword offset within the 256-byte configuration space |
| Pci.BarAddresses | kernel/pci.hpp:98-100 | BAR i is at `0x10 + 4*i`, from 0x10 for BAR0 to 0x24 for BAR5 |
| Pci.DecodeCapabilityHeader | kernel/pci.hpp:105-112 | cap_id is bits 7:0, next_ptr bits 15:8, cap bits 31:16, and re-encoding gives the word back |
| Pci.CapabilityHeaderRoundTrip | kernel/pci.hpp:105-112 | encoding a header and then decoding it gives back the header |
| Pci.DecodeMsiHeader | kernel/pci.hpp:130-142 | the fields at bits 7:0, 15:8, 16, 19:17, 22:20, 23 and 24 re-encode to the word without its reserved bits |
| Pci.MsiHeaderRoundTrip | kernel/pci.hpp:130-142 | encoding an MSI header and then decoding it gives back the header |
| Pci.MsiHeaderRefinesCapabilityHeader | kernel/pci.hpp:130-142 | the MSI header and the generic header agree on cap_id and next_ptr, and each of the five MSI flags (enable, multi-message capable and enable, 64-bit address capable, per-vector mask capable) is its bit range of the generic cap field |
| Pci.SingleFunctionIffBit7Clear | kernel/pci.hpp:84-85 | single-function exactly when bit 7 of the header type is clear |
| Layers.IndexOf | kernel/layer.hpp:94-95 | the position of a layer in the stack, and -1 exactly when it is not there |
| Layers.InsertAt | kernel/layer.hpp:80-86 | inserting puts the layer at the given height and keeps the layers below and above in order |
| Layers.Remove | kernel/layer.hpp:87-88 | the display stack with the layer taken out, as `Hide` leaves it; `RemoveSpec` proves only that layer goes, and `RemoveInserted` that it undoes an insertion |
| Layers.RemoveSpec | kernel/layer.hpp:87-101 | removing a layer from a duplicate-free stack removes that layer only |
| Layers.RemoveInserted | kernel/layer.hpp:80-88 | a layer inserted at height h is found at h, and hiding it again restores the stack |
| Layers.InsertDistinct | kernel/layer.hpp:80-101 | inserting a layer that is not shown keeps the stack free of duplicates |
| Layers.InsertSpec | kernel/layer.hpp:80-101 | inserting a new layer keeps the stack duplicate-free, puts it at the given height, and removing it restores the stack |
| Layers.UpDownStack | kernel/layer.hpp:80-86 | the display stack after `UpDown`; `UpDownStackSpec` states it: a negative height hides, any other puts the layer at that height clamped to the front with the others in order |
| Layers.UpDownStackSpec | kernel/layer.hpp:80-88 | UpDown with a negative height is Hide; otherwise the layer is at the given height, clamped to the front, and the other layers keep their order |
| Layers.UpDownStackMembers | kernel/layer.hpp:80-86 | UpDown adds no layer other than the one moved |
| Layers.UpDownKeepsShown | kernel/layer.hpp:80-101 | UpDown shows only existing layers, each once |
| Layers.Without | kernel/layer.hpp:63-64 | the layers with the given ID removed and all others kept |
| Layers.WithoutIsRemove | kernel/layer.hpp:63-64 | on a duplicate-free list, filtering out an ID is removing its single occurrence |
| Layers.LayerManager.constructor | kernel/layer.hpp:100-102 | no layers, an empty stack and `latest_id_` 0 |
| Layers.LayerManager.FindLayer | kernel/layer.hpp:92-93 | finds a layer exactly when its ID exists, at its index among the layers |
| Layers.LayerManager.NewLayer | kernel/layer.hpp:58-66 | the new layer gets the next ID, which was unused, and FindLayer locates it and GetLatestID reports it; it is not shown |
| Layers.LayerManager.Hide | kernel/layer.hpp:87-88 | the layer leaves the stack and still exists |
| Layers.LayerManager.UpDown | kernel/layer.hpp:80-86 | the stack becomes `UpDownStack` of the old one; the layers are unchanged |
| Layers.LayerManager.GetHeight | kernel/layer.hpp:94-95 | the layer's position in the stack, or -1 when it is hidden |
| Layers.LayerManager.RemoveLayer | kernel/layer.hpp:63-64 | the layer is hidden and destroyed, and FindLayer no longer finds it |
| Layers.MakeLayerMessage | kernel/layer.hpp:127-138 | a layer message from a kernel task, with the layer ID, operation and the area's x, y, w and h |
| Font.CountUTF8Size | kernel/font.hpp:17 | 1 for 0xxxxxxx, 2 for 110xxxxx, 3 for 1110xxxx, 4 for 11110xxx and 0 otherwise, each exactly (RFC 3629 section 3) |
| Font.ConvertUTF8To32 | kernel/font.hpp:18 | the length it reports is `CountUTF8Size` of the lead byte, and an invalid lead decodes to 0 |
| Font.EncodeUTF8 | kernel/font.hpp:18 | the RFC 3629 encoding of a scalar value has 1-4 bytes, a lead byte announcing its length and continuation bytes 10xxxxxx |
| Font.DecodeEncode | kernel/font.hpp:18 | decoding the encoding of any Unicode scalar value gives back the value and the encoding's length |
| Font.AsciiDecodesToItself | kernel/font.hpp:18 | an ASCII byte decodes to itself with length 1 |
| Font.HankakuIffOneByte | kernel/font.hpp:19 | a code point is half-width exactly when its UTF-8 encoding is one byte |
| Rpn.DivRemIdentity | apps/rpn/rpn.cpp:49-58 | C++ `/` and `%`: `a == b*(a/b) + a%b`, with the remainder smaller than the divisor and of the dividend's sign |
| Rpn.TruncatesTowardZero | apps/rpn/rpn.cpp:49-58 | `-7 / 2` is -3 and `-7 % 2` is -1 in C++, unlike Euclidean division |
| Rpn.Apply | apps/rpn/rpn.cpp:34-58 | the value an operator pushes for `a op b`, with C++ truncating division and remainder, and `None` where C++ is undefined; `Step` and `DivRemIdentity` state it |
| Rpn.Step | apps/rpn/rpn.cpp:33-62 | a number pushes its value onto a stack below 100; an operator pops b, then a, and pushes `a op b` onto the rest |
| Rpn.Exec | apps/rpn/rpn.cpp:33-63 | the stack after the loop over all arguments, or `None` once a step is undefined; `ExecDepth`, `ExecFirst` and `ExampleRun` state what it computes |
| Rpn.ExecDepth | apps/rpn/rpn.cpp:33-63 | a run ends with the stack deeper by the number of numbers and shallower by the number of operators, never beyond 100 |
| Rpn.ExampleRun | apps/rpn/rpn.cpp:33-63 | "3 4 + 2 *" leaves 14 alone on the stack |
| Rpn.ExecFirst | apps/rpn/rpn.cpp:33 | the loop processes arguments left to right |
| Rpn.ToInt32 | apps/rpn/rpn.cpp:74 | the exit code is the result reduced to 32 bits, two's complement |
| Rpn.ExitCodeOfSmall | apps/rpn/rpn.cpp:74 | a result that fits an `int` is the exit code unchanged |
| Rpn.SkipSpaces | apps/rpn/rpn.cpp:60 | `atol` skips leading white space |
| Rpn.LeadingDigits | apps/rpn/rpn.cpp:60 | `atol` reads the longest run of decimal digits |
| Rpn.ShowNat | apps/rpn/rpn.cpp:73 | `%ld` prints decimal digits |
| Rpn.ShowNatValue | apps/rpn/rpn.cpp:73 | the printed digits have the value printed |
| Rpn.Atol | apps/rpn/rpn.cpp:60 | `atol` as `strtol(s, NULL, 10)`; `SkipSpaces`, `LeadingDigits` and `AtolShow` state it skips white space, reads the longest digit run and reads back what `%ld` prints |
| Rpn.AtolShow | apps/rpn/rpn.cpp:60-73 | `atol` reads back every value `%ld` prints |
| Rpn.Classify | apps/rpn/rpn.cpp:34-61 | the five operator strings are operators; any other argument is a number with its `atol` value |
| Rpn.Tokens | apps/rpn/rpn.cpp:33 | every argument is classified in order |
| Rpn.Machine.constructor | apps/rpn/rpn.cpp:16-31 | a 100-slot stack that is empty once `main` sets `stack_ptr` to -1 |
| Rpn.Machine.Contents | apps/rpn/rpn.cpp:16-17 | the stack holds `stack_ptr + 1` values |
| Rpn.Machine.Pop | apps/rpn/rpn.cpp:19-23 | returns the top value and removes it |
| Rpn.Machine.Push | apps/rpn/rpn.cpp:25-28 | places the value on top, over the old contents |
| Rpn.Machine.Execute | apps/rpn/rpn.cpp:34-62 | one argument changes the stack as `Step` says |
| Rpn.Machine.Run | apps/rpn/rpn.cpp:30-75 | `main` prints and exits with the top of the final stack, or 0 when it is empty, as `Outcome` defines |

## Left out

- kernel/fat.cpp, kernel/layer.cpp, kernel/memory_manager.cpp, kernel/usb/memory.cpp, kernel/usb/device.cpp, kernel/usb/xhci/ring.cpp and kernel/font.cpp are not part of this model. Their behaviour is reconstructed from the declarations, the doc comments and the standards named above.
- PCI port I/O and MMIO (`WriteAddress`, `WriteData`, `ReadData`, `ReadConfReg`, `WriteConfReg`, `ScanAllBus`, `ReadBar`, `ConfigureMSI*`): hardware access. Only the field decoding is modelled.
- `EventRing::ReadDequeuePointer` and `WriteDequeuePointer`: they go through the interrupter's ERDP register, which is modelled as the plain index field `dequeueIndex`.
- The interrupt-driven producer/consumer arrangement between controller and driver: concurrency. A controller write is the explicit function `ControllerWrite`.
- TRB type semantics (trb.hpp is not part of this model): a TRB is an opaque four-word payload with the cycle bit at bit 0 of word 3.
- Doorbells and class-driver virtual dispatch: hardware and foreign calls. `Device` records each issued transfer in `transfers`, and a notified driver is a returned value.
- `Device::InterruptIn` and `InterruptOut` (device.hpp:24-25): they only hand a transfer to the controller.
- `OnDeviceDescriptorReceived`, `OnConfigurationDescriptorreceived` and `OnSetConfigurationCompleted` (device.hpp:58-60): their work is folded into `InitializePhase1` to `InitializePhase3`.
- fat.hpp's raw-image access (`Initialize`, `GetClusterAddr`, `GetSectorByCluster`, `GetFAT`) and the operations built on it (`FindFile`, `LoadFile`, `AllocateEntry`, `CreateFile`, `fat::FileDescriptor`): pointer casts into a disk image. The FAT is modelled as an array of 32-bit entries, and `NameIsEqual` is the comparison `FindFile` uses.
- `InitializeMemoryManager`: it walks the UEFI memory map, an external input.
- Layer drawing (`Draw`, `DrawTo`, `SetWriter`, `Move`, `MoveRelative`, `FindLayerByPosition`), `ActiveLayer`, `CloseLayer` and `ProcessLayerMessage`: UI.
- Font rendering and `NewFTFace`: pixel output and the FreeType library.
- `printf`, `exit` and the system-call layer of apps/rpn: I/O. `Machine.Run` returns the printed value and the exit code instead.
- Rpn.Step: returns `None` where C++ has undefined behaviour: signed overflow of `+`, `-` and `*`, division by zero, `LONG_MIN / -1`, and popping an empty or pushing onto a full stack. Such runs are not modelled.
- Rpn.Atol: `atol` is modelled as `strtol(s, NULL, 10)`, saturating at the `long` limits.
- Rpn.Machine.Pop: requires a nonempty stack, because the source reads `stack[-1]` otherwise.
- Rpn.Machine.Push: requires room on the stack, because the source writes `stack[100]` otherwise.
- Rpn.Machine.Run: requires a run that `Exec` defines, as above.
- UsbMemory.Ceil: rounds up arithmetically for any nonzero alignment. The mask form `(v + a - 1) & ~(a - 1)` agrees only for powers of two, which is what callers pass.
- UsbMemory.AllocAligned: alignment is proved when the boundary is 0 or when boundary and alignment divide one another, as powers of two always do. Otherwise moving to the next boundary could break the alignment.
- UsbMemory.MemoryPool.AllocMem: addresses are unbounded naturals, so 64-bit pointer overflow is not modelled.
- MemoryManager.BitmapMemoryManager.MarkAllocated: requires frames below `kFrameCount`, because the source would index past `alloc_map_` otherwise.
- MemoryManager.BitmapMemoryManager.Free: requires frames below `kFrameCount`, for the same reason.
- MemoryManager.BitmapMemoryManager.SetMemoryRange: requires an end of at most `kFrameCount`, for the same reason.
- MemoryManager.BitmapMemoryManager.Stat: counts used frames, as the field name `allocated_frames` says, although the doc comment at memory_manager.hpp:82 says "unused". The count runs over whole map lines, from `range_begin_ / 64` up to `range_end_ / 64`.
- Fat.ExtendCluster: requires at least n free clusters, because the scan would run past the end of the FAT otherwise.
- Fat.AllocateClusterChain: requires at least max(n, 1) free clusters, for the same reason. A request for 0 clusters still allocates one, because the first free cluster is always marked as a chain end.
- Fat.IsEndOfClusterchain: compares the whole 32-bit entry with 0x0ffffff8, as the header's `unsigned long` comparison does. The upper four reserved bits of a FAT32 entry are not masked.
- UsbDevice.Device.OnInterruptCompleted: requires an endpoint number below 16, because the source would index past `class_drivers_` otherwise.
- Layers.LayerManager.NewLayer: requires `latest_id_` below the largest `unsigned int`. The wrap of the counter, which would reuse IDs, is not modelled.
- Layers.LayerManager.UpDown: requires an existing layer ID. With an unknown ID the source would put a null layer into the stack.
- Font.ConvertUTF8To32: overlong and surrogate encodings are decoded by plain bit arithmetic and not rejected. Only the round trip from valid scalar values is proved.
- Font.ConvertUTF8To32: requires the buffer to hold the whole sequence its lead byte announces, because the source reads the continuation bytes without a length check; a truncated sequence at the end of a buffer is not modelled.
- UsbDevice.Device.StartInitialize: does not register a waiter for its GET_DESCRIPTOR(DEVICE) request. `GetDescriptor` (device.hpp:77-79) takes no issuer, and the completion of that request must find no entry so that it reaches `InitializePhase1`.
- UsbDevice.Device.constructor: `num_ep_configs_`, `num_configurations_` and `config_index_` have no initializer in device.hpp:55-65; the model starts them at 0 rather than leaving them indeterminate.
- XhciRing.EventRing.Initialize: a buffer of 65536 TRBs or more gets the size truncated to 16 bits in the table entry, and the ring then uses only that many slots; when the truncated size is 0 the ring is not usable, since the source's `Pop` would then run past the buffer.
