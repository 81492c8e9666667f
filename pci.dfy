/** Field decoding of PCI configuration space (kernel/pci.hpp), following the
    PCI Local Bus Specification 3.0: the class-code register (section 6.2.1),
    the Base Address Registers (section 6.2.5.1), capability headers (section 6.7)
    and the MSI capability header (section 6.8.1). Port I/O is not modelled. */
module Pci {

  /** I/O port of CONFIG_ADDRESS. */
  const ConfigAddress: bv16 := 0x0cf8
  /** I/O port of CONFIG_DATA. */
  const ConfigData: bv16 := 0x0cfc

  /** Capability IDs of MSI and MSI-X. */
  const CapabilityMSI: bv8 := 0x05
  const CapabilityMSIX: bv8 := 0x11

  /** `struct ClassCode { uint8_t base, sub, interface; }`. */
  datatype ClassCode = ClassCode(base: bv8, sub: bv8, interface: bv8)

  /** `Match(b)`: the base class is b. */
  predicate MatchBase(cc: ClassCode, b: bv8)
  {
    b == cc.base
  }

  /** `Match(b, s)`: `Match(b) && s == sub`. */
  predicate MatchBaseSub(cc: ClassCode, b: bv8, s: bv8)
  {
    MatchBase(cc, b) && s == cc.sub
  }

  /** `Match(b, s, i)`: `Match(b, s) && i == interface`. */
  predicate MatchAll(cc: ClassCode, b: bv8, s: bv8, i: bv8)
  {
    MatchBaseSub(cc, b, s) && i == cc.interface
  }

  /** The three overloads form a chain of refinements, and the three-field
      match holds exactly for the class code (b, s, i) itself. */
  lemma MatchHierarchy(cc: ClassCode, b: bv8, s: bv8, i: bv8)
    ensures MatchAll(cc, b, s, i) ==> MatchBaseSub(cc, b, s)
    ensures MatchBaseSub(cc, b, s) ==> MatchBase(cc, b)
    ensures MatchAll(cc, b, s, i) <==> cc == ClassCode(b, s, i)
    ensures MatchBaseSub(cc, b, s) <==> cc.base == b && cc.sub == s
  {
  }

  /** The class-code register: bits 31:24 base, 23:16 sub-class, 15:8 interface, 7:0 revision. */
  function ClassCodeRegister(cc: ClassCode, revision: bv8): bv32
  {
    ((cc.base as bv32) << 24) | ((cc.sub as bv32) << 16) | ((cc.interface as bv32) << 8) | (revision as bv32)
  }

  /** `ReadClassCode`'s decoding of the register it reads. */
  function DecodeClassCode(reg: bv32): (cc: ClassCode)
    ensures ClassCodeRegister(cc, (reg & 0xff) as bv8) == reg
  {
    ClassCode((reg >> 24) as bv8, ((reg >> 16) & 0xff) as bv8, ((reg >> 8) & 0xff) as bv8)
  }

  lemma ClassCodeRoundTrip(cc: ClassCode, revision: bv8)
    ensures DecodeClassCode(ClassCodeRegister(cc, revision)) == cc
  {
  }

  /** `CalcBarAddress`: `0x10 + 4 * bar_index` in unsigned int arithmetic, returned as uint8_t. */
  function CalcBarAddress(barIndex: nat): (offset: nat)
    requires barIndex < 0x1_0000_0000
    ensures offset < 0x100 && offset % 4 == 0
  {
    ((0x10 + 4 * barIndex) % 0x1_0000_0000) % 0x100
  }

  /** The six BARs of a type-0 header are the consecutive dwords 0x10..0x24. */
  lemma BarAddresses(barIndex: nat)
    requires barIndex < 6
    ensures CalcBarAddress(barIndex) == 0x10 + 4 * barIndex
    ensures 0x10 <= CalcBarAddress(barIndex) <= 0x24
  {
  }

  /** `union CapabilityHeader`: cap_id bits 7:0, next_ptr bits 15:8, cap bits 31:16. */
  datatype CapabilityHeader = CapabilityHeader(capId: bv8, nextPtr: bv8, cap: bv16)

  function EncodeCapabilityHeader(h: CapabilityHeader): bv32
  {
    (h.capId as bv32) | ((h.nextPtr as bv32) << 8) | ((h.cap as bv32) << 16)
  }

  function DecodeCapabilityHeader(data: bv32): (h: CapabilityHeader)
    ensures EncodeCapabilityHeader(h) == data
  {
    CapabilityHeader((data & 0xff) as bv8, ((data >> 8) & 0xff) as bv8, (data >> 16) as bv16)
  }

  lemma CapabilityHeaderRoundTrip(h: CapabilityHeader)
    ensures DecodeCapabilityHeader(EncodeCapabilityHeader(h)) == h
  {
  }

  /** The header word of `MSICapability`: cap_id 7:0, next_ptr 15:8, msi_enable 16,
      multi_msg_capable 19:17, multi_msg_enable 22:20, addr_64_capable 23,
      per_vector_mask_capable 24, bits 31:25 reserved. */
  datatype MsiHeader = MsiHeader(
    capId: bv8,
    nextPtr: bv8,
    msiEnable: bv1,
    multiMsgCapable: bv3,
    multiMsgEnable: bv3,
    addr64Capable: bv1,
    perVectorMaskCapable: bv1)

  function EncodeMsiHeader(h: MsiHeader): bv32
  {
    (h.capId as bv32)
    | ((h.nextPtr as bv32) << 8)
    | ((h.msiEnable as bv32) << 16)
    | ((h.multiMsgCapable as bv32) << 17)
    | ((h.multiMsgEnable as bv32) << 20)
    | ((h.addr64Capable as bv32) << 23)
    | ((h.perVectorMaskCapable as bv32) << 24)
  }

  /** Reading the fields of the header word; the reserved bits 31:25 are dropped. */
  function DecodeMsiHeader(data: bv32): (h: MsiHeader)
    ensures EncodeMsiHeader(h) == data & 0x01ff_ffff
  {
    MsiHeader(
      (data & 0xff) as bv8,
      ((data >> 8) & 0xff) as bv8,
      ((data >> 16) & 1) as bv1,
      ((data >> 17) & 7) as bv3,
      ((data >> 20) & 7) as bv3,
      ((data >> 23) & 1) as bv1,
      ((data >> 24) & 1) as bv1)
  }

  lemma MsiHeaderRoundTrip(h: MsiHeader)
    ensures DecodeMsiHeader(EncodeMsiHeader(h)) == h
  {
  }

  /** The MSI header and the generic capability header are two views of one
      word: they agree on cap_id and next_ptr, and the MSI flags are the low
      nine bits of the generic `cap` field. */
  lemma MsiHeaderRefinesCapabilityHeader(data: bv32)
    ensures DecodeMsiHeader(data).capId == DecodeCapabilityHeader(data).capId
    ensures DecodeMsiHeader(data).nextPtr == DecodeCapabilityHeader(data).nextPtr
    ensures DecodeMsiHeader(data).msiEnable == (DecodeCapabilityHeader(data).cap & 1) as bv1
    ensures DecodeMsiHeader(data).multiMsgCapable == ((DecodeCapabilityHeader(data).cap >> 1) & 7) as bv3
    ensures DecodeMsiHeader(data).multiMsgEnable == ((DecodeCapabilityHeader(data).cap >> 4) & 7) as bv3
    ensures DecodeMsiHeader(data).addr64Capable == ((DecodeCapabilityHeader(data).cap >> 7) & 1) as bv1
    ensures DecodeMsiHeader(data).perVectorMaskCapable == ((DecodeCapabilityHeader(data).cap >> 8) & 1) as bv1
  {
  }

  /** `IsSingleFunctionDevice`: bit 7 of the header type is the multi-function flag
      (PCI Local Bus Specification 3.0, section 6.2.1). */
  predicate IsSingleFunctionDevice(headerType: bv8)
  {
    headerType & 0x80 == 0
  }

  /** A header type is single-function exactly when it is below 0x80, and the
      layout code in bits 6:0 does not affect the answer. */
  lemma SingleFunctionIffBit7Clear(headerType: bv8)
    ensures IsSingleFunctionDevice(headerType) <==> headerType < 0x80
    ensures IsSingleFunctionDevice(headerType) == IsSingleFunctionDevice(headerType & 0x80)
  {
  }
}
