/** USB endpoint identification (kernel/usb/endpoint.hpp).
    An EndpointID packs an endpoint number (0..15) and a direction into one
    address `num << 1 | dir_in`, which is the xHCI Device Context Index of the
    endpoint (xHCI specification, section 4.5.1); control endpoints are "in". */
module UsbEndpoint {

  /** Transfer types with their bmAttributes encodings (USB 2.0, section 9.6.6). */
  datatype EndpointType = Control | Isochronous | Bulk | Interrupt

  function TypeCode(t: EndpointType): (code: nat)
    ensures code < 4
  {
    match t
    case Control => 0
    case Isochronous => 1
    case Bulk => 2
    case Interrupt => 3
  }

  /** The inverse of TypeCode, on the two low bits of a bmAttributes field. */
  function TypeOfCode(code: nat): (t: EndpointType)
    requires code < 4
    ensures TypeCode(t) == code
  {
    if code == 0 then Control
    else if code == 1 then Isochronous
    else if code == 2 then Bulk
    else Interrupt
  }

  lemma TypeCodeRoundTrip(t: EndpointType)
    ensures TypeOfCode(TypeCode(t)) == t
  {
  }

  /** The C++ class holds a single `int addr_`; the model keeps its 32 bits. */
  datatype EndpointID = EndpointID(addr: bv32)

  /** Largest endpoint number for which `num << 1 | 1` still fits a positive C++ int. */
  const MaxShiftableNumber: bv32 := 0x3FFF_FFFF

  /** `constexpr EndpointID()`: address 0. */
  function DefaultEndpointID(): (e: EndpointID)
    ensures Number(e) == 0 && !IsIn(e)
  {
    EndpointID(0)
  }

  /** `EndpointID(int ep_num, bool dir_in) : addr_{ep_num << 1 | dir_in}`. */
  function MakeEndpointID(epNum: bv32, dirIn: bool): EndpointID
  {
    EndpointID((epNum << 1) | (if dirIn then 1 else 0))
  }

  /** `Address()`: the packed address. */
  function Address(e: EndpointID): bv32
  {
    e.addr
  }

  /** `Number()`: `addr_ >> 1` on a signed `int`, an arithmetic shift that
      keeps the sign bit. */
  function Number(e: EndpointID): bv32
  {
    (e.addr >> 1) | (e.addr & 0x8000_0000)
  }

  /** `IsIn()`: `addr_ & 1`. */
  predicate IsIn(e: EndpointID)
  {
    e.addr & 1 != 0
  }

  /** `kDefaultControlPipeID{0, true}`. */
  const DefaultControlPipeID: EndpointID := MakeEndpointID(0, true)

  /** The shift-and-or packing is the arithmetic Device Context Index 2*num + dir,
      and for a number below 2^30 it stays a non-negative C++ int. */
  lemma AddressIsDeviceContextIndex(epNum: bv32, dirIn: bool)
    requires epNum <= MaxShiftableNumber
    ensures Address(MakeEndpointID(epNum, dirIn)) == 2 * epNum + (if dirIn then 1 else 0)
    ensures Address(MakeEndpointID(epNum, dirIn)) < 0x8000_0000
  {
  }

  /** Number and IsIn recover the two fields the ID was composed from. */
  lemma NumberAndDirectionRoundTrip(epNum: bv32, dirIn: bool)
    requires epNum <= MaxShiftableNumber
    ensures Number(MakeEndpointID(epNum, dirIn)) == epNum
    ensures IsIn(MakeEndpointID(epNum, dirIn)) == dirIn
  {
  }

  /** Composing an ID from the Number and IsIn of any address gives the address back. */
  lemma AddressRoundTrip(e: EndpointID)
    ensures MakeEndpointID(Number(e), IsIn(e)) == e
  {
    var bit: bv32 := if IsIn(e) then 1 else 0;
    assert bit == e.addr & 1;
    LowBitRestores(e.addr);
  }

  /** Clearing and restoring the direction bit. */
  lemma LowBitRestores(a: bv32)
    ensures ((a >> 1) << 1) | (a & 1) == a
  {
  }

  /** For the sixteen endpoint numbers the address is one of the 32 Device Context Indices. */
  lemma AddressRange(epNum: bv32, dirIn: bool)
    requires epNum <= 15
    ensures Address(MakeEndpointID(epNum, dirIn)) <= 31
  {
  }

  /** Different (number, direction) pairs never share an address. */
  lemma MakeEndpointIDInjective(n1: bv32, d1: bool, n2: bv32, d2: bool)
    requires n1 <= MaxShiftableNumber && n2 <= MaxShiftableNumber
    requires MakeEndpointID(n1, d1) == MakeEndpointID(n2, d2)
    ensures n1 == n2 && d1 == d2
  {
    NumberAndDirectionRoundTrip(n1, d1);
    NumberAndDirectionRoundTrip(n2, d2);
  }

  /** The default control pipe is endpoint 0, direction in, Device Context Index 1. */
  lemma DefaultControlPipe()
    ensures Number(DefaultControlPipeID) == 0
    ensures IsIn(DefaultControlPipeID)
    ensures Address(DefaultControlPipeID) == 1
  {
  }

  /** Copy construction and assignment (`addr_ = rhs.addr_`) keep the address, so
      the copied ID answers Number and IsIn as the original does. */
  function CopyEndpointID(e: EndpointID): (c: EndpointID)
    ensures Address(c) == Address(e) && Number(c) == Number(e) && IsIn(c) == IsIn(e)
  {
    EndpointID(e.addr)
  }

  /** `EndpointConfig`: what the enumeration records per endpoint descriptor. */
  datatype EndpointConfig = EndpointConfig(
    epId: EndpointID,
    epType: EndpointType,
    maxPacketSize: int,
    interval: int)
}
