/** The USB device bookkeeping of kernel/usb/device.hpp: the waiter table
    that routes control-transfer completions back to the class driver that
    issued them, the enumeration phase counter (`InitializePhase1..4` up to
    `is_initialized_`), the 16 endpoint configurations and the 16
    class-driver slots indexed by endpoint number.
    Setup packets and descriptors follow USB 2.0, sections 9.3, 9.4.3,
    9.4.7 and 9.6. The transfers themselves are recorded, not performed. */
module UsbDevice {
  import opened Wrappers
  import opened UsbEndpoint

  /** The 8-byte setup packet of a control transfer (USB 2.0 section 9.3). */
  datatype SetupData = SetupData(requestType: bv8, request: bv8, value: bv16, index: bv16, length: bv16)

  /** Standard request codes (USB 2.0 table 9-4). */
  const GetDescriptorRequest: bv8 := 6
  const SetConfigurationRequest: bv8 := 9

  /** bmRequestType of a standard request to the device, by direction. */
  const DeviceToHostStandardDevice: bv8 := 0x80
  const HostToDeviceStandardDevice: bv8 := 0x00

  /** Descriptor types (USB 2.0 table 9-5). */
  const DeviceDescriptorType: bv8 := 1
  const ConfigurationDescriptorType: bv8 := 2
  const InterfaceDescriptorType: bv8 := 4
  const EndpointDescriptorType: bv8 := 5

  /** Fixed sizes of the descriptors read during enumeration (USB 2.0 tables 9-8, 9-10, 9-12, 9-13). */
  const DeviceDescriptorSize: nat := 18
  const ConfigurationDescriptorSize: nat := 9
  const InterfaceDescriptorSize: nat := 9
  const EndpointDescriptorSize: nat := 7

  /** Capacities: `event_waiters_`, `ep_configs_`, `class_drivers_` and `buf_`. */
  const WaiterCapacity: nat := 4
  const MaxEndpointConfigs: nat := 16
  const ClassDriverSlots: nat := 16
  const BufferSize: nat := 256

  /** The setup packet of GET_DESCRIPTOR (USB 2.0 section 9.4.3): the
      descriptor type in the high byte of wValue, its index in the low byte. */
  function GetDescriptorSetup(descType: bv8, descIndex: bv8, len: bv16): (s: SetupData)
    ensures s.request == GetDescriptorRequest && s.requestType == DeviceToHostStandardDevice
    ensures (s.value >> 8) as bv8 == descType && (s.value & 0xFF) as bv8 == descIndex
    ensures s.index == 0 && s.length == len
  {
    SetupData(DeviceToHostStandardDevice, GetDescriptorRequest, ((descType as bv16) << 8) | (descIndex as bv16), 0, len)
  }

  /** The setup packet of SET_CONFIGURATION (USB 2.0 section 9.4.7): the
      configuration value in the low byte of wValue, no data stage. */
  function SetConfigurationSetup(configValue: bv8): (s: SetupData)
    ensures s.request == SetConfigurationRequest && s.requestType == HostToDeviceStandardDevice
    ensures (s.value & 0xFF) as bv8 == configValue && s.value >> 8 == 0
    ensures s.index == 0 && s.length == 0
  {
    SetupData(HostToDeviceStandardDevice, SetConfigurationRequest, configValue as bv16, 0, 0)
  }

  /** An opaque handle to a class driver (`ClassDriver*`). */
  datatype ClassDriver = ClassDriver(handle: nat)

  datatype Error =
    | Success
    | WaiterTableFull
    | NoMatchingResponder
    | InvalidDescriptor
    | InvalidPhase

  /** A control transfer handed to the controller. */
  datatype Transfer = Transfer(epId: EndpointID, setup: SetupData, dirIn: bool)

  // ---------------------------------------------------------------- waiter table

  /** `event_waiters_`: setup packet to issuer, at most four entries. */
  type Waiters = map<SetupData, ClassDriver>

  /** `Put`: a key already present is re-pointed; a new key needs a free
      entry, and with all four taken the table is full and nothing changes. */
  function PutWaiter(w: Waiters, setup: SetupData, issuer: ClassDriver): (r: Result<Waiters, Error>)
    ensures r.Ok? ==> setup in r.value && r.value[setup] == issuer
    ensures r.Ok? ==> forall k :: k in w && k != setup ==> k in r.value && r.value[k] == w[k]
    ensures r.Ok? ==> forall k :: k in r.value ==> k in w || k == setup
    ensures r.Err? <==> setup !in w && |w| >= WaiterCapacity
    ensures r.Err? ==> r.error == WaiterTableFull
  {
    if setup in w || |w| < WaiterCapacity then Ok(w[setup := issuer]) else Err(WaiterTableFull)
  }

  /** Put never takes the table past its capacity. */
  lemma PutWaiterBounded(w: Waiters, setup: SetupData, issuer: ClassDriver)
    requires |w| <= WaiterCapacity
    ensures PutWaiter(w, setup, issuer).Ok? ==> |PutWaiter(w, setup, issuer).value| <= WaiterCapacity
  {
    if setup in w {
      assert w[setup := issuer].Keys == w.Keys;
    } else {
      assert w[setup := issuer].Keys == w.Keys + {setup};
    }
  }

  /** A fifth key is refused and the four registered issuers stay resolvable. */
  lemma FifthWaiterRefused(w: Waiters, setup: SetupData, issuer: ClassDriver)
    requires |w| == WaiterCapacity && setup !in w
    ensures PutWaiter(w, setup, issuer) == Err(WaiterTableFull)
  {
  }

  /** Removing an entry shrinks the table and forgets only that key. */
  lemma RemoveWaiter(w: Waiters, setup: SetupData)
    requires setup in w
    ensures |w - {setup}| == |w| - 1
    ensures setup !in w - {setup}
    ensures forall k :: k in w && k != setup ==> k in w - {setup} && (w - {setup})[k] == w[k]
  {
    assert w.Keys == (w - {setup}).Keys + {setup};
  }

  // ---------------------------------------------------------------- descriptors

  /** The endpoint number of an endpoint descriptor's bEndpointAddress (bits 3:0). */
  function EndpointSlot(address: bv8): (slot: nat)
    ensures slot < ClassDriverSlots
  {
    (address & 0x0F) as int
  }

  /** `EndpointConfig` of an endpoint descriptor (USB 2.0 table 9-13):
      number and direction from bEndpointAddress, the transfer type from
      bits 1:0 of bmAttributes, wMaxPacketSize and bInterval. */
  function MakeEndpointConfig(desc: seq<bv8>): (c: EndpointConfig)
    requires |desc| >= EndpointDescriptorSize
    ensures Number(c.epId) as int == EndpointSlot(desc[2])
    ensures IsIn(c.epId) <==> desc[2] & 0x80 != 0
    ensures TypeCode(c.epType) == (desc[3] & 0x03) as int
    ensures c.maxPacketSize == desc[4] as int + 256 * desc[5] as int && c.interval == desc[6] as int
  {
    var num := (desc[2] & 0x0F) as bv32;
    NumberAndDirectionRoundTrip(num, desc[2] & 0x80 != 0);
    EndpointConfig(
      MakeEndpointID(num, desc[2] & 0x80 != 0),
      TypeOfCode((desc[3] & 0x03) as int),
      desc[4] as int + 256 * desc[5] as int,
      desc[6] as int)
  }

  /** One endpoint collected from a configuration: its configuration, the
      `class_drivers_` slot of its number, and its interface's class driver. */
  datatype Entry = Entry(config: EndpointConfig, slot: nat, driver: ClassDriver)

  /** Every slot names an endpoint other than endpoint 0. */
  predicate SlotsInRange(acc: seq<Entry>)
  {
    forall i :: 0 <= i < |acc| ==> 0 < acc[i].slot < ClassDriverSlots
  }

  /** The outcome of reading one descriptor: the class driver in effect
      afterwards and the endpoint entry it yields, if any. */
  datatype Step = Step(driver: Option<ClassDriver>, entry: Option<Entry>)

  /** One descriptor of the walk at offset `p`: an interface descriptor
      selects the class driver for the endpoints after it; an endpoint
      descriptor after one yields an entry for that driver in the slot of its
      endpoint number. Endpoint zero has no descriptor (USB 2.0 section
      9.6.6), so a number-0 entry is skipped. */
  function DescriptorStep(data: seq<bv8>, p: nat, driver: Option<ClassDriver>): (st: Step)
    requires p + 2 <= |data|
    ensures st.entry.Some? ==> driver.Some? && st.entry.value.driver == driver.value && st.driver == driver
    ensures st.entry.Some? ==> 0 < st.entry.value.slot < ClassDriverSlots
    ensures st.entry.Some? ==> Number(st.entry.value.config.epId) as int == st.entry.value.slot
    ensures st.entry.Some? ==> data[p + 1] == EndpointDescriptorType
    ensures st.driver != driver ==> data[p + 1] == InterfaceDescriptorType
  {
    if data[p + 1] == InterfaceDescriptorType && p + InterfaceDescriptorSize <= |data| then
      Step(Some(ClassDriver(InterfaceHandle(data[p + 2], data[p + 5]))), None)
    else if data[p + 1] == EndpointDescriptorType && p + EndpointDescriptorSize <= |data|
      && driver.Some? && EndpointSlot(data[p + 2]) != 0 then
      Step(driver, Some(Entry(MakeEndpointConfig(data[p..p + EndpointDescriptorSize]), EndpointSlot(data[p + 2]), driver.value)))
    else
      Step(driver, None)
  }

  /** What the configuration parser collects from offset `p` on, in order; a
      descriptor whose bLength is below 2 ends the walk. */
  function ParseConfiguration(data: seq<bv8>, p: nat, driver: Option<ClassDriver>): (r: seq<Entry>)
    decreases |data| - p
  {
    if p + 2 > |data| || (data[p] as int) < 2 then []
    else
      var st := DescriptorStep(data, p, driver);
      (if st.entry.Some? then [st.entry.value] else []) + ParseConfiguration(data, p + data[p] as int, st.driver)
  }

  /** Every entry the parser collects names an endpoint slot other than 0. */
  lemma {:induction false} ParseSlotsInRange(data: seq<bv8>, p: nat, driver: Option<ClassDriver>)
    ensures SlotsInRange(ParseConfiguration(data, p, driver))
    decreases |data| - p
  {
    if p + 2 <= |data| && (data[p] as int) >= 2 {
      ParseSlotsInRange(data, p + data[p] as int, DescriptorStep(data, p, driver).driver);
    }
  }

  /** The class driver `NewClassDriver` picks for an interface is foreign; it
      is identified by the interface number and class. */
  function InterfaceHandle(interfaceNumber: bv8, interfaceClass: bv8): nat
  {
    interfaceNumber as int * 256 + interfaceClass as int
  }

  /** `class_drivers_` after assigning, in order, each collected endpoint's
      driver to its slot (an endpoint number has four bits, so every slot
      the parser yields is in range; `ParseSlotsInRange`). */
  function AssignDrivers(t: seq<Option<ClassDriver>>, acc: seq<Entry>): (r: seq<Option<ClassDriver>>)
    requires |t| == ClassDriverSlots
    ensures |r| == ClassDriverSlots
    decreases |acc|
  {
    if |acc| == 0 then t
    else
      var last := acc[|acc| - 1];
      var r := AssignDrivers(t, acc[..|acc| - 1]);
      if last.slot < ClassDriverSlots then r[last.slot := Some(last.driver)] else r
  }

  /** Slot 0 is never assigned: the default control pipe has no class driver. */
  lemma {:induction false} AssignDriversKeepsSlotZero(t: seq<Option<ClassDriver>>, acc: seq<Entry>)
    requires |t| == ClassDriverSlots && SlotsInRange(acc)
    ensures AssignDrivers(t, acc)[0] == t[0]
    decreases |acc|
  {
    if |acc| > 0 {
      AssignDriversKeepsSlotZero(t, acc[..|acc| - 1]);
    }
  }

  /** Every collected endpoint's slot names a driver afterwards, and a slot no
      entry names keeps its old driver. */
  lemma {:induction false} AssignDriversSlots(t: seq<Option<ClassDriver>>, acc: seq<Entry>)
    requires |t| == ClassDriverSlots && SlotsInRange(acc)
    ensures forall i :: 0 <= i < |acc| ==> AssignDrivers(t, acc)[acc[i].slot].Some?
    ensures forall k :: 0 <= k < ClassDriverSlots && (forall i :: 0 <= i < |acc| ==> acc[i].slot != k) ==>
      AssignDrivers(t, acc)[k] == t[k]
    decreases |acc|
  {
    if |acc| > 0 {
      var init := acc[..|acc| - 1];
      AssignDriversSlots(t, init);
      assert forall i :: 0 <= i < |init| ==> init[i] == acc[i];
    }
  }

  /** Assigning one more entry overwrites its slot and nothing else. */
  lemma AssignDriversSnoc(t: seq<Option<ClassDriver>>, acc: seq<Entry>, e: Entry)
    requires |t| == ClassDriverSlots && SlotsInRange(acc) && 0 < e.slot < ClassDriverSlots
    ensures SlotsInRange(acc + [e])
    ensures AssignDrivers(t, acc + [e]) == AssignDrivers(t, acc)[e.slot := Some(e.driver)]
  {
    assert (acc + [e])[..|acc|] == acc;
  }

  lemma ConfigsSnoc(acc: seq<Entry>, e: Entry)
    ensures Configs(acc + [e]) == Configs(acc) + [e.config]
  {
  }

  /** One step of the configuration walk. */
  lemma ParseConfigurationUnfold(data: seq<bv8>, p: nat, driver: Option<ClassDriver>, acc: seq<Entry>, st: Step, acc': seq<Entry>)
    requires p + 2 <= |data| && (data[p] as int) >= 2
    requires st == DescriptorStep(data, p, driver)
    requires acc' == if st.entry.Some? then acc + [st.entry.value] else acc
    ensures acc + ParseConfiguration(data, p, driver) == acc' + ParseConfiguration(data, p + data[p] as int, st.driver)
  {
    var rest := ParseConfiguration(data, p + data[p] as int, st.driver);
    if st.entry.Some? {
      assert ParseConfiguration(data, p, driver) == [st.entry.value] + rest;
      assert acc + ([st.entry.value] + rest) == (acc + [st.entry.value]) + rest;
    } else {
      assert ParseConfiguration(data, p, driver) == [] + rest == rest;
    }
  }

  /** The first at most 16 entries: `ep_configs_` keeps no more. */
  function Capped(all: seq<Entry>): (r: seq<Entry>)
    ensures |r| <= MaxEndpointConfigs && r <= all
    ensures |all| <= MaxEndpointConfigs ==> r == all
  {
    if |all| <= MaxEndpointConfigs then all else all[..MaxEndpointConfigs]
  }

  /** A walk stopped either at the end of the descriptors or with all 16
      configurations taken has collected the capped list. */
  lemma CappedWalk(all: seq<Entry>, acc: seq<Entry>, rest: seq<Entry>)
    requires all == acc + rest && |acc| <= MaxEndpointConfigs
    requires |acc| < MaxEndpointConfigs ==> rest == []
    ensures Capped(all) == acc
  {
    if |acc| == MaxEndpointConfigs {
      assert all[..MaxEndpointConfigs] == acc;
    }
  }

  function Configs(acc: seq<Entry>): (r: seq<EndpointConfig>)
    ensures |r| == |acc| && forall i :: 0 <= i < |acc| ==> r[i] == acc[i].config
  {
    seq(|acc|, i requires 0 <= i < |acc| => acc[i].config)
  }

  /** A device descriptor's bNumConfigurations (byte 17), when the buffer
      holds a whole device descriptor. */
  predicate IsDeviceDescriptor(data: seq<bv8>)
  {
    |data| >= DeviceDescriptorSize && data[1] == DeviceDescriptorType
  }

  predicate IsConfigurationDescriptor(data: seq<bv8>)
  {
    |data| >= ConfigurationDescriptorSize && data[1] == ConfigurationDescriptorType
  }

  // ---------------------------------------------------------------- the device

  /** The mutable state of a `Device` as one value, so that "nothing else
      changes" can be stated in one equation. */
  datatype DeviceState = DeviceState(
    numConfigurations: bv8, configIndex: bv8, isInitialized: bool, initializePhase: int,
    numEpConfigs: int, waiters: Waiters, transfers: seq<Transfer>, endpointsConfigured: nat,
    classDrivers: seq<Option<ClassDriver>>, epConfigs: seq<EndpointConfig>)

  /** `class Device`. The three fixed-size arrays are members that are never
      re-seated, so they are `const` references to arrays updated in place. */
  class Device {
    const classDrivers: array<Option<ClassDriver>>
    const buf: array<bv8>
    const epConfigs: array<EndpointConfig>
    var numConfigurations: bv8
    var configIndex: bv8
    var isInitialized: bool
    var initializePhase: int
    var numEpConfigs: int
    var waiters: Waiters
    /** The control transfers this device has handed to the controller. */
    var transfers: seq<Transfer>
    /** How many times `OnEndpointsConfigured` has run. */
    var endpointsConfigured: nat

    /** The capacities of the fixed arrays, the waiter bound, slot 0 unused,
        and `is_initialized_` only in phase 4. */
    ghost predicate Valid()
      reads this, classDrivers
    {
      classDrivers.Length == ClassDriverSlots && buf.Length == BufferSize && epConfigs.Length == MaxEndpointConfigs
      && 0 <= numEpConfigs <= MaxEndpointConfigs && |waiters| <= WaiterCapacity
      && classDrivers[0].None?
      && 0 <= initializePhase <= 4 && (isInitialized ==> initializePhase == 4)
    }

    ghost function Snapshot(): DeviceState
      reads this, classDrivers, epConfigs
    {
      DeviceState(numConfigurations, configIndex, isInitialized, initializePhase,
        numEpConfigs, waiters, transfers, endpointsConfigured, classDrivers[..], epConfigs[..])
    }

    /** A new device: phase 0, not initialized, no waiters, no endpoint
        configurations, every class-driver slot empty. `num_ep_configs_`,
        `num_configurations_` and `config_index_` have no initializer in the
        class; the model starts them at 0. */
    constructor ()
      ensures Valid() && fresh(classDrivers) && fresh(buf) && fresh(epConfigs)
      ensures initializePhase == 0 && !isInitialized
      ensures waiters == map[] && numEpConfigs == 0 && transfers == [] && endpointsConfigured == 0
      ensures forall i :: 0 <= i < ClassDriverSlots ==> classDrivers[i].None?
    {
      classDrivers := new Option<ClassDriver>[ClassDriverSlots](_ => None);
      buf := new bv8[BufferSize](_ => 0);
      epConfigs := new EndpointConfig[MaxEndpointConfigs](_ => EndpointConfig(DefaultEndpointID(), Control, 0, 0));
      numConfigurations := 0;
      configIndex := 0;
      isInitialized := false;
      initializePhase := 0;
      numEpConfigs := 0;
      waiters := map[];
      transfers := [];
      endpointsConfigured := 0;
    }

    /** `IsInitialized`: only a device that reached phase 4 is initialized. */
    function IsInitialized(): (r: bool)
      reads this, classDrivers
      requires Valid()
      ensures r ==> initializePhase == 4
    {
      isInitialized
    }

    /** `NumEndpointConfigs`: never above the capacity of `ep_configs_`. */
    function NumEndpointConfigs(): (n: int)
      reads this, classDrivers
      requires Valid()
      ensures 0 <= n <= MaxEndpointConfigs
    {
      numEpConfigs
    }

    /** `Buffer`: the 256-byte descriptor scratch buffer. */
    function Buffer(): (b: array<bv8>)
      reads this, classDrivers
      requires Valid()
      ensures b.Length == BufferSize
    {
      buf
    }

    /** The shared body of `ControlIn` and `ControlOut`: register the issuer,
        if any, under the setup packet, then hand the transfer to the
        controller. The bodies are not in the header; the full-table error
        (kWaiterTableFull, nothing registered and nothing sent) follows the
        four-entry bound of `event_waiters_`. */
    method IssueControl(epId: EndpointID, setup: SetupData, dirIn: bool, issuer: Option<ClassDriver>) returns (err: Error)
      requires Valid()
      modifies this`waiters, this`transfers
      ensures Valid() && (err == Success || err == WaiterTableFull)
      ensures issuer.None? ==> err == Success && waiters == old(waiters)
      ensures issuer.Some? ==> (err == WaiterTableFull <==> PutWaiter(old(waiters), setup, issuer.value).Err?)
      ensures issuer.Some? && err == Success ==> waiters == PutWaiter(old(waiters), setup, issuer.value).value
      ensures err == Success ==> transfers == old(transfers) + [Transfer(epId, setup, dirIn)]
      ensures err != Success ==> transfers == old(transfers) && waiters == old(waiters)
    {
      if issuer.Some? {
        var r := PutWaiter(waiters, setup, issuer.value);
        if r.Err? {
          return r.error;
        }
        PutWaiterBounded(waiters, setup, issuer.value);
        waiters := r.value;
      }
      transfers := transfers + [Transfer(epId, setup, dirIn)];
      err := Success;
    }

    /** `ControlIn`: an IN control transfer, the issuer registered first. */
    method ControlIn(epId: EndpointID, setup: SetupData, issuer: Option<ClassDriver>) returns (err: Error)
      requires Valid()
      modifies this`waiters, this`transfers
      ensures Valid() && (err == Success || err == WaiterTableFull)
      ensures issuer.None? ==> err == Success && waiters == old(waiters)
      ensures issuer.Some? ==> (err == WaiterTableFull <==> PutWaiter(old(waiters), setup, issuer.value).Err?)
      ensures issuer.Some? && err == Success ==> waiters == PutWaiter(old(waiters), setup, issuer.value).value
      ensures issuer.Some? && setup in old(waiters) ==> err == Success && setup in waiters && waiters[setup] == issuer.value
      ensures issuer.Some? && err == Success ==> setup in waiters && waiters[setup] == issuer.value
      ensures err == Success ==> transfers == old(transfers) + [Transfer(epId, setup, true)]
      ensures err != Success ==> err == WaiterTableFull && transfers == old(transfers) && waiters == old(waiters)
    {
      err := IssueControl(epId, setup, true, issuer);
    }

    /** `ControlOut`: an OUT control transfer, the issuer registered first. */
    method ControlOut(epId: EndpointID, setup: SetupData, issuer: Option<ClassDriver>) returns (err: Error)
      requires Valid()
      modifies this`waiters, this`transfers
      ensures Valid() && (err == Success || err == WaiterTableFull)
      ensures issuer.None? ==> err == Success && waiters == old(waiters)
      ensures issuer.Some? ==> (err == WaiterTableFull <==> PutWaiter(old(waiters), setup, issuer.value).Err?)
      ensures issuer.Some? && err == Success ==> waiters == PutWaiter(old(waiters), setup, issuer.value).value
      ensures issuer.Some? && setup in old(waiters) ==> err == Success && setup in waiters && waiters[setup] == issuer.value
      ensures issuer.Some? && err == Success ==> setup in waiters && waiters[setup] == issuer.value
      ensures err == Success ==> transfers == old(transfers) + [Transfer(epId, setup, false)]
      ensures err != Success ==> err == WaiterTableFull && transfers == old(transfers) && waiters == old(waiters)
    {
      err := IssueControl(epId, setup, false, issuer);
    }

    /** `StartInitialize`: back to phase 1, not initialized, and a request for
        the device descriptor on the default control pipe. */
    method StartInitialize() returns (err: Error)
      requires Valid()
      modifies this`isInitialized, this`initializePhase, this`waiters, this`transfers
      ensures Valid() && err == Success
      ensures initializePhase == 1 && !isInitialized && waiters == old(waiters)
      ensures transfers == old(transfers) + [Transfer(DefaultControlPipeID, GetDescriptorSetup(DeviceDescriptorType, 0, BufferSize as bv16), true)]
    {
      isInitialized := false;
      initializePhase := 1;
      err := GetDescriptor(this, DefaultControlPipeID, DeviceDescriptorType, 0, BufferSize as bv16);
    }

    /** `OnControlCompleted`: a completion whose setup packet has a waiter goes
        to that issuer, whose entry is removed; otherwise a completion on the
        default control pipe drives the enumeration phase (phases 1 and 2
        answer GET_DESCRIPTOR, phase 3 SET_CONFIGURATION); anything else has
        no responder. The body is not in the header; the removal of the
        waiter's entry and the dispatch on the phase and the request follow
        the comment on `event_waiters_` and the `InitializePhaseN` members. */
    method OnControlCompleted(epId: EndpointID, setup: SetupData, data: seq<bv8>) returns (err: Error, notified: Option<ClassDriver>)
      requires Valid()
      modifies this, classDrivers, epConfigs
      ensures Valid()
      // a waiter's completion: only its entry goes
      ensures setup in old(waiters) ==> Snapshot() == old(Snapshot()).(waiters := old(waiters) - {setup})
      // no responder: nothing changes
      ensures setup !in old(waiters) && epId != DefaultControlPipeID ==> Snapshot() == old(Snapshot())
      // phase 1, GET_DESCRIPTOR(DEVICE) answered
      ensures (setup !in old(waiters) && epId == DefaultControlPipeID
               && old(initializePhase) == 1 && setup.request == GetDescriptorRequest) ==>
        if IsDeviceDescriptor(data) then
          err == Success && initializePhase == 2 && numConfigurations == data[17] && configIndex == 0
          && transfers == old(transfers) + [Transfer(DefaultControlPipeID, GetDescriptorSetup(ConfigurationDescriptorType, 0, BufferSize as bv16), true)]
          && Snapshot() == old(Snapshot()).(initializePhase := 2, numConfigurations := data[17], configIndex := 0, transfers := transfers)
        else
          err == InvalidDescriptor && Snapshot() == old(Snapshot())
      // phase 2, GET_DESCRIPTOR(CONFIGURATION) answered
      ensures (setup !in old(waiters) && epId == DefaultControlPipeID
               && old(initializePhase) == 2 && setup.request == GetDescriptorRequest) ==>
        if IsConfigurationDescriptor(data) then
          err == Success && initializePhase == 3
          && epConfigs[..numEpConfigs] == Configs(Capped(ParseConfiguration(data, data[0] as int, None)))
          && classDrivers[..] == AssignDrivers(old(classDrivers[..]), Capped(ParseConfiguration(data, data[0] as int, None)))
          && transfers == old(transfers) + [Transfer(DefaultControlPipeID, SetConfigurationSetup(data[5]), false)]
          && Snapshot() == old(Snapshot()).(initializePhase := 3, numEpConfigs := numEpConfigs,
               classDrivers := classDrivers[..], epConfigs := epConfigs[..], transfers := transfers)
        else
          err == InvalidDescriptor && Snapshot() == old(Snapshot())
      // phase 3, SET_CONFIGURATION answered: enumeration completes
      ensures (setup !in old(waiters) && epId == DefaultControlPipeID
               && old(initializePhase) == 3 && setup.request == SetConfigurationRequest) ==>
        err == Success && initializePhase == 4 && isInitialized
        && endpointsConfigured == old(endpointsConfigured) + 1 && transfers == old(transfers)
        && Snapshot() == old(Snapshot()).(initializePhase := 4, isInitialized := true, endpointsConfigured := endpointsConfigured)
      // any other completion on the default pipe: kInvalidPhase, nothing changes
      ensures (setup !in old(waiters) && epId == DefaultControlPipeID
               && !((old(initializePhase) == 1 || old(initializePhase) == 2) && setup.request == GetDescriptorRequest)
               && !(old(initializePhase) == 3 && setup.request == SetConfigurationRequest)) ==>
        err == InvalidPhase && Snapshot() == old(Snapshot())
      ensures setup in old(waiters) ==>
        err == Success && notified == Some(old(waiters)[setup]) && waiters == old(waiters) - {setup}
      ensures setup in old(waiters) ==> initializePhase == old(initializePhase) && transfers == old(transfers)
      ensures setup !in old(waiters) ==> notified.None? && waiters == old(waiters)
      ensures setup !in old(waiters) && epId != DefaultControlPipeID ==> err == NoMatchingResponder
      ensures err != Success ==> initializePhase == old(initializePhase) && isInitialized == old(isInitialized)
      ensures initializePhase == old(initializePhase) || (1 <= old(initializePhase) <= 3 && initializePhase == old(initializePhase) + 1)
      ensures isInitialized ==> old(isInitialized) || old(initializePhase) == 3
    {
      notified := None;
      if setup in waiters {
        notified := Some(waiters[setup]);
        RemoveWaiter(waiters, setup);
        waiters := waiters - {setup};
        return Success, notified;
      }
      if epId != DefaultControlPipeID {
        return NoMatchingResponder, notified;
      }
      if initializePhase == 1 && setup.request == GetDescriptorRequest {
        err := InitializePhase1(data);
      } else if initializePhase == 2 && setup.request == GetDescriptorRequest {
        err := InitializePhase2(data);
      } else if initializePhase == 3 && setup.request == SetConfigurationRequest {
        err := InitializePhase3((setup.value & 0xFF) as bv8);
      } else {
        err := InvalidPhase;
      }
    }

    /** Phase 1: a device descriptor gives bNumConfigurations; ask for
        configuration descriptor 0 and move to phase 2. */
    method InitializePhase1(data: seq<bv8>) returns (err: Error)
      requires Valid() && initializePhase == 1
      modifies this`numConfigurations, this`configIndex, this`initializePhase, this`waiters, this`transfers
      ensures Valid() && waiters == old(waiters)
      ensures !IsDeviceDescriptor(data) ==> err == InvalidDescriptor && initializePhase == 1 && transfers == old(transfers)
      ensures !IsDeviceDescriptor(data) ==> numConfigurations == old(numConfigurations) && configIndex == old(configIndex)
      ensures IsDeviceDescriptor(data) ==> err == Success && initializePhase == 2
      ensures IsDeviceDescriptor(data) ==> numConfigurations == data[17] && configIndex == 0
      ensures IsDeviceDescriptor(data) ==>
        transfers == old(transfers) + [Transfer(DefaultControlPipeID, GetDescriptorSetup(ConfigurationDescriptorType, 0, BufferSize as bv16), true)]
    {
      if !IsDeviceDescriptor(data) {
        return InvalidDescriptor;
      }
      numConfigurations := data[17];
      configIndex := 0;
      initializePhase := 2;
      err := GetDescriptor(this, DefaultControlPipeID, ConfigurationDescriptorType, configIndex, BufferSize as bv16);
    }

    /** Phase 2: collect up to 16 endpoint configurations from the
        configuration descriptor and its trailing descriptors, assign their
        class drivers, send SET_CONFIGURATION and move to phase 3. */
    method InitializePhase2(data: seq<bv8>) returns (err: Error)
      requires Valid() && initializePhase == 2
      modifies this`numEpConfigs, this`initializePhase, this`waiters, this`transfers, classDrivers, epConfigs
      ensures Valid() && waiters == old(waiters)
      ensures !IsConfigurationDescriptor(data) ==> err == InvalidDescriptor && initializePhase == 2
      ensures !IsConfigurationDescriptor(data) ==> transfers == old(transfers) && numEpConfigs == old(numEpConfigs)
      ensures !IsConfigurationDescriptor(data) ==> classDrivers[..] == old(classDrivers[..]) && epConfigs[..] == old(epConfigs[..])
      ensures IsConfigurationDescriptor(data) ==> err == Success && initializePhase == 3
      ensures IsConfigurationDescriptor(data) ==>
        epConfigs[..numEpConfigs] == Configs(Capped(ParseConfiguration(data, data[0] as int, None)))
      ensures IsConfigurationDescriptor(data) ==>
        classDrivers[..] == AssignDrivers(old(classDrivers[..]), Capped(ParseConfiguration(data, data[0] as int, None)))
      ensures IsConfigurationDescriptor(data) ==>
        transfers == old(transfers) + [Transfer(DefaultControlPipeID, SetConfigurationSetup(data[5]), false)]
    {
      if !IsConfigurationDescriptor(data) {
        return InvalidDescriptor;
      }
      ReadEndpoints(data);
      initializePhase := 3;
      err := SetConfiguration(this, DefaultControlPipeID, data[5]);
    }

    /** One endpoint configuration recorded, with its driver in the slot of
        its endpoint number. */
    method RecordEndpoint(e: Entry)
      requires Valid() && numEpConfigs < MaxEndpointConfigs
      requires 0 < e.slot < ClassDriverSlots
      modifies this`numEpConfigs, classDrivers, epConfigs
      ensures Valid()
      ensures numEpConfigs == old(numEpConfigs) + 1
      ensures epConfigs[..numEpConfigs] == old(epConfigs[..numEpConfigs]) + [e.config]
      ensures classDrivers[..] == old(classDrivers[..])[e.slot := Some(e.driver)]
    {
      epConfigs[numEpConfigs] := e.config;
      classDrivers[e.slot] := Some(e.driver);
      numEpConfigs := numEpConfigs + 1;
    }

    /** One descriptor of the walk: an endpoint it yields is recorded. */
    method ReadDescriptor(data: seq<bv8>, p: nat, driver: Option<ClassDriver>, ghost table: seq<Option<ClassDriver>>, ghost acc: seq<Entry>)
      returns (next: nat, driver': Option<ClassDriver>, ghost acc': seq<Entry>)
      requires Valid() && |acc| == numEpConfigs < MaxEndpointConfigs && |table| == ClassDriverSlots
      requires p + 2 <= |data| && (data[p] as int) >= 2
      requires SlotsInRange(acc)
      requires epConfigs[..numEpConfigs] == Configs(acc)
      requires classDrivers[..] == AssignDrivers(table, acc)
      modifies this`numEpConfigs, classDrivers, epConfigs
      ensures Valid() && |acc'| == numEpConfigs && next == p + data[p] as int
      ensures var st := DescriptorStep(data, p, driver);
        driver' == st.driver && acc' == if st.entry.Some? then acc + [st.entry.value] else acc
      ensures SlotsInRange(acc')
      ensures epConfigs[..numEpConfigs] == Configs(acc')
      ensures classDrivers[..] == AssignDrivers(table, acc')
    {
      var st := DescriptorStep(data, p, driver);
      next := p + data[p] as int;
      driver' := st.driver;
      acc' := if st.entry.Some? then acc + [st.entry.value] else acc;
      if st.entry.Some? {
        var e := st.entry.value;
        AssignDriversSnoc(table, acc, e);
        ConfigsSnoc(acc, e);
        RecordEndpoint(e);
      }
    }

    /** The descriptor walk of phase 2. */
    method ReadEndpoints(data: seq<bv8>)
      requires Valid()
      modifies this`numEpConfigs, classDrivers, epConfigs
      ensures Valid()
      ensures |data| > 0 ==> epConfigs[..numEpConfigs] == Configs(Capped(ParseConfiguration(data, data[0] as int, None)))
      ensures |data| > 0 ==> classDrivers[..] == AssignDrivers(old(classDrivers[..]), Capped(ParseConfiguration(data, data[0] as int, None)))
    {
      numEpConfigs := 0;
      if |data| == 0 {
        return;
      }
      ghost var all := ParseConfiguration(data, data[0] as int, None);
      ghost var table := classDrivers[..];
      ghost var acc: seq<Entry> := [];
      var p: nat := data[0] as int;
      var driver: Option<ClassDriver> := None;
      while numEpConfigs < MaxEndpointConfigs && p + 2 <= |data| && (data[p] as int) >= 2
        invariant Valid() && |acc| == numEpConfigs && |table| == ClassDriverSlots
        invariant all == acc + ParseConfiguration(data, p, driver)
        invariant SlotsInRange(acc)
        invariant epConfigs[..numEpConfigs] == Configs(acc)
        invariant classDrivers[..] == AssignDrivers(table, acc)
        decreases |data| - p
      {
        var next, driver';
        ghost var acc';
        next, driver', acc' := ReadDescriptor(data, p, driver, table, acc);
        ParseConfigurationUnfold(data, p, driver, acc, DescriptorStep(data, p, driver), acc');
        acc, p, driver := acc', next, driver';
      }
      CappedWalk(all, acc, ParseConfiguration(data, p, driver));
    }

    /** Phase 3: the configuration is set; `OnEndpointsConfigured` runs and the
        device moves to phase 4, whose transition completes enumeration. */
    method InitializePhase3(configValue: bv8) returns (err: Error)
      requires Valid() && initializePhase == 3
      modifies this`initializePhase, this`isInitialized, this`endpointsConfigured
      ensures Valid() && err == Success
      ensures initializePhase == 4 && isInitialized
      ensures endpointsConfigured == old(endpointsConfigured) + 1
    {
      err := OnEndpointsConfigured();
      initializePhase := 4;
      err := InitializePhase4();
    }

    /** Phase 4: enumeration is complete. */
    method InitializePhase4() returns (err: Error)
      requires Valid() && initializePhase == 4
      modifies this`isInitialized
      ensures Valid() && err == Success && isInitialized
    {
      isInitialized := true;
      err := Success;
    }

    /** `OnEndpointsConfigured`: the class drivers' hooks are foreign; the model
        counts the call. */
    method OnEndpointsConfigured() returns (err: Error)
      requires Valid()
      modifies this`endpointsConfigured
      ensures Valid() && err == Success
      ensures endpointsConfigured == old(endpointsConfigured) + 1
    {
      endpointsConfigured := endpointsConfigured + 1;
      err := Success;
    }

    /** `OnInterruptCompleted`: routed to the class driver of the endpoint's
        number, if one was assigned. */
    method OnInterruptCompleted(epId: EndpointID) returns (err: Error, notified: Option<ClassDriver>)
      requires Valid() && Number(epId) as int < ClassDriverSlots
      ensures notified == classDrivers[Number(epId) as int]
      ensures err == Success <==> notified.Some?
      ensures err != Success ==> err == NoMatchingResponder
      ensures Number(epId) == 0 ==> notified.None?
    {
      notified := classDrivers[Number(epId) as int];
      err := if notified.Some? then Success else NoMatchingResponder;
    }
  }

  /** `GetDescriptor`: a GET_DESCRIPTOR control-in transfer with no issuer, so
      its completion reaches the device's own phase logic. */
  method GetDescriptor(dev: Device, epId: EndpointID, descType: bv8, descIndex: bv8, len: bv16) returns (err: Error)
    requires dev.Valid()
    modifies dev`waiters, dev`transfers
    ensures dev.Valid() && err == Success && dev.waiters == old(dev.waiters)
    ensures dev.transfers == old(dev.transfers) + [Transfer(epId, GetDescriptorSetup(descType, descIndex, len), true)]
  {
    err := dev.IssueControl(epId, GetDescriptorSetup(descType, descIndex, len), true, None);
  }

  /** `SetConfiguration`: a SET_CONFIGURATION control-out transfer with no issuer. */
  method SetConfiguration(dev: Device, epId: EndpointID, configValue: bv8) returns (err: Error)
    requires dev.Valid()
    modifies dev`waiters, dev`transfers
    ensures dev.Valid() && err == Success && dev.waiters == old(dev.waiters)
    ensures dev.transfers == old(dev.transfers) + [Transfer(epId, SetConfigurationSetup(configValue), false)]
  {
    err := dev.IssueControl(epId, SetConfigurationSetup(configValue), false, None);
  }
}
