/** The connector's port table: one `MidiPort` per device address, holding
    whether the reconnect automation may close and reopen that device. The
    table is reconciled with the merged device list after every update,
    and the automation acts on the ports that are automatic but whose
    device is not connected.

    The platform calls the connector makes are recorded as `PlatformCall`
    values, so that a reconnect pass can be described as the sequence of
    calls it issues. */
module PortTable {
  import opened Text
  import opened DeviceData

  /** `MidiPort`: an address and its automatic-connection flag. */
  datatype MidiPort = MidiPort(macAddress: string, autoConnection: bool)

  /** `new MidiPort(address)`: the flag defaults to automatic. */
  function NewPort(macAddress: string): (p: MidiPort)
    ensures p.macAddress == macAddress && p.autoConnection
  {
    MidiPort(macAddress, true)
  }

  function Macs(devices: seq<DeviceRecord>): set<string>
  {
    set d | d in devices :: d.macAddress
  }

  function PortMacs(ports: seq<MidiPort>): set<string>
  {
    set p | p in ports :: p.macAddress
  }

  function Names(devices: seq<DeviceRecord>): set<string>
  {
    set d | d in devices :: d.deviceName
  }

  predicate Distinct(s: seq<string>)
  {
    forall i, j :: 0 <= i < j < |s| ==> s[i] != s[j]
  }

  /** No two ports share an address. */
  predicate UniqueAddresses(ports: seq<MidiPort>)
  {
    forall i, j :: 0 <= i < j < |ports| ==> ports[i].macAddress != ports[j].macAddress
  }

  // ---------------------------------------------------------------------
  // Reconciliation (UpdateMidiDeviceFromPort)
  // ---------------------------------------------------------------------

  /** The addresses of `devices` not in `seen`, each once, in order of first
      occurrence: the enumeration of the `HashSet` built from the list. */
  function DistinctMacsAfter(devices: seq<DeviceRecord>, seen: set<string>): (r: seq<string>)
    ensures Distinct(r)
    ensures forall a :: a in r <==> a in Macs(devices) && a !in seen
    decreases |devices|
  {
    if devices == [] then []
    else
      var a := devices[0].macAddress;
      assert Macs(devices) == {a} + Macs(devices[1..]);
      if a in seen then DistinctMacsAfter(devices[1..], seen)
      else
        var rest := DistinctMacsAfter(devices[1..], seen + {a});
        var r := [a] + rest;
        assert forall i :: 1 <= i < |r| ==> r[i] == rest[i - 1];
        r
  }

  function DistinctMacs(devices: seq<DeviceRecord>): seq<string>
  {
    DistinctMacsAfter(devices, {})
  }

  /** The ports whose address is still present, in table order. */
  function KeepPresent(ports: seq<MidiPort>, macs: set<string>): (r: seq<MidiPort>)
    ensures forall p :: p in r <==> p in ports && p.macAddress in macs
    ensures UniqueAddresses(ports) ==> UniqueAddresses(r)
  {
    if ports == [] then []
    else
      var rest := KeepPresent(ports[1..], macs);
      if ports[0].macAddress in macs then
        var r := [ports[0]] + rest;
        assert forall i :: 1 <= i < |r| ==> r[i] == rest[i - 1];
        HeadAddressUnique(ports);
        r
      else rest
  }

  /** In a table without duplicate addresses, no later port shares the
      first port's address. */
  lemma HeadAddressUnique(ports: seq<MidiPort>)
    requires ports != []
    ensures UniqueAddresses(ports) ==> forall q :: q in ports[1..] ==> q.macAddress != ports[0].macAddress
  {
    if UniqueAddresses(ports) {
      forall q | q in ports[1..] ensures q.macAddress != ports[0].macAddress {
        var j :| 0 <= j < |ports[1..]| && ports[1..][j] == q;
        assert q == ports[j + 1];
      }
    }
  }

  /** A new automatic port for every address that has none yet. */
  function NewPorts(addresses: seq<string>, ports: seq<MidiPort>): (r: seq<MidiPort>)
    ensures forall q :: q in r <==> q.autoConnection && q.macAddress in addresses && q.macAddress !in PortMacs(ports)
    ensures Distinct(addresses) ==> UniqueAddresses(r)
  {
    if addresses == [] then []
    else
      var rest := NewPorts(addresses[1..], ports);
      if addresses[0] !in PortMacs(ports) then
        var r := [NewPort(addresses[0])] + rest;
        assert forall i :: 1 <= i < |r| ==> r[i] == rest[i - 1];
        r
      else rest
  }

  /** `UpdateMidiDeviceFromPort`: keep the ports whose address is in the
      device list, then append an automatic port for each new address. */
  function Reconcile(devices: seq<DeviceRecord>, ports: seq<MidiPort>): (r: seq<MidiPort>)
    ensures forall q :: q in r ==> q.macAddress in Macs(devices)
    ensures forall p :: p in ports && p.macAddress in Macs(devices) ==> p in r
    ensures forall q :: q in r && q !in ports ==> q.autoConnection
  {
    KeepPresent(ports, Macs(devices)) + NewPorts(DistinctMacs(devices), ports)
  }

  /** The table has exactly one port for every address in the device list
      and no other port. */
  predicate Reconciled(devices: seq<DeviceRecord>, ports: seq<MidiPort>)
  {
    UniqueAddresses(ports) && PortMacs(ports) == Macs(devices)
  }

  /** Reconciling a table without duplicate addresses gives one port per
      listed address; a surviving port keeps its flag, a port for an
      address that had none is automatic, and no flag is invented for an
      address the table already knew. */
  lemma ReconcileProperties(devices: seq<DeviceRecord>, ports: seq<MidiPort>)
    requires UniqueAddresses(ports)
    ensures Reconciled(devices, Reconcile(devices, ports))
    ensures forall p :: p in ports && p.macAddress in Macs(devices) ==> p in Reconcile(devices, ports)
    ensures forall q :: q in Reconcile(devices, ports) && q.macAddress in PortMacs(ports) ==> q in ports
    ensures forall q :: q in Reconcile(devices, ports) && q.macAddress !in PortMacs(ports) ==> q.autoConnection
  {
    var kept := KeepPresent(ports, Macs(devices));
    var added := NewPorts(DistinctMacs(devices), ports);
    var r := kept + added;
    forall i, j | 0 <= i < j < |r| ensures r[i].macAddress != r[j].macAddress {
      if j < |kept| {
        assert r[i] == kept[i] && r[j] == kept[j];
      } else if i >= |kept| {
        assert r[i] == added[i - |kept|] && r[j] == added[j - |kept|];
      } else {
        assert r[i] in ports && r[j] in added;
      }
    }
    forall a | a in Macs(devices) ensures a in PortMacs(r) {
      if a in PortMacs(ports) {
        var p :| p in ports && p.macAddress == a;
        assert p in r;
      } else {
        assert NewPort(a) in r;
      }
    }
  }

  /** A reconciled table is left as it is. */
  lemma {:induction false} ReconcileFixpoint(devices: seq<DeviceRecord>, ports: seq<MidiPort>)
    requires Reconciled(devices, ports)
    ensures Reconcile(devices, ports) == ports
  {
    KeepAll(ports, Macs(devices));
    NoNewPorts(DistinctMacs(devices), ports);
  }

  lemma {:induction false} NoNewPorts(addresses: seq<string>, ports: seq<MidiPort>)
    requires forall a :: a in addresses ==> a in PortMacs(ports)
    ensures NewPorts(addresses, ports) == []
  {
    if addresses != [] {
      NoNewPorts(addresses[1..], ports);
    }
  }

  lemma {:induction false} KeepAll(ports: seq<MidiPort>, macs: set<string>)
    requires forall p :: p in ports ==> p.macAddress in macs
    ensures KeepPresent(ports, macs) == ports
  {
    if ports != [] {
      KeepAll(ports[1..], macs);
      assert [ports[0]] + ports[1..] == ports;
    }
  }

  /** Reconciling twice against the same list is reconciling once. */
  lemma ReconcileIdempotent(devices: seq<DeviceRecord>, ports: seq<MidiPort>)
    requires UniqueAddresses(ports)
    ensures Reconcile(devices, Reconcile(devices, ports)) == Reconcile(devices, ports)
  {
    ReconcileProperties(devices, ports);
    ReconcileFixpoint(devices, Reconcile(devices, ports));
  }

  // ---------------------------------------------------------------------
  // Setting a flag (SetMidiPortToAutoConnection)
  // ---------------------------------------------------------------------

  /** `FirstOrDefault(port => port.MacAddress == address)`: the index of the
      first port with the address, or nothing when no port has it. */
  function FirstIndex(ports: seq<MidiPort>, mac: string): (r: Option<nat>)
    ensures r.Some? ==> r.value < |ports| && ports[r.value].macAddress == mac
    ensures r.Some? ==> forall j :: 0 <= j < r.value ==> ports[j].macAddress != mac
    ensures r.None? <==> mac !in PortMacs(ports)
  {
    if ports == [] then None
    else if ports[0].macAddress == mac then Some(0)
    else
      assert PortMacs(ports) == {ports[0].macAddress} + PortMacs(ports[1..]);
      match FirstIndex(ports[1..], mac)
      case Some(k) => Some(k + 1)
      case None => None
  }

  /** `FirstOrDefault(...)?.SetAutoConnection(flag)` on the table: the port
      found takes the flag; with no port found nothing happens. */
  function SetFirstFlag(ports: seq<MidiPort>, mac: string, flag: bool): (r: seq<MidiPort>)
    ensures |r| == |ports|
    ensures mac !in PortMacs(ports) ==> r == ports
    ensures mac in PortMacs(ports) ==> MidiPort(mac, flag) in r
  {
    match FirstIndex(ports, mac)
    case Some(k) =>
      var r := ports[k := MidiPort(mac, flag)];
      assert r[k] in r;
      r
    case None => ports
  }

  /** The first port with the address takes the flag, every other port is
      left alone, and nothing changes when no port has the address. */
  lemma SetFirstFlagSpec(ports: seq<MidiPort>, mac: string, flag: bool)
    ensures var r := SetFirstFlag(ports, mac, flag);
            && |r| == |ports|
            && (forall i :: 0 <= i < |ports| ==> r[i].macAddress == ports[i].macAddress)
            && (forall i :: 0 <= i < |ports| && ports[i].macAddress != mac ==> r[i] == ports[i])
            && (forall i, j :: 0 <= j < i < |ports| && ports[j].macAddress == mac ==> r[i] == ports[i])
            && (forall i :: (0 <= i < |ports| && ports[i].macAddress == mac && forall j :: 0 <= j < i ==> ports[j].macAddress != mac)
                             ==> r[i] == MidiPort(mac, flag))
    ensures mac !in PortMacs(ports) ==> SetFirstFlag(ports, mac, flag) == ports
  {
  }

  /** In a table without duplicate addresses, setting the flag of an
      address changes exactly the port with that address. */
  lemma SetFlagAtIndex(ports: seq<MidiPort>, i: int, flag: bool)
    requires UniqueAddresses(ports) && 0 <= i < |ports|
    ensures SetFirstFlag(ports, ports[i].macAddress, flag) == ports[i := MidiPort(ports[i].macAddress, flag)]
  {
    var mac := ports[i].macAddress;
    SetFirstFlagSpec(ports, mac, flag);
    assert forall j :: 0 <= j < i ==> ports[j].macAddress != mac;
  }

  /** Setting a flag leaves the addresses, and so the reconciliation, as
      they were. */
  lemma SetFirstFlagKeepsAddresses(devices: seq<DeviceRecord>, ports: seq<MidiPort>, mac: string, flag: bool)
    ensures PortMacs(SetFirstFlag(ports, mac, flag)) == PortMacs(ports)
    ensures UniqueAddresses(SetFirstFlag(ports, mac, flag)) <==> UniqueAddresses(ports)
    ensures Reconciled(devices, ports) ==> Reconciled(devices, SetFirstFlag(ports, mac, flag))
  {
    var r := SetFirstFlag(ports, mac, flag);
    SetFirstFlagSpec(ports, mac, flag);
    forall a | a in PortMacs(ports) ensures a in PortMacs(r) {
      var k :| 0 <= k < |ports| && ports[k].macAddress == a;
      assert r[k] in r;
    }
    forall a | a in PortMacs(r) ensures a in PortMacs(ports) {
      var k :| 0 <= k < |r| && r[k].macAddress == a;
      assert ports[k] in ports;
    }
  }

  /** Switching an automatic port off and back on restores the table. */
  lemma FlagRoundTrip(ports: seq<MidiPort>, i: int)
    requires UniqueAddresses(ports) && 0 <= i < |ports| && ports[i].autoConnection
    ensures var mac := ports[i].macAddress;
            SetFirstFlag(SetFirstFlag(ports, mac, false), mac, true) == ports
  {
    var mac := ports[i].macAddress;
    SetFlagAtIndex(ports, i, false);
    var off := ports[i := MidiPort(mac, false)];
    forall k, l | 0 <= k < l < |off| ensures off[k].macAddress != off[l].macAddress {
      assert off[k].macAddress == ports[k].macAddress && off[l].macAddress == ports[l].macAddress;
    }
    SetFlagAtIndex(off, i, true);
    assert off[i := MidiPort(mac, true)] == ports;
  }

  // ---------------------------------------------------------------------
  // What the automation looks at
  // ---------------------------------------------------------------------

  /** Some entry of the device list with this address is connected. */
  predicate Connected(devices: seq<DeviceRecord>, mac: string)
  {
    exists k :: 0 <= k < |devices| && devices[k].macAddress == mac && devices[k].isConnected
  }

  /** A port the reconnect pass acts on: automatic, and its device is not
      connected. */
  predicate Actionable(devices: seq<DeviceRecord>, p: MidiPort)
  {
    p.autoConnection && !Connected(devices, p.macAddress)
  }

  predicate HasActionable(devices: seq<DeviceRecord>, ports: seq<MidiPort>)
  {
    exists i :: 0 <= i < |ports| && Actionable(devices, ports[i])
  }

  /** `MidiDeviceConnectionsOutOfSync`: some listed device is neither
      connected nor covered by a manual (non-automatic) port. */
  predicate OutOfSync(devices: seq<DeviceRecord>, ports: seq<MidiPort>)
    ensures (forall k :: 0 <= k < |devices| ==> devices[k].isConnected) ==> !OutOfSync(devices, ports)
    ensures (exists k :: 0 <= k < |devices| && !devices[k].isConnected && devices[k].macAddress !in PortMacs(ports))
            ==> OutOfSync(devices, ports)
  {
    !(forall k :: 0 <= k < |devices| ==>
        (exists j :: 0 <= j < |ports| && ports[j].macAddress == devices[k].macAddress && !ports[j].autoConnection)
        || devices[k].isConnected)
  }

  /** The guard of `OnDeviceStatusChange`: the list is empty, or out of sync. */
  predicate NeedsReconnect(devices: seq<DeviceRecord>, ports: seq<MidiPort>)
    ensures devices == [] ==> NeedsReconnect(devices, ports)
    ensures devices != [] && (forall k :: 0 <= k < |devices| ==> devices[k].isConnected) ==> !NeedsReconnect(devices, ports)
  {
    |devices| == 0 || OutOfSync(devices, ports)
  }

  /** Every address occurs in one entry of the list at most. */
  predicate UniqueMacs(devices: seq<DeviceRecord>)
  {
    forall i, j :: 0 <= i < j < |devices| ==> devices[i].macAddress != devices[j].macAddress
  }

  /** On a reconciled table, an actionable port makes the list out of sync,
      so the status check always hands it to the reconnect pass. The
      converse holds when no address is listed twice; with an address
      listed under two names, one connected, the list can be out of sync
      with nothing for the pass to do. */
  lemma ActionableMeansOutOfSync(devices: seq<DeviceRecord>, ports: seq<MidiPort>)
    requires Reconciled(devices, ports)
    ensures HasActionable(devices, ports) ==> OutOfSync(devices, ports) && NeedsReconnect(devices, ports)
    ensures UniqueMacs(devices) && OutOfSync(devices, ports) ==> HasActionable(devices, ports)
  {
    if HasActionable(devices, ports) {
      var i :| 0 <= i < |ports| && Actionable(devices, ports[i]);
      var a := ports[i].macAddress;
      assert ports[i] in ports;
      assert a in PortMacs(ports);
      var d :| d in devices && d.macAddress == a;
      var k :| 0 <= k < |devices| && devices[k] == d;
      assert !devices[k].isConnected;
      assert !exists j :: 0 <= j < |ports| && ports[j].macAddress == devices[k].macAddress && !ports[j].autoConnection;
    }
    if UniqueMacs(devices) && OutOfSync(devices, ports) {
      var k :| 0 <= k < |devices| &&
        !((exists j :: 0 <= j < |ports| && ports[j].macAddress == devices[k].macAddress && !ports[j].autoConnection)
          || devices[k].isConnected);
      var a := devices[k].macAddress;
      assert devices[k] in devices;
      assert a in Macs(devices);
      var p :| p in ports && p.macAddress == a;
      var i :| 0 <= i < |ports| && ports[i] == p;
      assert Actionable(devices, ports[i]);
    }
  }

  /** Two entries for one address, under two names: one connected, one
      not. The list is out of sync, yet no port is actionable. */
  lemma OutOfSyncWithoutActionable()
    ensures var devices := [DeviceRecord("AA:BB", "KEYS-1", true, Unknow, 0, 0),
                            DeviceRecord("AA:BB", "KEYS-2", false, Unknow, 0, 0)];
            var ports := [MidiPort("AA:BB", true)];
            Reconciled(devices, ports) && OutOfSync(devices, ports) && !HasActionable(devices, ports)
  {
    var devices := [DeviceRecord("AA:BB", "KEYS-1", true, Unknow, 0, 0),
                    DeviceRecord("AA:BB", "KEYS-2", false, Unknow, 0, 0)];
    var ports := [MidiPort("AA:BB", true)];
    assert devices[0] in devices;
    assert Connected(devices, "AA:BB");
    assert Macs(devices) == {"AA:BB"};
    assert !(ports[0].macAddress == devices[1].macAddress && !ports[0].autoConnection) && !devices[1].isConnected;
  }

  // ---------------------------------------------------------------------
  // Platform calls and the reconnect pass
  // ---------------------------------------------------------------------

  /** The calls the connector makes into the Bluetooth plugin (`Init`,
      `OpenDeviceToPort`, ...) and into the MIDI plugin (`Init`,
      `OpenMidiInputPort`, ...). */
  datatype PlatformCall =
    | InitBluetoothPlugin
    | InitMidiPlugin
    | OpenDeviceToPort(mac: string)
    | CloseDeviceFromPort(mac: string)
    | OpenMidiInputPort(name: string)
    | CloseMidiInputPort(name: string)
    | ConnectBluetooth(mac: string)
    | DisconnectBluetooth(mac: string)

  /** `GetDeviceBluetoothByMacAddress`: `List.Find`, the first entry with
      the address, or nothing. */
  function FindByAddress(devices: seq<DeviceRecord>, mac: string): (r: Option<DeviceRecord>)
    ensures r.Some? <==> mac in Macs(devices)
    ensures r.Some? ==> r.value in devices && r.value.macAddress == mac
    ensures r.Some? ==> exists k :: 0 <= k < |devices| && devices[k] == r.value
                                    && forall j :: 0 <= j < k ==> devices[j].macAddress != mac
  {
    if devices == [] then None
    else if devices[0].macAddress == mac then Some(devices[0])
    else
      var r := FindByAddress(devices[1..], mac);
      assert Macs(devices) == {devices[0].macAddress} + Macs(devices[1..]);
      if r.Some? then
        var k :| 0 <= k < |devices[1..]| && devices[1..][k] == r.value
                 && forall j :: 0 <= j < k ==> devices[1..][j].macAddress != mac;
        assert devices[k + 1] == r.value;
        assert forall j :: 0 <= j < k + 1 ==> devices[j].macAddress != mac by {
          forall j | 0 <= j < k + 1 ensures devices[j].macAddress != mac {
            if j > 0 { assert devices[j] == devices[1..][j - 1]; }
          }
        }
        r
      else r
  }

  /** The name the input port is opened or closed under for an address. */
  function InputName(devices: seq<DeviceRecord>, mac: string): string
  {
    match FindByAddress(devices, mac)
    case Some(d) => d.deviceName
    case None => ""
  }

  /** The name found for a listed address is the name of a listed device
      with that address. */
  lemma InputNameListed(devices: seq<DeviceRecord>, mac: string)
    requires mac in Macs(devices)
    ensures exists d :: d in devices && d.macAddress == mac && d.deviceName == InputName(devices, mac)
    ensures InputName(devices, mac) in Names(devices)
  {
    var d := FindByAddress(devices, mac).value;
    assert d in devices && d.macAddress == mac;
  }

  /** The calls the automation may make on its own: closing or opening a
      listed device that is not connected, and its input port by a listed
      name. */
  predicate AutomationCall(devices: seq<DeviceRecord>, c: PlatformCall)
  {
    match c
    case CloseDeviceFromPort(a) => a in Macs(devices) && !Connected(devices, a)
    case OpenDeviceToPort(a) => a in Macs(devices) && !Connected(devices, a)
    case CloseMidiInputPort(n) => n in Names(devices)
    case OpenMidiInputPort(n) => n in Names(devices)
    case _ => false
  }

  /** One reopen of an actionable port: close the device and its input
      port, then open both again. */
  function PortCycle(devices: seq<DeviceRecord>, p: MidiPort): seq<PlatformCall>
  {
    if Actionable(devices, p) then
      var name := InputName(devices, p.macAddress);
      [CloseDeviceFromPort(p.macAddress), CloseMidiInputPort(name),
       OpenDeviceToPort(p.macAddress), OpenMidiInputPort(name)]
    else []
  }

  /** The reconnect pass as intended: one reopen per actionable port, in
      table order, and nothing else. */
  function ReconnectPass(devices: seq<DeviceRecord>, ports: seq<MidiPort>): seq<PlatformCall>
  {
    if ports == [] then []
    else ReconnectPass(devices, ports[..|ports| - 1]) + PortCycle(devices, ports[|ports| - 1])
  }

  /** The addresses of the actionable ports, in table order. */
  function ActionableMacs(devices: seq<DeviceRecord>, ports: seq<MidiPort>): (r: seq<string>)
    ensures forall a :: a in r <==> exists i :: 0 <= i < |ports| && ports[i].macAddress == a && Actionable(devices, ports[i])
    ensures UniqueAddresses(ports) ==> Distinct(r)
  {
    if ports == [] then []
    else
      var init := ports[..|ports| - 1];
      var last := ports[|ports| - 1];
      var rest := ActionableMacs(devices, init);
      assert forall i :: 0 <= i < |init| ==> init[i] == ports[i];
      assert UniqueAddresses(ports) ==> UniqueAddresses(init) && last.macAddress !in rest;
      if Actionable(devices, last) then rest + [last.macAddress] else rest
  }

  /** The addresses of the `CloseDeviceFromPort` calls, in order. */
  function ClosedAddresses(calls: seq<PlatformCall>): seq<string>
  {
    if calls == [] then []
    else
      var last := calls[|calls| - 1];
      ClosedAddresses(calls[..|calls| - 1]) + (if last.CloseDeviceFromPort? then [last.mac] else [])
  }

  /** The addresses of the `OpenDeviceToPort` calls, in order. */
  function OpenedAddresses(calls: seq<PlatformCall>): seq<string>
  {
    if calls == [] then []
    else
      var last := calls[|calls| - 1];
      OpenedAddresses(calls[..|calls| - 1]) + (if last.OpenDeviceToPort? then [last.mac] else [])
  }

  lemma {:induction false} AddressesAppend(a: seq<PlatformCall>, b: seq<PlatformCall>)
    ensures ClosedAddresses(a + b) == ClosedAddresses(a) + ClosedAddresses(b)
    ensures OpenedAddresses(a + b) == OpenedAddresses(a) + OpenedAddresses(b)
    decreases |b|
  {
    if b == [] {
      assert a + b == a;
    } else {
      var b' := b[..|b| - 1];
      assert (a + b)[..|a + b| - 1] == a + b';
      AddressesAppend(a, b');
    }
  }

  lemma AddressesOfOne(c: PlatformCall)
    ensures ClosedAddresses([c]) == if c.CloseDeviceFromPort? then [c.mac] else []
    ensures OpenedAddresses([c]) == if c.OpenDeviceToPort? then [c.mac] else []
  {
    assert [c][..0] == [];
  }

  lemma FourCalls(mac: string, name: string)
    ensures var cycle := [CloseDeviceFromPort(mac), CloseMidiInputPort(name), OpenDeviceToPort(mac), OpenMidiInputPort(name)];
            ClosedAddresses(cycle) == [mac] && OpenedAddresses(cycle) == [mac]
  {
    var c0, c1, c2, c3 := CloseDeviceFromPort(mac), CloseMidiInputPort(name), OpenDeviceToPort(mac), OpenMidiInputPort(name);
    assert [c0][..0] == [];
    assert ClosedAddresses([c0]) == [mac] && OpenedAddresses([c0]) == [];
    assert [c0, c1][..1] == [c0];
    assert ClosedAddresses([c0, c1]) == [mac] && OpenedAddresses([c0, c1]) == [];
    assert [c0, c1, c2][..2] == [c0, c1];
    assert ClosedAddresses([c0, c1, c2]) == [mac] && OpenedAddresses([c0, c1, c2]) == [mac];
    assert [c0, c1, c2, c3][..3] == [c0, c1, c2];
  }

  /** One reopen closes and opens the port's address once each. */
  lemma CycleAddresses(devices: seq<DeviceRecord>, p: MidiPort)
    ensures ClosedAddresses(PortCycle(devices, p)) == if Actionable(devices, p) then [p.macAddress] else []
    ensures OpenedAddresses(PortCycle(devices, p)) == if Actionable(devices, p) then [p.macAddress] else []
  {
    FourCalls(p.macAddress, InputName(devices, p.macAddress));
  }

  /** The intended pass closes every actionable port exactly once and
      reopens it exactly once (the table has one port per address), and
      makes four calls per actionable port. */
  lemma {:induction false} ReconnectPassOnce(devices: seq<DeviceRecord>, ports: seq<MidiPort>)
    ensures ClosedAddresses(ReconnectPass(devices, ports)) == ActionableMacs(devices, ports)
    ensures OpenedAddresses(ReconnectPass(devices, ports)) == ActionableMacs(devices, ports)
    ensures |ReconnectPass(devices, ports)| == 4 * |ActionableMacs(devices, ports)|
  {
    if ports != [] {
      var init := ports[..|ports| - 1];
      var last := ports[|ports| - 1];
      ReconnectPassOnce(devices, init);
      AddressesAppend(ReconnectPass(devices, init), PortCycle(devices, last));
      CycleAddresses(devices, last);
    }
  }

  /** The pass touches only listed devices that are not connected, and
      their input ports by listed names. */
  lemma {:induction false} ReconnectPassSafe(devices: seq<DeviceRecord>, ports: seq<MidiPort>)
    requires PortMacs(ports) <= Macs(devices)
    ensures forall k :: 0 <= k < |ReconnectPass(devices, ports)| ==> AutomationCall(devices, ReconnectPass(devices, ports)[k])
  {
    if ports != [] {
      var init := ports[..|ports| - 1];
      var last := ports[|ports| - 1];
      assert PortMacs(init) <= PortMacs(ports) by {
        assert forall p :: p in init ==> p in ports;
      }
      assert last in ports;
      ReconnectPassSafe(devices, init);
      PortCycleSafe(devices, last);
      var a, b := ReconnectPass(devices, init), PortCycle(devices, last);
      assert ReconnectPass(devices, ports) == a + b;
      forall k | 0 <= k < |a + b| ensures AutomationCall(devices, (a + b)[k]) {
        if k < |a| { assert (a + b)[k] == a[k]; } else { assert (a + b)[k] == b[k - |a|]; }
      }
    }
  }

  /** Every call of one reopen is one the automation may make, when the
      port's address is listed. */
  lemma PortCycleSafe(devices: seq<DeviceRecord>, p: MidiPort)
    requires p.macAddress in Macs(devices)
    ensures forall k :: 0 <= k < |PortCycle(devices, p)| ==> AutomationCall(devices, PortCycle(devices, p)[k])
  {
    if Actionable(devices, p) {
      InputNameListed(devices, p.macAddress);
    }
  }

  /** The pass is empty exactly when no port is actionable. */
  lemma NothingToReconnect(devices: seq<DeviceRecord>, ports: seq<MidiPort>)
    ensures ReconnectPass(devices, ports) == [] <==> !HasActionable(devices, ports)
  {
    ReconnectPassOnce(devices, ports);
    if HasActionable(devices, ports) {
      var i :| 0 <= i < |ports| && Actionable(devices, ports[i]);
      assert ports[i].macAddress in ActionableMacs(devices, ports);
    }
  }

  /** The pass over a longer table extends the pass over its prefix. */
  lemma {:induction false} ReconnectPassAppend(devices: seq<DeviceRecord>, ports: seq<MidiPort>, i: int)
    requires 0 <= i < |ports|
    ensures ReconnectPass(devices, ports[..i + 1]) == ReconnectPass(devices, ports[..i]) + PortCycle(devices, ports[i])
  {
    assert ports[..i + 1][..i] == ports[..i];
  }
}
