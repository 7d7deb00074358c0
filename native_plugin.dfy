/** The Android `MidiBluetoothPlugin`: the native side of the plugin. It keeps
    four lists -- the addresses seen in the current scan, the Bluetooth
    devices found by scans, the MIDI devices opened over Bluetooth, and the
    open input ports -- and reports changes to the game through Unity
    messages. The Android objects are reduced to the values the plugin
    reads from them (addresses, names, ids, port numbers); a
    `NoteroBluetoothDevice` keeps its object identity as a handle, because
    a connection callback updates the very object it captured. Platform
    requests, Unity messages and listener calls are recorded, in order, as
    effects; completion callbacks are separate methods that may only run
    after their request. */
module NativePlugin {
  import opened Text
  import opened ScanManager
  import ConnectionAdapter

  // ---------------------------------------------------------------------
  // Values
  // ---------------------------------------------------------------------

  /** What a scan result offers: the device's name and address, either of
      which may be null. */
  datatype ScanResult = ScanResult(name: Option<string>, address: Option<string>)

  /** An element of `bluetoothDeviceList`: the address paired with a
      `NoteroBluetoothDevice`, whose identity is `handle`, whose name is the
      scanned device's name, and whose two flags are set in place. */
  datatype BtEntry = BtEntry(address: string, handle: nat, name: string, isActive: bool, isConnected: bool)

  /** The Bluetooth identity `PROPERTY_BLUETOOTH_DEVICE` of a MIDI device. */
  datatype BtIdentity = BtIdentity(address: string, name: string)

  /** A MIDI device as the plugin reads it: its id, its Bluetooth identity
      and `PROPERTY_NAME` (each possibly absent), and the port numbers of
      its output ports in port order. */
  datatype MidiDeviceModel = MidiDeviceModel(id: nat, bluetooth: Option<BtIdentity>, name: Option<string>, outputPorts: seq<nat>)

  /** An element of `midiDeviceList`: the Bluetooth address the device was
      opened for, and the opened device. */
  datatype OpenedDevice = OpenedDevice(key: string, device: MidiDeviceModel)

  /** A `NoteroMidiDevicePort`: the output port `portNumber` of device
      `deviceId`, with the plugin's receiver connected to it. */
  datatype DevicePort = DevicePort(deviceId: nat, portNumber: nat)

  /** The `MidiDeviceObject` entries of the JSON lists sent to the game. */
  datatype MidiDeviceObject = MidiDeviceObject(macAddress: string, deviceName: string, isConnected: bool)

  /** What the plugin does to the outside world. */
  datatype Effect =
    | UpdateDeviceStatus
    | TickMidiBluetoothDeviceResult
    | ScanMidiBluetoothDeviceCompleted
    | BluetoothResultStatusHandler(status: string)
    | OnBluetoothDeviceConnected(address: string, midiDeviceId: nat)
    | OnBluetoothDeviceDisconnected(address: string, midiDeviceId: nat)
    | ConnectedToPortHandler(idString: string)
    | DisconnectedFromPortHandler(idString: string)
    | ScanCompletedNotified(listener: nat)
    | OpenBluetoothDeviceRequested(handle: nat, address: string)
    | OpenDeviceRequested(deviceId: nat, portNumber: nat)
    | PortOpened(deviceId: nat)
    | PortClosed(deviceId: nat)
    | MidiDeviceClosed(deviceId: nat)

  // ---------------------------------------------------------------------
  // Kotlin library behaviour
  // ---------------------------------------------------------------------

  /** Kotlin `Char.isWhitespace()`: the Unicode space, line and paragraph
      separators, U+0009..U+000D and U+001C..U+001F. */
  predicate IsKotlinWhitespace(c: char)
  {
    || c == ' ' || ('\t' <= c <= '\r') || ('\U{001C}' <= c <= '\U{001F}') || c == '\U{00A0}'
    || c == '\U{1680}' || ('\U{2000}' <= c <= '\U{200A}') || c == '\U{2028}' || c == '\U{2029}'
    || c == '\U{202F}' || c == '\U{205F}' || c == '\U{3000}'
  }

  /** `isNullOrBlank()`. */
  predicate IsNullOrBlank(s: Option<string>)
    ensures s == Some("") ==> IsNullOrBlank(s)
    ensures s.Some? && |s.value| > 0 && !IsKotlinWhitespace(s.value[0]) ==> !IsNullOrBlank(s)
  {
    s.None? || forall i :: 0 <= i < |s.value| ==> IsKotlinWhitespace(s.value[i])
  }

  /** `String.toInt()` on ASCII text: an optional sign and one or more
      ASCII digits, in the 32-bit range, with no surrounding white space;
      any other ASCII text throws. Non-ASCII decimal digits, which
      `toInt` also accepts, are read here as non-digits. */
  function KotlinToInt(s: string): (r: Option<int>)
    ensures r.Some? ==> Int32Min <= r.value <= Int32Max
    ensures |s| > 0 && IsKotlinWhitespace(s[0]) ==> r.None?
  {
    if |s| == 0 then None
    else
      var negative := s[0] == '-';
      var digits := if s[0] == '-' || s[0] == '+' then s[1..] else s;
      if |digits| == 0 || !AllDigits(digits) then None
      else
        var magnitude: int := DigitsValue(digits);
        var v := if negative then -magnitude else magnitude;
        if Int32Min <= v <= Int32Max then Some(v) else None
  }

  /** Every id the plugin prints reads back as itself. */
  lemma KotlinToIntOfDecimal(n: nat)
    requires n <= Int32Max
    ensures KotlinToInt(NatToDecimal(n)) == Some(n)
  {
    var s := NatToDecimal(n);
    assert s[0] != '-' && s[0] != '+' by { assert IsDigit(s[0]); }
  }

  /** Two ids print alike only when they are equal, so comparing the
      printed ids (`getId() == idString`) compares the ids. */
  lemma DecimalInjective(a: nat, b: nat)
    ensures NatToDecimal(a) == NatToDecimal(b) <==> a == b
  {
  }

  /** `Boolean.toString()`. */
  function KotlinBoolString(b: bool): string
  {
    if b then "true" else "false"
  }

  /** The status the Android side reports is the one the game's
      `bool.Parse` reads back. */
  lemma StatusRoundTrip(b: bool)
    ensures ConnectionAdapter.ParseBool(KotlinBoolString(b)) == Some(b)
  {
    ConnectionAdapter.ParseBoolPadded([], KotlinBoolString(b), [], b);
    assert [] + KotlinBoolString(b) + [] == KotlinBoolString(b);
  }

  /** `List.find`: the index of the first element satisfying `p`. */
  function Find<T>(s: seq<T>, p: T -> bool): (r: Option<nat>)
    ensures r.Some? ==> r.value < |s| && p(s[r.value])
    ensures r.Some? ==> forall j :: 0 <= j < r.value ==> !p(s[j])
    ensures r.None? <==> forall j :: 0 <= j < |s| ==> !p(s[j])
  {
    if s == [] then None
    else if p(s[0]) then Some(0)
    else
      match Find(s[1..], p)
      case Some(k) => Some(k + 1)
      case None =>
        assert forall j :: 1 <= j < |s| ==> s[j] == s[1..][j - 1];
        None
  }

  function EntryAt(address: string): BtEntry -> bool { (e: BtEntry) => e.address == address }
  function OpenedFor(address: string): OpenedDevice -> bool { (o: OpenedDevice) => o.key == address }
  function PortWithId(idString: string): DevicePort -> bool { (p: DevicePort) => NatToDecimal(p.deviceId) == idString }
  function DeviceWithId(id: int): MidiDeviceModel -> bool { (d: MidiDeviceModel) => d.id == id }

  // ---------------------------------------------------------------------
  // Bookkeeping rules
  // ---------------------------------------------------------------------

  function BtAddresses(list: seq<BtEntry>): set<string> { set e | e in list :: e.address }

  predicate NoDuplicates<T(==)>(s: seq<T>)
  {
    forall i, j :: 0 <= i < j < |s| ==> s[i] != s[j]
  }

  predicate HandlesDistinct(list: seq<BtEntry>)
  {
    forall i, j :: 0 <= i < j < |list| ==> list[i].handle != list[j].handle
  }

  predicate PortIdsDistinct(ports: seq<DevicePort>)
  {
    forall i, j :: 0 <= i < j < |ports| ==> ports[i].deviceId != ports[j].deviceId
  }

  /** Whether the after-scan `removeIf` keeps an entry: it was seen in the
      scan, or it is connected. */
  predicate SurvivesScan(e: BtEntry, seen: seq<string>)
  {
    e.address in seen || e.isConnected
  }

  /** `bluetoothDeviceList.removeIf { address not seen && !isConnected }`. */
  function Prune(list: seq<BtEntry>, seen: seq<string>): (r: seq<BtEntry>)
    ensures forall e :: e in r <==> e in list && SurvivesScan(e, seen)
    ensures |r| <= |list|
  {
    if list == [] then []
    else
      var last := list[|list| - 1];
      assert list == list[..|list| - 1] + [last];
      Prune(list[..|list| - 1], seen) + (if SurvivesScan(last, seen) then [last] else [])
  }

  /** Pruning keeps the entries' identities distinct. */
  lemma {:induction false} PruneKeepsHandlesDistinct(list: seq<BtEntry>, seen: seq<string>)
    requires HandlesDistinct(list)
    ensures HandlesDistinct(Prune(list, seen))
  {
    if list != [] {
      var init := list[..|list| - 1];
      var last := list[|list| - 1];
      PruneKeepsHandlesDistinct(init, seen);
      var p := Prune(init, seen);
      var r := Prune(list, seen);
      if SurvivesScan(last, seen) {
        forall i, j | 0 <= i < j < |r| ensures r[i].handle != r[j].handle {
          if j == |r| - 1 {
            assert r[i] in p;
            var k :| 0 <= k < |init| && init[k] == r[i];
            assert list[k] == r[i] && list[|list| - 1] == last;
          } else {
            assert r[i] == p[i] && r[j] == p[j];
          }
        }
      }
    }
  }

  /** Every address seen in the current scan has an entry after the prune. */
  lemma PruneKeepsSeen(list: seq<BtEntry>, seen: seq<string>)
    requires forall a :: a in seen ==> a in BtAddresses(list)
    ensures forall a :: a in seen ==> a in BtAddresses(Prune(list, seen))
  {
    forall a | a in seen ensures a in BtAddresses(Prune(list, seen)) {
      var e :| e in list && e.address == a;
      assert e in Prune(list, seen);
    }
  }

  /** One `onScaneCompleted` call per listener, in registration order. */
  function Notifications(listeners: seq<nat>): (r: seq<Effect>)
    ensures |r| == |listeners|
    ensures forall i :: 0 <= i < |r| ==> r[i] == ScanCompletedNotified(listeners[i])
  {
    seq(|listeners|, i requires 0 <= i < |listeners| => ScanCompletedNotified(listeners[i]))
  }

  // ---------------------------------------------------------------------
  // The Bluetooth device listing
  // ---------------------------------------------------------------------

  function ListedAddresses(objs: seq<MidiDeviceObject>): set<string> { set o | o in objs :: o.macAddress }

  /** How an opened MIDI device is listed: under its Bluetooth identity when
      it has one, otherwise under its key and `PROPERTY_NAME` (or
      "Unknown"); always as connected. */
  function Reported(o: OpenedDevice): (r: MidiDeviceObject)
    ensures r.isConnected
    ensures o.device.bluetooth.None? ==> r.macAddress == o.key
  {
    match o.device.bluetooth
    case Some(bt) => MidiDeviceObject(bt.address, bt.name, true)
    case None =>
      MidiDeviceObject(o.key, match o.device.name case Some(n) => n case None => "Unknown", true)
  }

  /** The first part of `getBluetoothDeviceJsonString`: one entry per opened
      device whose key is not yet listed. */
  function MidiListing(midiDevices: seq<OpenedDevice>): (r: seq<MidiDeviceObject>)
    ensures forall x :: x in r ==> x.isConnected
    ensures forall x :: x in r ==> exists o :: o in midiDevices && x == Reported(o)
    ensures forall o :: o in midiDevices ==> o.key in ListedAddresses(r) || Reported(o) in r
  {
    if midiDevices == [] then []
    else
      var init := midiDevices[..|midiDevices| - 1];
      var o := midiDevices[|midiDevices| - 1];
      var acc := MidiListing(init);
      assert forall p :: p in midiDevices ==> p in init || p == o;
      if o.key in ListedAddresses(acc) then acc else acc + [Reported(o)]
  }

  /** The entry an active Bluetooth device contributes. */
  function BtObject(e: BtEntry): MidiDeviceObject
  {
    MidiDeviceObject(e.address, e.name, e.isConnected)
  }

  /** The second part: after `acc`, one entry per active Bluetooth device
      whose address is not yet listed, with its own connection flag. */
  function BluetoothListing(acc: seq<MidiDeviceObject>, devices: seq<BtEntry>): (r: seq<MidiDeviceObject>)
    ensures |acc| <= |r| && r[..|acc|] == acc
  {
    if devices == [] then acc
    else
      var init := devices[..|devices| - 1];
      var e := devices[|devices| - 1];
      var a := BluetoothListing(acc, init);
      if !e.isActive || e.address in ListedAddresses(a) then a
      else
        assert (a + [BtObject(e)])[..|acc|] == a[..|acc|];
        a + [BtObject(e)]
  }

  /** One more Bluetooth entry: appended when active and not yet listed. */
  lemma BluetoothListingStep(acc: seq<MidiDeviceObject>, devices: seq<BtEntry>, j: nat)
    requires j < |devices|
    ensures var before := BluetoothListing(acc, devices[..j]);
            var e := devices[j];
            BluetoothListing(acc, devices[..j + 1])
            == if e.isActive && e.address !in ListedAddresses(before) then before + [BtObject(e)] else before
  {
    assert devices[..j + 1][..j] == devices[..j];
  }

  /** Every entry the second part adds comes from an active Bluetooth
      device, under an address not listed before it. */
  lemma {:induction false} BluetoothListingAdditions(acc: seq<MidiDeviceObject>, devices: seq<BtEntry>)
    ensures forall i :: |acc| <= i < |BluetoothListing(acc, devices)| ==>
              (exists e :: e in devices && e.isActive && BluetoothListing(acc, devices)[i] == BtObject(e))
              && BluetoothListing(acc, devices)[i].macAddress !in ListedAddresses(BluetoothListing(acc, devices)[..i])
  {
    if devices != [] {
      var init := devices[..|devices| - 1];
      var e := devices[|devices| - 1];
      var a := BluetoothListing(acc, init);
      var r := BluetoothListing(acc, devices);
      BluetoothListingAdditions(acc, init);
      assert forall d :: d in init ==> d in devices;
      forall i | |acc| <= i < |r|
        ensures (exists d :: d in devices && d.isActive && r[i] == BtObject(d))
                && r[i].macAddress !in ListedAddresses(r[..i])
      {
        if i < |a| {
          assert r[..i] == a[..i] && r[i] == a[i];
        } else {
          assert r == a + [BtObject(e)] && r[..i] == a;
          assert e in devices;
        }
      }
    } else {
      assert BluetoothListing(acc, devices) == acc;
    }
  }

  /** Every active Bluetooth device's address ends up listed. */
  lemma {:induction false} BluetoothListingCovers(acc: seq<MidiDeviceObject>, devices: seq<BtEntry>)
    ensures forall e :: e in devices && e.isActive ==> e.address in ListedAddresses(BluetoothListing(acc, devices))
  {
    if devices != [] {
      var init := devices[..|devices| - 1];
      var e := devices[|devices| - 1];
      var a := BluetoothListing(acc, init);
      BluetoothListingCovers(acc, init);
      assert forall d :: d in devices ==> d in init || d == e;
      if e.isActive && e.address !in ListedAddresses(a) {
        assert ListedAddresses(a + [BtObject(e)]) == ListedAddresses(a) + {e.address};
      }
    }
  }

  /** `getBluetoothDeviceJsonString` as a list of objects. */
  function DeviceListing(midiDevices: seq<OpenedDevice>, devices: seq<BtEntry>): (r: seq<MidiDeviceObject>)
    ensures |MidiListing(midiDevices)| <= |r| && r[..|MidiListing(midiDevices)|] == MidiListing(midiDevices)
    ensures forall e :: e in devices && e.isActive ==> e.address in ListedAddresses(r)
  {
    BluetoothListingCovers(MidiListing(midiDevices), devices);
    BluetoothListing(MidiListing(midiDevices), devices)
  }

  /** Every opened device is represented in the full listing: by its own
      entry, or by an earlier entry under its key. */
  lemma DeviceListingCoversOpened(midiDevices: seq<OpenedDevice>, devices: seq<BtEntry>)
    ensures forall o :: o in midiDevices ==>
              o.key in ListedAddresses(DeviceListing(midiDevices, devices)) || Reported(o) in DeviceListing(midiDevices, devices)
  {
    var m := MidiListing(midiDevices);
    var listing := DeviceListing(midiDevices, devices);
    assert listing[..|m|] == m;
    forall o | o in midiDevices
      ensures o.key in ListedAddresses(listing) || Reported(o) in listing
    {
      if o.key in ListedAddresses(m) {
        var x :| x in m && x.macAddress == o.key;
        var k :| 0 <= k < |m| && m[k] == x;
        assert listing[k] == x;
      } else {
        assert Reported(o) in m;
        var k :| 0 <= k < |m| && m[k] == Reported(o);
        assert listing[k] == Reported(o);
      }
    }
  }

  predicate AddressesDistinct(objs: seq<MidiDeviceObject>)
  {
    forall i, j :: 0 <= i < j < |objs| ==> objs[i].macAddress != objs[j].macAddress
  }

  /** When each opened device reports its own key as its address, no
      address is listed twice: the first part skips keys already listed
      and the second skips addresses already listed. */
  lemma {:induction false} ListingHasNoRepeatedAddress(midiDevices: seq<OpenedDevice>, devices: seq<BtEntry>)
    requires forall o :: o in midiDevices ==> Reported(o).macAddress == o.key
    ensures AddressesDistinct(DeviceListing(midiDevices, devices))
  {
    MidiListingDistinct(midiDevices);
    BluetoothListingAdditions(MidiListing(midiDevices), devices);
    var m := MidiListing(midiDevices);
    var r := DeviceListing(midiDevices, devices);
    forall i, j | 0 <= i < j < |r| ensures r[i].macAddress != r[j].macAddress {
      assert r[..|m|] == m;
      if j < |m| {
        assert r[i] == r[..|m|][i] && r[j] == r[..|m|][j];
        assert m[i].macAddress != m[j].macAddress;
      } else {
        assert r[j].macAddress !in ListedAddresses(r[..j]);
        assert r[i] == r[..j][i] && r[..j][i] in r[..j];
        assert r[i].macAddress in ListedAddresses(r[..j]);
      }
    }
  }

  lemma {:induction false} MidiListingDistinct(midiDevices: seq<OpenedDevice>)
    requires forall o :: o in midiDevices ==> Reported(o).macAddress == o.key
    ensures AddressesDistinct(MidiListing(midiDevices))
  {
    if midiDevices != [] {
      var init := midiDevices[..|midiDevices| - 1];
      var o := midiDevices[|midiDevices| - 1];
      assert forall p :: p in init ==> p in midiDevices;
      MidiListingDistinct(init);
      var acc := MidiListing(init);
      if o.key !in ListedAddresses(acc) {
        var r := acc + [Reported(o)];
        assert r == MidiListing(midiDevices);
        assert o in midiDevices;
        forall i, j | 0 <= i < j < |r| ensures r[i].macAddress != r[j].macAddress {
          if j == |r| - 1 {
            assert r[i] == acc[i] && acc[i] in acc;
            assert r[i].macAddress in ListedAddresses(acc);
            assert r[j] == Reported(o);
          } else {
            assert r[i] == acc[i] && r[j] == acc[j];
          }
        }
      } else {
        var r := MidiListing(midiDevices);
        assert r == acc;
        forall i, j | 0 <= i < j < |r| ensures r[i].macAddress != r[j].macAddress {
          assert r[i] == acc[i] && r[j] == acc[j];
        }
      }
    }
  }

  // ---------------------------------------------------------------------
  // The plugin
  // ---------------------------------------------------------------------

  /** The identities of the plugin's two scan hooks. */
  const BeforeHook: ActionId := 0
  const AfterHook: ActionId := 1

  class MidiBluetoothPlugin {
    const scanManager: BluetoothScanManager
    var bluetoothScanning: seq<string>
    var bluetoothDeviceList: seq<BtEntry>
    var midiDeviceList: seq<OpenedDevice>
    var noteroMidiDevicePorts: seq<DevicePort>
    var onScanBluetoothListeners: seq<nat>
    /** The identity the next `NoteroBluetoothDevice` gets. */
    var nextHandle: nat
    var effects: seq<Effect>

    /** An address is scanned at most once per scan and always has a device
        entry; entries are distinct objects; no two open ports share a
        device id; the scan manager holds exactly the plugin's two hooks. */
    predicate Valid()
      reads this, scanManager
    {
      && NoDuplicates(bluetoothScanning)
      && (forall a :: a in bluetoothScanning ==> a in BtAddresses(bluetoothDeviceList))
      && HandlesDistinct(bluetoothDeviceList)
      && (forall e :: e in bluetoothDeviceList ==> e.handle < nextHandle)
      && PortIdsDistinct(noteroMidiDevicePorts)
      && scanManager.beforeScanActions == [BeforeHook]
      && scanManager.afterScanActions == [AfterHook]
    }

    /** The `init` block: the scan manager with the before and after hooks. */
    constructor()
      ensures Valid() && fresh(scanManager) && !scanManager.scanning
      ensures bluetoothScanning == [] && bluetoothDeviceList == [] && midiDeviceList == []
      ensures noteroMidiDevicePorts == [] && onScanBluetoothListeners == [] && effects == []
    {
      var m := new BluetoothScanManager();
      m.AddBeforeScanAction(BeforeHook);
      m.AddAfterScanAction(AfterHook);
      scanManager := m;
      bluetoothScanning := [];
      bluetoothDeviceList := [];
      midiDeviceList := [];
      noteroMidiDevicePorts := [];
      onScanBluetoothListeners := [];
      nextHandle := 0;
      effects := [];
    }

    /** The scan callback: results with a blank name or address, and
        addresses already seen in this scan, are ignored; otherwise the
        address is recorded, a new device entry appended, and the game
        told. */
    method OnScanResult(result: ScanResult)
      requires Valid()
      modifies this
      ensures Valid()
      ensures IsNullOrBlank(result.name) || IsNullOrBlank(result.address) || result.address.value in old(bluetoothScanning) ==>
                bluetoothScanning == old(bluetoothScanning) && bluetoothDeviceList == old(bluetoothDeviceList)
                && effects == old(effects)
      ensures !(IsNullOrBlank(result.name) || IsNullOrBlank(result.address) || result.address.value in old(bluetoothScanning)) ==>
                && bluetoothScanning == old(bluetoothScanning) + [result.address.value]
                && bluetoothDeviceList == old(bluetoothDeviceList) + [BtEntry(result.address.value, old(nextHandle), result.name.value, true, false)]
                && effects == old(effects) + [TickMidiBluetoothDeviceResult]
      ensures midiDeviceList == old(midiDeviceList) && noteroMidiDevicePorts == old(noteroMidiDevicePorts)
      ensures onScanBluetoothListeners == old(onScanBluetoothListeners)
    {
      if IsNullOrBlank(result.name) || IsNullOrBlank(result.address) {
        return;
      }
      var address := result.address.value;
      if address in bluetoothScanning {
        return;
      }
      var entry := BtEntry(address, nextHandle, result.name.value, true, false);
      BtAddressesAppend(bluetoothDeviceList, entry);
      bluetoothScanning := bluetoothScanning + [address];
      bluetoothDeviceList := bluetoothDeviceList + [entry];
      nextHandle := nextHandle + 1;
      effects := effects + [TickMidiBluetoothDeviceResult];
    }

    /** The before-scan hook: forget the addresses of the previous scan. */
    method BeforeScan()
      requires Valid()
      modifies this
      ensures Valid() && bluetoothScanning == []
      ensures bluetoothDeviceList == old(bluetoothDeviceList) && midiDeviceList == old(midiDeviceList)
      ensures noteroMidiDevicePorts == old(noteroMidiDevicePorts) && effects == old(effects)
      ensures onScanBluetoothListeners == old(onScanBluetoothListeners)
    {
      bluetoothScanning := [];
    }

    /** The after-scan hook: notify the listeners in order, drop the devices
        neither seen in this scan nor connected, and tell the game. */
    method AfterScan()
      requires Valid()
      modifies this
      ensures Valid()
      ensures bluetoothDeviceList == Prune(old(bluetoothDeviceList), old(bluetoothScanning))
      ensures effects == old(effects) + Notifications(onScanBluetoothListeners) + [ScanMidiBluetoothDeviceCompleted]
      ensures bluetoothScanning == old(bluetoothScanning) && midiDeviceList == old(midiDeviceList)
      ensures noteroMidiDevicePorts == old(noteroMidiDevicePorts)
      ensures onScanBluetoothListeners == old(onScanBluetoothListeners)
    {
      var i := 0;
      while i < |onScanBluetoothListeners|
        invariant 0 <= i <= |onScanBluetoothListeners|
        invariant effects == old(effects) + Notifications(onScanBluetoothListeners[..i])
        invariant bluetoothDeviceList == old(bluetoothDeviceList) && bluetoothScanning == old(bluetoothScanning)
        invariant midiDeviceList == old(midiDeviceList) && noteroMidiDevicePorts == old(noteroMidiDevicePorts)
        invariant nextHandle == old(nextHandle) && onScanBluetoothListeners == old(onScanBluetoothListeners)
      {
        assert Notifications(onScanBluetoothListeners[..i + 1])
            == Notifications(onScanBluetoothListeners[..i]) + [ScanCompletedNotified(onScanBluetoothListeners[i])];
        effects := effects + [ScanCompletedNotified(onScanBluetoothListeners[i])];
        i := i + 1;
      }
      assert onScanBluetoothListeners[..i] == onScanBluetoothListeners;
      PruneKeepsHandlesDistinct(bluetoothDeviceList, bluetoothScanning);
      PruneKeepsSeen(bluetoothDeviceList, bluetoothScanning);
      bluetoothDeviceList := Prune(bluetoothDeviceList, bluetoothScanning);
      effects := effects + [ScanMidiBluetoothDeviceCompleted];
    }

    /** Runs the plugin's hook that the scan manager reports having run. */
    method RunHooks(ran: seq<ActionId>)
      requires Valid()
      requires ran == [] || ran == [BeforeHook] || ran == [AfterHook]
      modifies this
      ensures Valid()
      ensures ran == [] ==>
                bluetoothScanning == old(bluetoothScanning) && bluetoothDeviceList == old(bluetoothDeviceList)
                && effects == old(effects)
      ensures ran == [BeforeHook] ==>
                bluetoothScanning == [] && bluetoothDeviceList == old(bluetoothDeviceList) && effects == old(effects)
      ensures ran == [AfterHook] ==>
                && bluetoothScanning == old(bluetoothScanning)
                && bluetoothDeviceList == Prune(old(bluetoothDeviceList), old(bluetoothScanning))
                && effects == old(effects) + Notifications(onScanBluetoothListeners) + [ScanMidiBluetoothDeviceCompleted]
      ensures midiDeviceList == old(midiDeviceList) && noteroMidiDevicePorts == old(noteroMidiDevicePorts)
      ensures onScanBluetoothListeners == old(onScanBluetoothListeners)
    {
      if ran == [BeforeHook] {
        BeforeScan();
      } else if ran == [AfterHook] {
        AfterScan();
      }
    }

    /** `scanMidiBluetooth`: a scan request to the manager, whose hooks are
        this plugin's. Starting a scan forgets the previous scan's
        addresses; stopping one prunes the device list. */
    method ScanMidiBluetooth(scannerPresent: bool)
      requires Valid()
      modifies this, scanManager
      ensures Valid()
      ensures scanManager.scanning == Next(old(scanManager.scanning), Scan(scannerPresent)).scanning
      ensures HookEffect(Next(old(scanManager.scanning), Scan(scannerPresent)).fired,
                         old(bluetoothScanning), old(bluetoothDeviceList), old(effects))
      ensures midiDeviceList == old(midiDeviceList) && noteroMidiDevicePorts == old(noteroMidiDevicePorts)
      ensures onScanBluetoothListeners == old(onScanBluetoothListeners)
    {
      var ran := scanManager.ScanBleDevices(scannerPresent);
      RunHooks(ran);
    }

    /** `stopScanMidiBluetooth`. */
    method StopScanMidiBluetooth(scannerPresent: bool)
      requires Valid()
      modifies this, scanManager
      ensures Valid()
      ensures scanManager.scanning == Next(old(scanManager.scanning), Stop(scannerPresent)).scanning
      ensures HookEffect(Next(old(scanManager.scanning), Stop(scannerPresent)).fired,
                         old(bluetoothScanning), old(bluetoothDeviceList), old(effects))
      ensures midiDeviceList == old(midiDeviceList) && noteroMidiDevicePorts == old(noteroMidiDevicePorts)
      ensures onScanBluetoothListeners == old(onScanBluetoothListeners)
    {
      var ran := scanManager.StopScanDevices(scannerPresent);
      RunHooks(ran);
    }

    /** The delayed stop posted by a scan start fires. */
    method ScanTimerFires()
      requires Valid() && scanManager.pendingTimers > 0
      modifies this, scanManager
      ensures Valid()
      ensures scanManager.scanning == Next(old(scanManager.scanning), Timer).scanning
      ensures HookEffect(Next(old(scanManager.scanning), Timer).fired,
                         old(bluetoothScanning), old(bluetoothDeviceList), old(effects))
      ensures midiDeviceList == old(midiDeviceList) && noteroMidiDevicePorts == old(noteroMidiDevicePorts)
      ensures onScanBluetoothListeners == old(onScanBluetoothListeners)
    {
      var ran := scanManager.TimerFires();
      RunHooks(ran);
    }

    /** What the plugin's hooks did, given the phase the manager fired and
        the plugin's lists before. */
    predicate HookEffect(fired: Phase, scanning0: seq<string>, devices0: seq<BtEntry>, effects0: seq<Effect>)
      reads this
    {
      match fired
      case NoHooks =>
        bluetoothScanning == scanning0 && bluetoothDeviceList == devices0 && effects == effects0
      case BeforeHooks =>
        bluetoothScanning == [] && bluetoothDeviceList == devices0 && effects == effects0
      case AfterHooks =>
        && bluetoothScanning == scanning0
        && bluetoothDeviceList == Prune(devices0, scanning0)
        && effects == effects0 + Notifications(onScanBluetoothListeners) + [ScanMidiBluetoothDeviceCompleted]
    }

    /** `setOnScanBluetoothListener`. */
    method SetOnScanBluetoothListener(listener: nat)
      requires Valid()
      modifies this
      ensures Valid() && onScanBluetoothListeners == old(onScanBluetoothListeners) + [listener]
      ensures bluetoothScanning == old(bluetoothScanning) && bluetoothDeviceList == old(bluetoothDeviceList)
      ensures midiDeviceList == old(midiDeviceList) && noteroMidiDevicePorts == old(noteroMidiDevicePorts)
      ensures effects == old(effects)
    {
      onScanBluetoothListeners := onScanBluetoothListeners + [listener];
    }

    /** `checkIsBluetoothEnabled`: the adapter state, as Kotlin prints it. */
    method CheckIsBluetoothEnabled(enabled: bool)
      requires Valid()
      modifies this
      ensures Valid() && effects == old(effects) + [BluetoothResultStatusHandler(KotlinBoolString(enabled))]
      ensures bluetoothScanning == old(bluetoothScanning) && bluetoothDeviceList == old(bluetoothDeviceList)
      ensures midiDeviceList == old(midiDeviceList) && noteroMidiDevicePorts == old(noteroMidiDevicePorts)
      ensures onScanBluetoothListeners == old(onScanBluetoothListeners)
    {
      effects := effects + [BluetoothResultStatusHandler(KotlinBoolString(enabled))];
    }

    /** `getBluetoothDeviceJsonString`: the opened MIDI devices first, each
        as connected, then the active Bluetooth devices not yet listed. */
    method GetBluetoothDeviceJsonString() returns (listing: seq<MidiDeviceObject>)
      ensures listing == DeviceListing(midiDeviceList, bluetoothDeviceList)
      ensures forall o :: o in midiDeviceList ==> o.key in ListedAddresses(listing) || Reported(o) in listing
      ensures forall e :: e in bluetoothDeviceList && e.isActive ==> e.address in ListedAddresses(listing)
    {
      listing := [];
      var i := 0;
      while i < |midiDeviceList|
        invariant 0 <= i <= |midiDeviceList|
        invariant listing == MidiListing(midiDeviceList[..i])
      {
        var o := midiDeviceList[i];
        assert midiDeviceList[..i + 1][..i] == midiDeviceList[..i];
        if o.key !in ListedAddresses(listing) {
          listing := listing + [Reported(o)];
        }
        i := i + 1;
      }
      assert midiDeviceList[..i] == midiDeviceList;
      ghost var midiPart := listing;
      var j := 0;
      while j < |bluetoothDeviceList|
        invariant 0 <= j <= |bluetoothDeviceList|
        invariant listing == BluetoothListing(midiPart, bluetoothDeviceList[..j])
      {
        var e := bluetoothDeviceList[j];
        BluetoothListingStep(midiPart, bluetoothDeviceList, j);
        if e.isActive && e.address !in ListedAddresses(listing) {
          listing := listing + [BtObject(e)];
        }
        j := j + 1;
      }
      assert bluetoothDeviceList[..j] == bluetoothDeviceList;
      BluetoothListingCovers(MidiListing(midiDeviceList), bluetoothDeviceList);
      DeviceListingCoversOpened(midiDeviceList, bluetoothDeviceList);
    }

    /** `connectBluetooth`: for a known address, ask the platform to open the
        first entry's device; an unknown address changes nothing. */
    method ConnectBluetooth(address: string)
      requires Valid()
      modifies this
      ensures Valid()
      ensures address !in BtAddresses(bluetoothDeviceList) ==> effects == old(effects)
      ensures address in BtAddresses(bluetoothDeviceList) ==>
                var k := Find(bluetoothDeviceList, EntryAt(address)).value;
                effects == old(effects) + [OpenBluetoothDeviceRequested(bluetoothDeviceList[k].handle, address)]
      ensures bluetoothScanning == old(bluetoothScanning) && bluetoothDeviceList == old(bluetoothDeviceList)
      ensures midiDeviceList == old(midiDeviceList) && noteroMidiDevicePorts == old(noteroMidiDevicePorts)
      ensures onScanBluetoothListeners == old(onScanBluetoothListeners)
    {
      FindAddress(bluetoothDeviceList, address);
      var found := Find(bluetoothDeviceList, EntryAt(address));
      if found.None? {
        return;
      }
      effects := effects + [OpenBluetoothDeviceRequested(bluetoothDeviceList[found.value].handle, address)];
    }

    /** The completion of `openBluetoothDevice`: the captured entry is
        marked connected (if it is still listed), the device is recorded
        under the address, and the game told. */
    method OnBluetoothDeviceOpened(handle: nat, address: string, device: MidiDeviceModel)
      requires Valid() && OpenBluetoothDeviceRequested(handle, address) in effects
      modifies this
      ensures Valid()
      ensures bluetoothDeviceList == SetConnected(old(bluetoothDeviceList), handle, true)
      ensures midiDeviceList == old(midiDeviceList) + [OpenedDevice(address, device)]
      ensures effects == old(effects) + [OnBluetoothDeviceConnected(address, device.id)]
      ensures bluetoothScanning == old(bluetoothScanning) && noteroMidiDevicePorts == old(noteroMidiDevicePorts)
      ensures onScanBluetoothListeners == old(onScanBluetoothListeners)
    {
      SetConnectedKeepsAddresses(bluetoothDeviceList, handle, true);
      bluetoothDeviceList := SetConnected(bluetoothDeviceList, handle, true);
      midiDeviceList := midiDeviceList + [OpenedDevice(address, device)];
      effects := effects + [OnBluetoothDeviceConnected(address, device.id)];
    }

    /** `disconnectBluetooth`: needs both a Bluetooth entry and an opened
        device for the address, else changes nothing. It closes the port of
        the first opened device, closes that device, and marks the first
        entry not connected; the opened device stays in `midiDeviceList`. */
    method DisconnectBluetooth(address: string)
      requires Valid()
      modifies this
      ensures Valid()
      ensures address !in BtAddresses(old(bluetoothDeviceList)) || Find(old(midiDeviceList), OpenedFor(address)).None? ==>
                bluetoothDeviceList == old(bluetoothDeviceList) && noteroMidiDevicePorts == old(noteroMidiDevicePorts)
                && effects == old(effects)
      ensures address in BtAddresses(old(bluetoothDeviceList)) && Find(old(midiDeviceList), OpenedFor(address)).Some? ==>
                var k := Find(old(bluetoothDeviceList), EntryAt(address)).value;
                var id := old(midiDeviceList)[Find(old(midiDeviceList), OpenedFor(address)).value].device.id;
                && bluetoothDeviceList == old(bluetoothDeviceList)[k := old(bluetoothDeviceList)[k].(isConnected := false)]
                && noteroMidiDevicePorts == WithoutPort(old(noteroMidiDevicePorts), NatToDecimal(id))
                && effects == old(effects) + ClosePortEffects(old(noteroMidiDevicePorts), NatToDecimal(id))
                                + [MidiDeviceClosed(id)] + [OnBluetoothDeviceDisconnected(address, id)]
      ensures bluetoothScanning == old(bluetoothScanning) && midiDeviceList == old(midiDeviceList)
      ensures onScanBluetoothListeners == old(onScanBluetoothListeners)
    {
      FindAddress(bluetoothDeviceList, address);
      var bt := Find(bluetoothDeviceList, EntryAt(address));
      var midi := Find(midiDeviceList, OpenedFor(address));
      if midi.None? || bt.None? {
        return;
      }
      var id := midiDeviceList[midi.value].device.id;
      CloseDeviceFromPort(NatToDecimal(id));
      effects := effects + [MidiDeviceClosed(id)];
      var k := bt.value;
      var updated := bluetoothDeviceList[k := bluetoothDeviceList[k].(isConnected := false)];
      SetFlagsKeepsValid(bluetoothDeviceList, k, bluetoothDeviceList[k].isActive, false, nextHandle, updated);
      bluetoothDeviceList := updated;
      effects := effects + [OnBluetoothDeviceDisconnected(address, id)];
    }

    /** `getMidiDeviceJsonString`: every device the platform reports, by
        printed id and `PROPERTY_NAME` (or "Unknown device"), connected
        exactly when an open port has its id. */
    method GetMidiDeviceJsonString(platform: seq<MidiDeviceModel>) returns (listing: seq<MidiDeviceObject>)
      ensures |listing| == |platform|
      ensures forall i :: 0 <= i < |platform| ==>
                && listing[i].macAddress == NatToDecimal(platform[i].id)
                && listing[i].deviceName == (match platform[i].name case Some(n) => n case None => "Unknown device")
                && (listing[i].isConnected <==> exists p :: p in noteroMidiDevicePorts && p.deviceId == platform[i].id)
    {
      listing := [];
      var i := 0;
      while i < |platform|
        invariant 0 <= i <= |platform| && |listing| == i
        invariant forall j :: 0 <= j < i ==>
                    && listing[j].macAddress == NatToDecimal(platform[j].id)
                    && listing[j].deviceName == (match platform[j].name case Some(n) => n case None => "Unknown device")
                    && (listing[j].isConnected <==> exists p :: p in noteroMidiDevicePorts && p.deviceId == platform[j].id)
      {
        var device := platform[i];
        var idString := NatToDecimal(device.id);
        var deviceName := match device.name case Some(n) => n case None => "Unknown device";
        var isConnected := Find(noteroMidiDevicePorts, PortWithId(idString)).Some?;
        PortIdMatch(noteroMidiDevicePorts, device.id);
        listing := listing + [MidiDeviceObject(idString, deviceName, isConnected)];
        i := i + 1;
      }
    }

    /** `openDeviceToPort`: the first platform device with the id, if any,
        is opened through `discoverMidiBluetooth`. The id is parsed inside
        `find`'s test, so it must be a number only when the platform
        reports some device (otherwise the source throws); with no device
        reported nothing happens, whatever the text. */
    method OpenDeviceToPort(idString: string, platform: seq<MidiDeviceModel>)
      requires Valid() && (platform != [] ==> KotlinToInt(idString).Some?)
      modifies this
      ensures Valid()
      ensures platform == [] ==> effects == old(effects)
      ensures platform != [] ==> var found := Find(platform, DeviceWithId(KotlinToInt(idString).value));
        effects == old(effects) + (if found.Some? then DiscoverEffects(platform[found.value]) else [])
      ensures bluetoothScanning == old(bluetoothScanning) && bluetoothDeviceList == old(bluetoothDeviceList)
      ensures midiDeviceList == old(midiDeviceList) && noteroMidiDevicePorts == old(noteroMidiDevicePorts)
      ensures onScanBluetoothListeners == old(onScanBluetoothListeners)
    {
      if platform == [] {
        return;
      }
      var found := Find(platform, DeviceWithId(KotlinToInt(idString).value));
      if found.Some? {
        DiscoverMidiBluetooth(platform[found.value]);
      }
    }

    /** `discoverMidiBluetooth`: ask the platform to open the device's first
        output port; a device without one is left alone. */
    method DiscoverMidiBluetooth(device: MidiDeviceModel)
      requires Valid()
      modifies this
      ensures Valid() && effects == old(effects) + DiscoverEffects(device)
      ensures bluetoothScanning == old(bluetoothScanning) && bluetoothDeviceList == old(bluetoothDeviceList)
      ensures midiDeviceList == old(midiDeviceList) && noteroMidiDevicePorts == old(noteroMidiDevicePorts)
      ensures onScanBluetoothListeners == old(onScanBluetoothListeners)
    {
      if device.outputPorts == [] {
        return;
      }
      effects := effects + [OpenDeviceRequested(device.id, device.outputPorts[0])];
    }

    /** The completion of `openDevice`: when the output port could be opened
        and no open port has the device's id, a port is opened, recorded and
        reported; otherwise nothing changes. */
    method OnMidiDeviceOpened(deviceId: nat, portNumber: nat, outputPortOpened: bool)
      requires Valid() && OpenDeviceRequested(deviceId, portNumber) in effects
      modifies this
      ensures Valid()
      ensures !outputPortOpened || (exists p :: p in old(noteroMidiDevicePorts) && p.deviceId == deviceId) ==>
                noteroMidiDevicePorts == old(noteroMidiDevicePorts) && effects == old(effects)
      ensures outputPortOpened && !(exists p :: p in old(noteroMidiDevicePorts) && p.deviceId == deviceId) ==>
                && noteroMidiDevicePorts == old(noteroMidiDevicePorts) + [DevicePort(deviceId, portNumber)]
                && effects == old(effects) + [PortOpened(deviceId), ConnectedToPortHandler(NatToDecimal(deviceId))]
      ensures bluetoothScanning == old(bluetoothScanning) && bluetoothDeviceList == old(bluetoothDeviceList)
      ensures midiDeviceList == old(midiDeviceList) && onScanBluetoothListeners == old(onScanBluetoothListeners)
    {
      if !outputPortOpened {
        return;
      }
      var idString := NatToDecimal(deviceId);
      PortIdMatch(noteroMidiDevicePorts, deviceId);
      if Find(noteroMidiDevicePorts, PortWithId(idString)).None? {
        noteroMidiDevicePorts := noteroMidiDevicePorts + [DevicePort(deviceId, portNumber)];
        effects := effects + [PortOpened(deviceId), ConnectedToPortHandler(idString)];
      }
    }

    /** `closeDeviceFromPort`: the port whose printed id is `idString` is
        closed, removed and reported; with no such port nothing changes. */
    method CloseDeviceFromPort(idString: string)
      requires Valid()
      modifies this
      ensures Valid()
      ensures noteroMidiDevicePorts == WithoutPort(old(noteroMidiDevicePorts), idString)
      ensures effects == old(effects) + ClosePortEffects(old(noteroMidiDevicePorts), idString)
      ensures bluetoothScanning == old(bluetoothScanning) && bluetoothDeviceList == old(bluetoothDeviceList)
      ensures midiDeviceList == old(midiDeviceList) && onScanBluetoothListeners == old(onScanBluetoothListeners)
    {
      WithoutPortSpec(noteroMidiDevicePorts, idString);
      var found := Find(noteroMidiDevicePorts, PortWithId(idString));
      if found.None? {
        return;
      }
      var k := found.value;
      effects := effects + [PortClosed(noteroMidiDevicePorts[k].deviceId)];
      noteroMidiDevicePorts := noteroMidiDevicePorts[..k] + noteroMidiDevicePorts[k + 1..];
      effects := effects + [DisconnectedFromPortHandler(idString)];
    }

    /** `onDeviceAdded`: the game is asked to refresh. */
    method OnDeviceAdded(device: Option<MidiDeviceModel>)
      requires Valid()
      modifies this
      ensures Valid() && effects == old(effects) + (if device.Some? then [UpdateDeviceStatus] else [])
      ensures bluetoothScanning == old(bluetoothScanning) && bluetoothDeviceList == old(bluetoothDeviceList)
      ensures midiDeviceList == old(midiDeviceList) && noteroMidiDevicePorts == old(noteroMidiDevicePorts)
      ensures onScanBluetoothListeners == old(onScanBluetoothListeners)
    {
      if device.None? {
        return;
      }
      effects := effects + [UpdateDeviceStatus];
    }

    /** `onDeviceRemoved`: the device's port is closed; when the device has a
        Bluetooth identity, every opened device under that address is
        dropped and the first entry for it is marked inactive and not
        connected; then the game is asked to refresh. */
    method OnDeviceRemoved(device: Option<MidiDeviceModel>)
      requires Valid()
      modifies this
      ensures Valid()
      ensures device.None? ==> noteroMidiDevicePorts == old(noteroMidiDevicePorts) && effects == old(effects)
                               && midiDeviceList == old(midiDeviceList) && bluetoothDeviceList == old(bluetoothDeviceList)
      ensures device.Some? ==>
                && noteroMidiDevicePorts == WithoutPort(old(noteroMidiDevicePorts), NatToDecimal(device.value.id))
                && effects == old(effects) + ClosePortEffects(old(noteroMidiDevicePorts), NatToDecimal(device.value.id))
                              + [UpdateDeviceStatus]
      ensures device.Some? && device.value.bluetooth.None? ==>
                midiDeviceList == old(midiDeviceList) && bluetoothDeviceList == old(bluetoothDeviceList)
      ensures device.Some? && device.value.bluetooth.Some? ==>
                var address := device.value.bluetooth.value.address;
                && midiDeviceList == WithoutKey(old(midiDeviceList), address)
                && bluetoothDeviceList == MarkRemoved(old(bluetoothDeviceList), address)
      ensures bluetoothScanning == old(bluetoothScanning) && onScanBluetoothListeners == old(onScanBluetoothListeners)
    {
      if device.None? {
        return;
      }
      CloseDeviceFromPort(NatToDecimal(device.value.id));
      match device.value.bluetooth {
        case Some(bt) =>
          midiDeviceList := WithoutKey(midiDeviceList, bt.address);
          MarkRemovedKeepsHandles(bluetoothDeviceList, bt.address, nextHandle);
          bluetoothDeviceList := MarkRemoved(bluetoothDeviceList, bt.address);
        case None =>
      }
      effects := effects + [UpdateDeviceStatus];
    }
  }

  // ---------------------------------------------------------------------
  // The functions the plugin's contracts are stated with
  // ---------------------------------------------------------------------

  /** The requests `discoverMidiBluetooth` makes. */
  function DiscoverEffects(device: MidiDeviceModel): (r: seq<Effect>)
    ensures device.outputPorts == [] <==> r == []
    ensures device.outputPorts != [] ==> r == [OpenDeviceRequested(device.id, device.outputPorts[0])]
  {
    if device.outputPorts == [] then [] else [OpenDeviceRequested(device.id, device.outputPorts[0])]
  }

  /** The port table after `closeDeviceFromPort(idString)`: without the
      first port with that printed id. */
  function WithoutPort(ports: seq<DevicePort>, idString: string): (r: seq<DevicePort>)
    ensures Find(ports, PortWithId(idString)).None? ==> r == ports
    ensures Find(ports, PortWithId(idString)).Some? ==> |r| == |ports| - 1
  {
    match Find(ports, PortWithId(idString))
    case None => ports
    case Some(k) => ports[..k] + ports[k + 1..]
  }

  /** Closing removes exactly the port with the printed id: no port with
      that id is left (ids being distinct), every other port stays, and the
      ids stay distinct. */
  lemma WithoutPortSpec(ports: seq<DevicePort>, idString: string)
    requires PortIdsDistinct(ports)
    ensures var r := WithoutPort(ports, idString);
      && PortIdsDistinct(r)
      && (forall p :: p in r ==> p in ports && NatToDecimal(p.deviceId) != idString)
      && (forall p :: p in ports && NatToDecimal(p.deviceId) != idString ==> p in r)
  {
    match Find(ports, PortWithId(idString))
    case None =>
      forall p | p in ports ensures NatToDecimal(p.deviceId) != idString {
        var i :| 0 <= i < |ports| && ports[i] == p;
        assert !PortWithId(idString)(ports[i]);
      }
    case Some(k) =>
      RemoveAtSpec(ports, k);
      forall p | p in ports[..k] + ports[k + 1..] ensures NatToDecimal(p.deviceId) != idString {
        var i :| 0 <= i < |ports| && i != k && ports[i] == p;
        DecimalInjective(p.deviceId, ports[k].deviceId);
      }
  }

  /** Removing the element at `k` keeps the others, in order. */
  lemma RemoveAtSpec(ports: seq<DevicePort>, k: nat)
    requires k < |ports| && PortIdsDistinct(ports)
    ensures var r := ports[..k] + ports[k + 1..];
      && PortIdsDistinct(r)
      && (forall p :: p in r <==> exists i :: 0 <= i < |ports| && i != k && ports[i] == p)
  {
    var r := ports[..k] + ports[k + 1..];
    assert forall i :: 0 <= i < |r| ==> r[i] == ports[if i < k then i else i + 1];
    forall p | exists i :: 0 <= i < |ports| && i != k && ports[i] == p ensures p in r {
      var i :| 0 <= i < |ports| && i != k && ports[i] == p;
      if i < k { assert r[i] == p; } else { assert r[i - 1] == p; }
    }
  }

  /** The effects of `closeDeviceFromPort(idString)`. */
  function ClosePortEffects(ports: seq<DevicePort>, idString: string): (r: seq<Effect>)
    ensures Find(ports, PortWithId(idString)).None? <==> r == []
  {
    match Find(ports, PortWithId(idString))
    case None => []
    case Some(k) => [PortClosed(ports[k].deviceId), DisconnectedFromPortHandler(idString)]
  }

  /** `midiDeviceList.removeIf { it.first == address }`. */
  function WithoutKey(midiDevices: seq<OpenedDevice>, address: string): (r: seq<OpenedDevice>)
    ensures forall o :: o in r <==> o in midiDevices && o.key != address
    ensures |r| <= |midiDevices|
  {
    if midiDevices == [] then []
    else
      var last := midiDevices[|midiDevices| - 1];
      assert midiDevices == midiDevices[..|midiDevices| - 1] + [last];
      WithoutKey(midiDevices[..|midiDevices| - 1], address) + (if last.key != address then [last] else [])
  }

  /** The Bluetooth list after a device removal: the first entry with the
      address marked inactive and not connected. */
  function MarkRemoved(list: seq<BtEntry>, address: string): (r: seq<BtEntry>)
    ensures |r| == |list| && BtAddresses(r) == BtAddresses(list)
    ensures address !in BtAddresses(list) ==> r == list
    ensures forall i :: 0 <= i < |list| && list[i].address == address && (forall j :: 0 <= j < i ==> list[j].address != address)
              ==> r[i] == list[i].(isActive := false, isConnected := false)
    ensures forall i :: 0 <= i < |list| && (list[i].address != address || exists j :: 0 <= j < i && list[j].address == address)
              ==> r[i] == list[i]
  {
    FindAddress(list, address);
    match Find(list, EntryAt(address))
    case None => list
    case Some(k) =>
      var r := list[k := list[k].(isActive := false, isConnected := false)];
      assert BtAddresses(r) == BtAddresses(list) by {
        assert forall e :: e in r ==> e == r[k] || e in list;
        assert list[k].address in BtAddresses(r) by { assert r[k] in r; }
        forall e | e in list ensures e.address in BtAddresses(r) {
          var i :| 0 <= i < |list| && list[i] == e;
          assert r[i].address == e.address && r[i] in r;
        }
      }
      r
  }

  /** The entry whose identity is `handle` with its connection flag set; the
      others unchanged. */
  function SetConnected(list: seq<BtEntry>, handle: nat, flag: bool): (r: seq<BtEntry>)
    ensures |r| == |list|
    ensures forall i :: 0 <= i < |list| ==>
              r[i] == if list[i].handle == handle then list[i].(isConnected := flag) else list[i]
  {
    seq(|list|, i requires 0 <= i < |list| =>
      if list[i].handle == handle then list[i].(isConnected := flag) else list[i])
  }

  // ---------------------------------------------------------------------
  // Helper lemmas
  // ---------------------------------------------------------------------

  lemma BtAddressesAppend(list: seq<BtEntry>, e: BtEntry)
    ensures BtAddresses(list + [e]) == BtAddresses(list) + {e.address}
  {
    assert forall x :: x in list + [e] <==> x in list || x == e;
  }

  /** `find` on the address succeeds exactly for a listed address. */
  lemma FindAddress(list: seq<BtEntry>, address: string)
    ensures Find(list, EntryAt(address)).Some? <==> address in BtAddresses(list)
  {
    if address in BtAddresses(list) {
      var e :| e in list && e.address == address;
      var i :| 0 <= i < |list| && list[i] == e;
      assert EntryAt(address)(list[i]);
    }
  }

  /** Matching ports by printed id is matching them by id. */
  lemma PortIdMatch(ports: seq<DevicePort>, id: nat)
    ensures Find(ports, PortWithId(NatToDecimal(id))).Some? <==> exists p :: p in ports && p.deviceId == id
  {
    if exists p :: p in ports && p.deviceId == id {
      var p :| p in ports && p.deviceId == id;
      var i :| 0 <= i < |ports| && ports[i] == p;
      assert PortWithId(NatToDecimal(id))(ports[i]);
    } else {
      forall i | 0 <= i < |ports| ensures !PortWithId(NatToDecimal(id))(ports[i]) {
        assert ports[i] in ports;
        DecimalInjective(ports[i].deviceId, id);
      }
    }
  }

  lemma SetConnectedKeepsAddresses(list: seq<BtEntry>, handle: nat, flag: bool)
    ensures BtAddresses(SetConnected(list, handle, flag)) == BtAddresses(list)
    ensures HandlesDistinct(list) ==> HandlesDistinct(SetConnected(list, handle, flag))
  {
    var r := SetConnected(list, handle, flag);
    forall e | e in list ensures e.address in BtAddresses(r) {
      var i :| 0 <= i < |list| && list[i] == e;
      assert r[i] in r;
    }
    forall e | e in r ensures e.address in BtAddresses(list) {
      var i :| 0 <= i < |r| && r[i] == e;
      assert list[i] in list;
    }
  }

  /** Marking an entry removed keeps every device object and its handle. */
  lemma MarkRemovedKeepsHandles(list: seq<BtEntry>, address: string, bound: nat)
    ensures HandlesDistinct(list) ==> HandlesDistinct(MarkRemoved(list, address))
    ensures (forall e :: e in list ==> e.handle < bound) ==> forall e :: e in MarkRemoved(list, address) ==> e.handle < bound
  {
    var r := MarkRemoved(list, address);
    assert forall i :: 0 <= i < |r| ==> r[i].handle == list[i].handle;
    if forall e :: e in list ==> e.handle < bound {
      forall e | e in r ensures e.handle < bound {
        var i :| 0 <= i < |r| && r[i] == e;
        assert list[i] in list;
      }
    }
  }

  lemma SetFlagsKeepsValid(list: seq<BtEntry>, k: nat, active: bool, connected: bool, bound: nat, r: seq<BtEntry>)
    requires k < |list| && r == list[k := list[k].(isActive := active, isConnected := connected)]
    ensures BtAddresses(r) == BtAddresses(list)
    ensures HandlesDistinct(list) ==> HandlesDistinct(r)
    ensures (forall e :: e in list ==> e.handle < bound) ==> forall e :: e in r ==> e.handle < bound
  {
    forall e | e in list ensures e.address in BtAddresses(r) {
      var i :| 0 <= i < |list| && list[i] == e;
      assert r[i] in r;
    }
    forall e | e in r ensures e.address in BtAddresses(list) {
      var i :| 0 <= i < |r| && r[i] == e;
      assert list[i] in list;
    }
    assert forall i :: 0 <= i < |r| ==> r[i].handle == list[i].handle;
    if forall e :: e in list ==> e.handle < bound {
      forall e | e in r ensures e.handle < bound {
        var i :| 0 <= i < |r| && r[i] == e;
        assert list[i] in list;
      }
    }
  }

  // ---------------------------------------------------------------------
  // Properties across calls
  // ---------------------------------------------------------------------

  /** Scans do not de-duplicate the device list: `bluetoothScanning` is
      emptied before each scan, so a device found again in a later scan is
      appended a second time while its first entry survives. */
  lemma RescanAppendsSecondEntry(list: seq<BtEntry>, e: BtEntry, handle: nat)
    requires e in list
    ensures var seen := [e.address];
      var next := Prune(list, seen) + [BtEntry(e.address, handle, e.name, true, false)];
      e in next && next[|next| - 1].address == e.address && |next| >= 2
  {
    var seen := [e.address];
    assert SurvivesScan(e, seen);
    assert e in Prune(list, seen);
  }

  /** A disconnected Bluetooth device is still listed as connected: its
      opened device stays in `midiDeviceList` until the platform removes it,
      and the listing reports every opened device as connected. */
  lemma DisconnectedStillListedConnected(midiDevices: seq<OpenedDevice>, devices: seq<BtEntry>, o: OpenedDevice)
    requires o in midiDevices && Reported(o).macAddress == o.key
    requires forall p :: p in midiDevices ==> Reported(p).macAddress == p.key
    ensures exists x :: x in DeviceListing(midiDevices, devices) && x.macAddress == o.key && x.isConnected
  {
    var m := MidiListing(midiDevices);
    var r := DeviceListing(midiDevices, devices);
    assert r[..|m|] == m;
    var x :| x in m && x.macAddress == o.key;
    var k :| 0 <= k < |m| && m[k] == x;
    assert r[k] == x;
  }

}
