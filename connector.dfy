/** `MidiPluginConnector`: the device list merged from the platform plugin's
    two queries, the port table reconciled with it, the reconnect
    automation, and the calls made into the platform plugins.

    The platform's answer to the two device queries is the parameter
    `platform` (the decoded device list both queries filter); it stays the
    same during one call chain, since the plugin's open and close calls
    complete asynchronously. The calls made into the plugins are appended
    to `calls`.

    `OnDeviceStatusChange`, `SetMidiPortToAutoConnection`, the address-based
    open and close and `ReconnectMidiDevice` call each other. Each carries a
    `fuel` bound: the status check spends one unit each time it starts the
    reconnect pass, and a chain that would start the pass with no fuel left
    ends in `OutOfFuel`. */
module Connector {
  import opened Text
  import opened DeviceData
  import opened PortTable

  /** How a call chain ends. `Fault` is the null dereference of a failed
      address lookup (a `NullReferenceException`); `OutOfFuel` is a chain
      that re-entered the reconnect pass more often than the fuel allows. */
  datatype Outcome = Done | OutOfFuel | Fault

  /** How a chain that ends in the status check turns out, for the
      automation flag, the fuel, and the list and table it settles on:
      without automation, or with nothing to reconnect, it completes; with
      automation and an actionable port it never completes, whatever the
      fuel; otherwise one unit of fuel is enough for it to complete. */
  predicate Settles(isAuto: bool, fuel: nat, devices: seq<DeviceRecord>, ports: seq<MidiPort>, outcome: Outcome)
  {
    && outcome != Fault
    && (!(isAuto && NeedsReconnect(devices, ports)) ==> outcome == Done)
    && (isAuto && HasActionable(devices, ports) ==> outcome == OutOfFuel)
    && (fuel > 0 && !(isAuto && HasActionable(devices, ports)) ==> outcome == Done)
  }

  /** Extending a prefix of a prefix. */
  lemma PrefixTransitive<T>(a: seq<T>, b: seq<T>, c: seq<T>)
    requires a <= b && b <= c
    ensures a <= c
  {
    assert c[..|a|] == b[..|a|];
  }

  /** Appending is associative. */
  lemma AppendAssociative<T>(a: seq<T>, b: seq<T>, c: seq<T>)
    ensures (a + b) + c == a + (b + c)
  {
  }

  /** One more port's cycle extends the pass over the ports before it. */
  lemma PassStep(start: seq<PlatformCall>, before: seq<PlatformCall>, after: seq<PlatformCall>,
                 devices: seq<DeviceRecord>, ports: seq<MidiPort>, i: nat)
    requires i < |ports|
    requires before == start + ReconnectPass(devices, ports[..i])
    requires after == before + PortCycle(devices, ports[i])
    ensures after == start + ReconnectPass(devices, ports[..i + 1])
  {
    ReconnectPassAppend(devices, ports, i);
    AppendAssociative(start, ReconnectPass(devices, ports[..i]), PortCycle(devices, ports[i]));
  }

  /** The calls of a close followed by an open are the port's cycle. */
  lemma CycleCalls(devices: seq<DeviceRecord>, p: MidiPort, before: seq<PlatformCall>, middle: seq<PlatformCall>, after: seq<PlatformCall>)
    requires Actionable(devices, p)
    requires middle == before + [CloseDeviceFromPort(p.macAddress), CloseMidiInputPort(InputName(devices, p.macAddress))]
    requires after == middle + [OpenDeviceToPort(p.macAddress), OpenMidiInputPort(InputName(devices, p.macAddress))]
    ensures after == before + PortCycle(devices, p)
  {
  }

  /** Closing an automatic port turns its flag off; reopening it turns
      the flag back on and leaves the table as it was. */
  lemma ReopenRestoresTable(devices: seq<DeviceRecord>, ports: seq<MidiPort>, i: nat, off: seq<MidiPort>)
    requires Reconciled(devices, ports) && i < |ports| && ports[i].autoConnection
    requires off == SetFirstFlag(ports, ports[i].macAddress, false) && Reconciled(devices, off)
    ensures Reconcile(devices, off) == off
    ensures SetFirstFlag(off, ports[i].macAddress, true) == ports
  {
    FlagRoundTrip(ports, i);
    ReconcileFixpoint(devices, off);
  }

  /** Two calls appended one after the other, then more calls. */
  lemma TwoCallsPrefix<T>(start: seq<T>, x: T, y: T, after: seq<T>)
    requires (start + [x]) + [y] <= after
    ensures start + [x] <= after && start + [x, y] <= after
    ensures (start + [x]) + [y] == start + [x, y]
  {
    assert after[..|start| + 1] == ((start + [x]) + [y])[..|start| + 1];
  }

  class MidiPluginConnector {
    /** `m_BluetoothDeviceInfoList`. */
    var devices: seq<DeviceRecord>
    /** `m_MidiPortInfo`. */
    var ports: seq<MidiPort>
    /** `m_IsReconnectAutomation`. */
    var isReconnectAutomation: bool
    /** The calls made into the Bluetooth and MIDI plugins, oldest first. */
    var calls: seq<PlatformCall>

    /** The port table never holds two ports for one address. */
    predicate Valid()
      reads this
    {
      UniqueAddresses(ports)
    }

    constructor()
      ensures devices == [] && ports == [] && isReconnectAutomation && calls == []
      ensures Valid()
    {
      devices := [];
      ports := [];
      isReconnectAutomation := true;
      calls := [];
    }

    /** `Init`: the Bluetooth plugin first, then the MIDI plugin. */
    method Init()
      modifies this
      ensures calls == old(calls) + [InitBluetoothPlugin, InitMidiPlugin]
      ensures devices == old(devices) && ports == old(ports)
      ensures isReconnectAutomation == old(isReconnectAutomation)
    {
      calls := calls + [InitBluetoothPlugin];
      calls := calls + [InitMidiPlugin];
    }

    /** `UpdateMidiDevice`: the connected devices, then the others, each
        (address, name) once. */
    method UpdateMidiDevice(platform: seq<DeviceRecord>)
      modifies this
      ensures devices == DeviceUnion(platform)
      ensures NoDuplicates(devices) && KeysOf(devices) == KeysOf(platform)
      ensures forall d :: d in devices ==> d in platform
      ensures ports == old(ports) && calls == old(calls)
      ensures isReconnectAutomation == old(isReconnectAutomation)
    {
      devices := DeviceUnion(platform);
      DeviceUnionProperties(platform);
    }

    /** `UpdateMidiDeviceFromPort`. */
    method UpdateMidiDeviceFromPort()
      requires Valid()
      modifies this
      ensures ports == Reconcile(devices, old(ports))
      ensures Valid() && Reconciled(devices, ports)
      ensures devices == old(devices) && calls == old(calls)
      ensures isReconnectAutomation == old(isReconnectAutomation)
    {
      ReconcileProperties(devices, ports);
      ports := Reconcile(devices, ports);
    }

    /** `OnDeviceStatusChange`: refresh the list and the table; when the list
        is empty or out of sync and the automation is on, run the reconnect
        pass. A chain that completes makes no call at all. */
    method OnDeviceStatusChange(platform: seq<DeviceRecord>, fuel: nat) returns (outcome: Outcome)
      requires Valid()
      modifies this
      decreases fuel, 0
      ensures Valid() && devices == DeviceUnion(platform) && Reconciled(devices, ports)
      ensures isReconnectAutomation == old(isReconnectAutomation)
      ensures old(calls) <= calls
      ensures Settles(isReconnectAutomation, fuel, devices, Reconcile(DeviceUnion(platform), old(ports)), outcome)
      ensures outcome == Done ==> ports == Reconcile(DeviceUnion(platform), old(ports)) && calls == old(calls)
      ensures isReconnectAutomation && NeedsReconnect(devices, Reconcile(devices, old(ports))) && fuel == 0
              ==> outcome == OutOfFuel
    {
      UpdateMidiDevice(platform);
      UpdateMidiDeviceFromPort();
      ActionableMeansOutOfSync(devices, ports);
      NothingToReconnect(devices, ports);
      if |devices| != 0 && !OutOfSync(devices, ports) {
        return Done;
      }
      if isReconnectAutomation {
        if fuel == 0 {
          return OutOfFuel;
        }
        outcome := ReconnectMidiDevice(platform, fuel - 1);
      } else {
        outcome := Done;
      }
    }

    /** `SetMidiPortToAutoConnection`: refresh, set the flag of the port
        with the address (if there is one), then the status check. */
    method SetMidiPortToAutoConnection(platform: seq<DeviceRecord>, mac: string, isAutoConnection: bool, fuel: nat)
      returns (outcome: Outcome)
      requires Valid()
      modifies this
      decreases fuel, 1
      ensures Valid() && devices == DeviceUnion(platform) && Reconciled(devices, ports)
      ensures isReconnectAutomation == old(isReconnectAutomation)
      ensures old(calls) <= calls
      ensures Settles(isReconnectAutomation, fuel, devices, SetFirstFlag(Reconcile(DeviceUnion(platform), old(ports)), mac, isAutoConnection), outcome)
      ensures outcome == Done ==> ports == SetFirstFlag(Reconcile(DeviceUnion(platform), old(ports)), mac, isAutoConnection)
                                  && calls == old(calls)
    {
      UpdateMidiDevice(platform);
      UpdateMidiDeviceFromPort();
      SetFirstFlagKeepsAddresses(devices, ports, mac, isAutoConnection);
      ports := SetFirstFlag(ports, mac, isAutoConnection);
      ReconcileFixpoint(devices, ports);
      outcome := OnDeviceStatusChange(platform, fuel);
    }

    /** `CloseDeviceFromPortByAddress`: close the device's port, then its
        input port under the name found for the address in the current
        list, then switch the port to manual. When no device has the
        address the lookup yields null and the name read throws, after the
        first call was made. */
    method CloseDeviceFromPortByAddress(platform: seq<DeviceRecord>, mac: string, fuel: nat) returns (outcome: Outcome)
      requires Valid()
      modifies this
      decreases fuel, 2
      ensures Valid() && isReconnectAutomation == old(isReconnectAutomation)
      ensures old(calls) + [CloseDeviceFromPort(mac)] <= calls
      ensures outcome == Fault <==> mac !in Macs(old(devices))
      ensures outcome == Fault ==> calls == old(calls) + [CloseDeviceFromPort(mac)]
                                   && devices == old(devices) && ports == old(ports)
      ensures outcome != Fault ==>
                old(calls) + [CloseDeviceFromPort(mac), CloseMidiInputPort(InputName(old(devices), mac))] <= calls
                && devices == DeviceUnion(platform) && Reconciled(devices, ports)
      ensures outcome != Fault ==>
                Settles(isReconnectAutomation, fuel, devices, SetFirstFlag(Reconcile(DeviceUnion(platform), old(ports)), mac, false), outcome)
      ensures outcome == Done ==> ports == SetFirstFlag(Reconcile(DeviceUnion(platform), old(ports)), mac, false)
      ensures outcome == Done ==> calls == old(calls) + [CloseDeviceFromPort(mac), CloseMidiInputPort(InputName(old(devices), mac))]
    {
      ghost var start := calls;
      calls := calls + [CloseDeviceFromPort(mac)];
      var device := FindByAddress(devices, mac);
      if device.None? {
        return Fault;
      }
      calls := calls + [CloseMidiInputPort(device.value.deviceName)];
      assert device.value.deviceName == InputName(old(devices), mac);
      outcome := SetMidiPortToAutoConnection(platform, mac, false, fuel);
      TwoCallsPrefix(start, CloseDeviceFromPort(mac), CloseMidiInputPort(device.value.deviceName), calls);
    }

    /** `OpenDeviceToPortByAddress`: open the device's port, then its input
        port under the name found for the address, then switch the port to
        automatic. A failed lookup throws as in the close. */
    method OpenDeviceToPortByAddress(platform: seq<DeviceRecord>, mac: string, fuel: nat) returns (outcome: Outcome)
      requires Valid()
      modifies this
      decreases fuel, 2
      ensures Valid() && isReconnectAutomation == old(isReconnectAutomation)
      ensures old(calls) + [OpenDeviceToPort(mac)] <= calls
      ensures outcome == Fault <==> mac !in Macs(old(devices))
      ensures outcome == Fault ==> calls == old(calls) + [OpenDeviceToPort(mac)]
                                   && devices == old(devices) && ports == old(ports)
      ensures outcome != Fault ==>
                old(calls) + [OpenDeviceToPort(mac), OpenMidiInputPort(InputName(old(devices), mac))] <= calls
                && devices == DeviceUnion(platform) && Reconciled(devices, ports)
      ensures outcome != Fault ==>
                Settles(isReconnectAutomation, fuel, devices, SetFirstFlag(Reconcile(DeviceUnion(platform), old(ports)), mac, true), outcome)
      ensures outcome == Done ==> ports == SetFirstFlag(Reconcile(DeviceUnion(platform), old(ports)), mac, true)
      ensures outcome == Done ==> calls == old(calls) + [OpenDeviceToPort(mac), OpenMidiInputPort(InputName(old(devices), mac))]
    {
      ghost var start := calls;
      calls := calls + [OpenDeviceToPort(mac)];
      var device := FindByAddress(devices, mac);
      if device.None? {
        return Fault;
      }
      calls := calls + [OpenMidiInputPort(device.value.deviceName)];
      assert device.value.deviceName == InputName(old(devices), mac);
      outcome := SetMidiPortToAutoConnection(platform, mac, true, fuel);
      TwoCallsPrefix(start, OpenDeviceToPort(mac), OpenMidiInputPort(device.value.deviceName), calls);
    }

    /** One step of the reconnect pass, for the actionable port at index
        `i`: close it, then open it again. Without automation both complete
        and the table is as before. With automation the reopen switches the
        port back to automatic and re-enters the status check, which finds
        the same port actionable again, so the step never completes. */
    method ReopenPort(platform: seq<DeviceRecord>, i: nat, fuel: nat) returns (outcome: Outcome)
      requires Valid() && devices == DeviceUnion(platform) && Reconciled(devices, ports)
      requires i < |ports| && Actionable(devices, ports[i])
      modifies this
      decreases fuel, 3
      ensures Valid() && devices == old(devices) && Reconciled(devices, ports)
      ensures isReconnectAutomation == old(isReconnectAutomation)
      ensures old(calls) <= calls
      ensures isReconnectAutomation ==> outcome == OutOfFuel
      ensures !isReconnectAutomation ==>
                outcome == Done && ports == old(ports) && calls == old(calls) + PortCycle(devices, old(ports)[i])
    {
      ghost var D, P := devices, ports;
      var mac := ports[i].macAddress;
      ghost var name := InputName(D, mac);
      assert P[i] in P;
      assert HasActionable(D, P);
      ReconcileFixpoint(D, P);
      ghost var before := calls;
      outcome := CloseDeviceFromPortByAddress(platform, mac, fuel);
      PrefixTransitive(before, before + [CloseDeviceFromPort(mac)], calls);
      if outcome != Done {
        return;
      }
      ReopenRestoresTable(D, P, i, ports);
      ghost var middle := calls;
      outcome := OpenDeviceToPortByAddress(platform, mac, fuel);
      PrefixTransitive(middle, middle + [OpenDeviceToPort(mac)], calls);
      PrefixTransitive(before, middle, calls);
      if outcome != Done {
        return;
      }
      CycleCalls(D, P[i], before, middle, calls);
    }

    /** The body of the reconnect loop for the port at index `i`: reopen it
        when it is actionable, read from the live table. */
    method ReconnectStep(platform: seq<DeviceRecord>, i: nat, fuel: nat) returns (outcome: Outcome)
      requires Valid() && devices == DeviceUnion(platform) && Reconciled(devices, ports)
      requires i < |ports|
      modifies this
      decreases fuel, 4
      ensures Valid() && devices == old(devices) && Reconciled(devices, ports)
      ensures isReconnectAutomation == old(isReconnectAutomation)
      ensures old(calls) <= calls
      ensures isReconnectAutomation && Actionable(devices, old(ports)[i]) ==> outcome == OutOfFuel
      ensures !(isReconnectAutomation && Actionable(devices, old(ports)[i])) ==>
                outcome == Done && ports == old(ports) && calls == old(calls) + PortCycle(devices, old(ports)[i])
    {
      if ports[i].autoConnection && !Connected(devices, ports[i].macAddress) {
        outcome := ReopenPort(platform, i, fuel);
      } else {
        outcome := Done;
      }
    }

    /** `ReconnectMidiDevice`: for every automatic port whose device is not
        connected, close it and open it again. The flag is read from the
        live table as the enumeration reaches each port.

        Without automation this is the intended pass, one reopen per
        actionable port. With automation the first reopen never completes
        (see `ReopenPort`). */
    method ReconnectMidiDevice(platform: seq<DeviceRecord>, fuel: nat) returns (outcome: Outcome)
      requires Valid() && devices == DeviceUnion(platform) && Reconciled(devices, ports)
      modifies this
      decreases fuel, 5
      ensures Valid() && devices == old(devices) && Reconciled(devices, ports)
      ensures isReconnectAutomation == old(isReconnectAutomation)
      ensures old(calls) <= calls
      ensures isReconnectAutomation && HasActionable(devices, old(ports)) ==> outcome == OutOfFuel
      ensures !(isReconnectAutomation && HasActionable(devices, old(ports))) ==>
                outcome == Done && ports == old(ports) && calls == old(calls) + ReconnectPass(devices, old(ports))
    {
      var snapshot := ports;
      ghost var D := devices;
      assert snapshot[..0] == [];
      var i := 0;
      while i < |snapshot|
        invariant 0 <= i <= |snapshot|
        invariant ports == snapshot && devices == D && Valid()
        invariant isReconnectAutomation == old(isReconnectAutomation)
        invariant calls == old(calls) + ReconnectPass(D, snapshot[..i])
        invariant isReconnectAutomation ==> forall j :: 0 <= j < i ==> !Actionable(D, snapshot[j])
      {
        ghost var before := calls;
        outcome := ReconnectStep(platform, i, fuel);
        if outcome != Done {
          assert isReconnectAutomation && Actionable(D, snapshot[i]);
          PrefixTransitive(old(calls), before, calls);
          return;
        }
        PassStep(old(calls), before, calls, D, snapshot, i);
        i := i + 1;
      }
      assert snapshot[..|snapshot|] == snapshot;
      outcome := Done;
    }

    /** `ForceReconnectMidiDevice`: refresh, then the reconnect pass. */
    method ForceReconnectMidiDevice(platform: seq<DeviceRecord>, fuel: nat) returns (outcome: Outcome)
      requires Valid()
      modifies this
      ensures Valid() && devices == DeviceUnion(platform) && Reconciled(devices, ports)
      ensures isReconnectAutomation == old(isReconnectAutomation)
      ensures old(calls) <= calls
      ensures isReconnectAutomation && HasActionable(devices, Reconcile(DeviceUnion(platform), old(ports)))
              ==> outcome == OutOfFuel
      ensures !(isReconnectAutomation && HasActionable(devices, Reconcile(DeviceUnion(platform), old(ports)))) ==>
                outcome == Done && ports == Reconcile(DeviceUnion(platform), old(ports))
                && calls == old(calls) + ReconnectPass(devices, Reconcile(DeviceUnion(platform), old(ports)))
    {
      UpdateMidiDevice(platform);
      UpdateMidiDeviceFromPort();
      outcome := ReconnectMidiDevice(platform, fuel);
    }

    /** The connector's part of `MidiConnectionAdapter.Awake` on a fresh
        connector: `Init`, then `ForceReconnectMidiDevice`. */
    method InitAndForceReconnect(platform: seq<DeviceRecord>, fuel: nat) returns (outcome: Outcome)
      requires Valid() && devices == [] && ports == [] && calls == [] && isReconnectAutomation
      modifies this
      ensures Valid() && devices == DeviceUnion(platform) && Reconciled(devices, ports) && isReconnectAutomation
      ensures [InitBluetoothPlugin, InitMidiPlugin] <= calls
      ensures outcome == OutOfFuel <==> HasActionable(devices, Reconcile(DeviceUnion(platform), []))
      ensures outcome == Done ==>
                ports == Reconcile(DeviceUnion(platform), [])
                && calls == [InitBluetoothPlugin, InitMidiPlugin] + ReconnectPass(devices, Reconcile(DeviceUnion(platform), []))
    {
      Init();
      assert calls == [InitBluetoothPlugin, InitMidiPlugin];
      outcome := ForceReconnectMidiDevice(platform, fuel);
    }

    /** `SetReconnectAutomation`: store the flag; switching it on forces a
        reconnect. */
    method SetReconnectAutomation(platform: seq<DeviceRecord>, isAuto: bool, fuel: nat) returns (outcome: Outcome)
      requires Valid()
      modifies this
      ensures Valid() && isReconnectAutomation == isAuto
      ensures !isAuto ==> outcome == Done && devices == old(devices) && ports == old(ports) && calls == old(calls)
      ensures isAuto ==> devices == DeviceUnion(platform)
      ensures isAuto && HasActionable(devices, Reconcile(DeviceUnion(platform), old(ports))) ==> outcome == OutOfFuel
      ensures isAuto && !HasActionable(devices, Reconcile(DeviceUnion(platform), old(ports))) ==>
                outcome == Done && ports == Reconcile(DeviceUnion(platform), old(ports)) && calls == old(calls)
    {
      isReconnectAutomation := isAuto;
      if isAuto {
        outcome := ForceReconnectMidiDevice(platform, fuel);
        NothingToReconnect(devices, Reconcile(devices, old(ports)));
      } else {
        outcome := Done;
      }
    }

    /** The reconnect pass as evidently intended: refresh, then close and
        reopen every actionable port exactly once, leaving every flag as it
        was, without re-entering the status check. */
    method ReconnectEachOnce(platform: seq<DeviceRecord>)
      requires Valid()
      modifies this
      ensures devices == DeviceUnion(platform)
      ensures ports == Reconcile(devices, old(ports)) && Valid() && Reconciled(devices, ports)
      ensures calls == old(calls) + ReconnectPass(devices, ports)
      ensures isReconnectAutomation == old(isReconnectAutomation)
    {
      UpdateMidiDevice(platform);
      UpdateMidiDeviceFromPort();
      ReopenActionablePorts();
    }

    /** The loop of the intended pass, over the current list and table. */
    method ReopenActionablePorts()
      modifies this
      ensures calls == old(calls) + ReconnectPass(devices, ports)
      ensures devices == old(devices) && ports == old(ports)
      ensures isReconnectAutomation == old(isReconnectAutomation)
    {
      ghost var D, P := devices, ports;
      assert P[..0] == [];
      var i := 0;
      while i < |ports|
        invariant 0 <= i <= |ports|
        invariant devices == D && ports == P && isReconnectAutomation == old(isReconnectAutomation)
        invariant calls == old(calls) + ReconnectPass(D, P[..i])
      {
        ReconnectPassAppend(D, P, i);
        var port := ports[i];
        if port.autoConnection && !Connected(devices, port.macAddress) {
          var name := InputName(devices, port.macAddress);
          calls := calls + [CloseDeviceFromPort(port.macAddress), CloseMidiInputPort(name),
                            OpenDeviceToPort(port.macAddress), OpenMidiInputPort(name)];
        }
        i := i + 1;
      }
      assert P[..|P|] == P;
    }

    /** `ConnectBluetooth(address)`. */
    method ConnectBluetooth(mac: string)
      modifies this
      ensures calls == old(calls) + [PlatformCall.ConnectBluetooth(mac)]
      ensures devices == old(devices) && ports == old(ports)
      ensures isReconnectAutomation == old(isReconnectAutomation)
    {
      calls := calls + [PlatformCall.ConnectBluetooth(mac)];
    }

    /** `DisconnectBluetooth(address)`. */
    method DisconnectBluetooth(mac: string)
      modifies this
      ensures calls == old(calls) + [PlatformCall.DisconnectBluetooth(mac)]
      ensures devices == old(devices) && ports == old(ports)
      ensures isReconnectAutomation == old(isReconnectAutomation)
    {
      calls := calls + [PlatformCall.DisconnectBluetooth(mac)];
    }

    /** `ConnectBluetooth(address, name)`: the device is connected before its
        input port is opened. */
    method ConnectBluetoothAndOpenPort(mac: string, deviceNameForOpenPort: string)
      modifies this
      ensures calls == old(calls) + [PlatformCall.ConnectBluetooth(mac), OpenMidiInputPort(deviceNameForOpenPort)]
      ensures devices == old(devices) && ports == old(ports)
      ensures isReconnectAutomation == old(isReconnectAutomation)
    {
      ConnectBluetooth(mac);
      calls := calls + [OpenMidiInputPort(deviceNameForOpenPort)];
    }

    /** `DisconnectBluetooth(address, name)`: the input port is closed before
        the device is disconnected. */
    method DisconnectBluetoothAndClosePort(mac: string, deviceNameForClosePort: string)
      modifies this
      ensures calls == old(calls) + [CloseMidiInputPort(deviceNameForClosePort), PlatformCall.DisconnectBluetooth(mac)]
      ensures devices == old(devices) && ports == old(ports)
      ensures isReconnectAutomation == old(isReconnectAutomation)
    {
      calls := calls + [CloseMidiInputPort(deviceNameForClosePort)];
      DisconnectBluetooth(mac);
    }
  }

  /** The record of a keyboard that is paired but not connected. */
  const Holtek: DeviceRecord := DeviceRecord("AA:BB", "HOLTEK USB DEVICE-1", false, Unknow, 0, 0)

  /** Reported alone, it gets an automatic port that is actionable. */
  lemma HoltekIsActionable()
    ensures HasActionable(DeviceUnion([Holtek]), Reconcile(DeviceUnion([Holtek]), []))
  {
    var D := DeviceUnion([Holtek]);
    var P := Reconcile(D, []);
    DeviceUnionProperties([Holtek]);
    ReconcileProperties(D, []);
    assert KeyOf(Holtek) in KeysOf(D);
    var d :| d in D && KeyOf(d) == KeyOf(Holtek);
    assert d.macAddress in Macs(D);
    var i :| 0 <= i < |P| && P[i].macAddress == d.macAddress by {
      assert d.macAddress in PortMacs(P);
    }
    assert P[i] in P;
    assert !Connected(D, "AA:BB");
    assert Actionable(D, P[i]);
  }

  /** A fresh connector, reconnect automation on, one paired keyboard that
      is not connected: the status check never completes, whatever the
      fuel, because every reopen re-enters it. */
  method HoltekStatusChangeNeverSettles(fuel: nat) returns (outcome: Outcome)
    ensures outcome == OutOfFuel
  {
    var connector := new MidiPluginConnector();
    HoltekIsActionable();
    outcome := connector.OnDeviceStatusChange([Holtek], fuel);
  }
}
