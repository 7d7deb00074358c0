/** `MidiConnectionAdapter`: the component the game talks to. It owns a
    `MidiPluginConnector`, forwards the plugin's callbacks to it, and raises
    its own events to subscribers. A raised event is recorded together with
    the device list a subscriber reading `BluetoothDeviceInfoList` (the
    connector's list) would see at that moment, which is how the order
    "refresh first, then raise" becomes observable. */
module ConnectionAdapter {
  import opened Text
  import opened DeviceData
  import opened PortTable
  import opened Connector

  // ---------------------------------------------------------------------
  // bool.Parse
  // ---------------------------------------------------------------------

  /** `char.IsWhiteSpace`: the Unicode space separators, the line and
      paragraph separators, U+0009..U+000D, U+0085 and U+00A0. */
  predicate IsWhiteSpace(c: char)
  {
    || c == ' ' || ('\t' <= c <= '\r') || c == '\U{0085}' || c == '\U{00A0}' || c == '\U{1680}'
    || ('\U{2000}' <= c <= '\U{200A}') || c == '\U{2028}' || c == '\U{2029}' || c == '\U{202F}'
    || c == '\U{205F}' || c == '\U{3000}'
  }

  /** The characters `bool.Parse` strips from both ends: white space and
      the null character. */
  predicate IsTrimmed(c: char) { IsWhiteSpace(c) || c == '\U{0000}' }

  predicate AllTrimmed(s: string) { forall i :: 0 <= i < |s| ==> IsTrimmed(s[i]) }

  lemma AllTrimmedAppend(a: string, b: string)
    requires AllTrimmed(a) && AllTrimmed(b)
    ensures AllTrimmed(a + b)
  {
    forall i | 0 <= i < |a + b| ensures IsTrimmed((a + b)[i]) {
      if i < |a| { assert (a + b)[i] == a[i]; } else { assert (a + b)[i] == b[i - |a|]; }
    }
  }

  /** One trimmed character in front of what the rest trims to. */
  lemma TrimLeadingStep(s: string, t: string)
    requires |s| > 0 && IsTrimmed(s[0])
    requires |t| <= |s| - 1 && t == s[1..][|s| - 1 - |t|..] && AllTrimmed(s[1..][..|s| - 1 - |t|])
    ensures t == s[|s| - |t|..] && AllTrimmed(s[..|s| - |t|])
  {
    assert s[..|s| - |t|] == [s[0]] + s[1..][..|s| - 1 - |t|];
    assert s[1..][|s| - 1 - |t|..] == s[|s| - |t|..];
    AllTrimmedAppend([s[0]], s[1..][..|s| - 1 - |t|]);
  }

  /** One trimmed character behind what the rest trims to. */
  lemma TrimTrailingStep(s: string, t: string)
    requires |s| > 0 && IsTrimmed(s[|s| - 1])
    requires |t| <= |s| - 1 && t == s[..|s| - 1][..|t|] && AllTrimmed(s[..|s| - 1][|t|..])
    ensures t == s[..|t|] && AllTrimmed(s[|t|..])
  {
    assert s[|t|..] == s[..|s| - 1][|t|..] + [s[|s| - 1]];
    assert s[..|s| - 1][..|t|] == s[..|t|];
    AllTrimmedAppend(s[..|s| - 1][|t|..], [s[|s| - 1]]);
  }

  function TrimLeading(s: string): (t: string)
    ensures |t| <= |s| && t == s[|s| - |t|..]
    ensures AllTrimmed(s[..|s| - |t|])
    ensures |t| > 0 ==> !IsTrimmed(t[0])
  {
    if |s| > 0 && IsTrimmed(s[0]) then
      var t := TrimLeading(s[1..]);
      TrimLeadingStep(s, t);
      t
    else s
  }

  function TrimTrailing(s: string): (t: string)
    ensures |t| <= |s| && t == s[..|t|]
    ensures AllTrimmed(s[|t|..])
    ensures |t| > 0 ==> !IsTrimmed(t[|t| - 1])
  {
    if |s| > 0 && IsTrimmed(s[|s| - 1]) then
      var t := TrimTrailing(s[..|s| - 1]);
      TrimTrailingStep(s, t);
      t
    else s
  }

  /** The text `bool.ToString()` gives, lower-cased. */
  function BoolText(b: bool): string { if b then "true" else "false" }

  /** `bool.Parse`: after trimming, `True` or `False` in any letter case;
      anything else is a format error, never a default. */
  function ParseBool(s: string): (r: Option<bool>)
    ensures AllTrimmed(s) ==> r.None?
    ensures r.Some? ==> |s| >= 4
  {
    var t := AsciiLower(TrimTrailing(TrimLeading(s)));
    if t == BoolText(true) then Some(true)
    else if t == BoolText(false) then Some(false)
    else None
  }

  lemma {:induction false} TrimLeadingPadded(w: string, c: string)
    requires AllTrimmed(w) && |c| > 0 && !IsTrimmed(c[0])
    ensures TrimLeading(w + c) == c
  {
    if |w| > 0 {
      assert (w + c)[1..] == w[1..] + c;
      TrimLeadingPadded(w[1..], c);
    }
  }

  lemma {:induction false} TrimTrailingPadded(c: string, w: string)
    requires AllTrimmed(w) && |c| > 0 && !IsTrimmed(c[|c| - 1])
    ensures TrimTrailing(c + w) == c
  {
    if |w| > 0 {
      assert (c + w)[..|c + w| - 1] == c + w[..|w| - 1];
      TrimTrailingPadded(c, w[..|w| - 1]);
    } else {
      assert c + w == c;
    }
  }

  /** Any spelling of `true` or `false`, in any letter case and with any
      white space or null characters around it, parses to its value; in
      particular the C# `"True"`/`"False"` and the Kotlin `"true"`/`"false"`. */
  lemma ParseBoolPadded(before: string, word: string, after: string, b: bool)
    requires AllTrimmed(before) && AllTrimmed(after)
    requires AsciiLower(word) == BoolText(b)
    ensures ParseBool(before + word + after) == Some(b)
  {
    var lower := BoolText(b);
    assert |word| == |lower| > 0;
    LetterNotTrimmed(word[0], lower[0]);
    LetterNotTrimmed(word[|word| - 1], lower[|word| - 1]);
    var s := before + word + after;
    assert s == before + (word + after);
    TrimLeadingPadded(before, word + after);
    TrimTrailingPadded(word, after);
    assert AsciiLower(TrimTrailing(TrimLeading(s))) == lower;
  }

  /** A character that lower-cases to a letter is neither white space nor null. */
  lemma LetterNotTrimmed(c: char, lower: char)
    requires AsciiLowerChar(c) == lower && 'a' <= lower <= 'z'
    ensures !IsTrimmed(c)
  {
  }

  /** The converse of `ParseBoolPadded`: only `True` or `False` in some
      letter case, padded with white space and nulls, parses, and to the
      value it spells. */
  lemma ParseBoolOnlyPaddedWords(s: string)
    ensures ParseBool(s).Some? ==>
              exists i, j :: 0 <= i <= j <= |s| && AllTrimmed(s[..i]) && AllTrimmed(s[j..])
                             && AsciiLower(s[i..j]) == BoolText(ParseBool(s).value)
  {
    if ParseBool(s).Some? {
      var u := TrimLeading(s);
      var t := TrimTrailing(u);
      var i, j := |s| - |u|, |s| - |u| + |t|;
      assert u[|t|..] == s[j..];
      assert t == s[i..j];
      assert AsciiLower(t) == BoolText(ParseBool(s).value);
      assert 0 <= i <= j <= |s| && AllTrimmed(s[..i]) && AllTrimmed(s[j..]);
    }
  }

  /** The text of one Boolean, as C# and Kotlin print it, read back. */
  lemma ParseBoolOfToString(b: bool)
    ensures ParseBool(if b then "True" else "False") == Some(b)
    ensures ParseBool(BoolText(b)) == Some(b)
  {
    var word := if b then "True" else "False";
    var lower := BoolText(b);
    LowerOfSpelling(word, lower);
    LowerOfSpelling(lower, lower);
    ParseBoolWhole(word, b);
    ParseBoolWhole(lower, b);
  }

  lemma ParseBoolWhole(word: string, b: bool)
    requires AsciiLower(word) == BoolText(b)
    ensures ParseBool(word) == Some(b)
  {
    var none: string := [];
    assert AllTrimmed(none);
    assert none + word + none == word;
    ParseBoolPadded(none, word, none, b);
  }

  /** The empty string, a number and a different word are all errors. */
  lemma ParseBoolRejects()
    ensures ParseBool("") == None
    ensures ParseBool("1") == None
    ensures ParseBool("yes") == None
  {
    assert AsciiLower("1") == "1";
    assert AsciiLower("yes") == "yes";
  }

  // ---------------------------------------------------------------------
  // Lookup by name
  // ---------------------------------------------------------------------

  /** The index `List.Find(device => device.DeviceName == deviceName)`
      stops at. */
  function NameIndex(devices: seq<DeviceRecord>, name: string): (r: Option<nat>)
    ensures r.Some? ==> r.value < |devices| && devices[r.value].deviceName == name
    ensures r.Some? ==> forall j :: 0 <= j < r.value ==> devices[j].deviceName != name
    ensures r.None? <==> name !in Names(devices)
  {
    if devices == [] then None
    else if devices[0].deviceName == name then Some(0)
    else
      assert Names(devices) == {devices[0].deviceName} + Names(devices[1..]);
      match NameIndex(devices[1..], name)
      case Some(k) => Some(k + 1)
      case None => None
  }

  /** `GetDeviceBluetoothByName`: the first listed device with the name, or
      null. */
  function FindByName(devices: seq<DeviceRecord>, name: string): (r: Option<DeviceRecord>)
    ensures r.Some? <==> name in Names(devices)
    ensures r.Some? ==> r.value in devices && r.value.deviceName == name
    ensures r.Some? ==> r.value.macAddress in Macs(devices)
  {
    match NameIndex(devices, name)
    case Some(k) => assert devices[k] in devices; Some(devices[k])
    case None => None
  }

  // ---------------------------------------------------------------------
  // The adapter
  // ---------------------------------------------------------------------

  /** The adapter's own events, each with the device list a subscriber sees
      when it is raised. */
  datatype AdapterEvent =
    | CheckBluetoothCompleted(status: bool)
    | DeviceStatusChanged(deviceList: seq<DeviceRecord>)
    | ScanDeviceCompleted(deviceList: seq<DeviceRecord>)
    | BluetoothDeviceInfoUpdate(devices: seq<DeviceRecord>)

  class MidiConnectionAdapter {
    /** `m_MidiConnector`. */
    const connector: MidiPluginConnector
    /** The events raised so far, oldest first. */
    var events: seq<AdapterEvent>
    /** How the forced reconnect that `Awake` runs ended: `OutOfFuel` when
        it entered the endless reconnect chain. */
    var awakeOutcome: Outcome

    predicate Valid()
      reads this, connector
    {
      connector.Valid()
    }

    /** `Awake`: a new connector, the two plugins initialised, then a forced
        reconnect. Automation is on from the start, so an automatic port
        whose device is not connected makes `Awake` itself enter the
        endless reconnect chain. */
    constructor(platform: seq<DeviceRecord>, fuel: nat)
      ensures fresh(connector) && Valid() && events == []
      ensures [InitBluetoothPlugin, InitMidiPlugin] <= connector.calls
      ensures connector.devices == DeviceUnion(platform) && Reconciled(connector.devices, connector.ports)
      ensures connector.isReconnectAutomation
      ensures awakeOutcome == OutOfFuel <==> HasActionable(connector.devices, Reconcile(DeviceUnion(platform), []))
      ensures awakeOutcome == Done ==>
                connector.ports == Reconcile(DeviceUnion(platform), [])
                && connector.calls == [InitBluetoothPlugin, InitMidiPlugin]
                                      + ReconnectPass(connector.devices, Reconcile(DeviceUnion(platform), []))
    {
      var c := new MidiPluginConnector();
      var outcome := c.InitAndForceReconnect(platform, fuel);
      connector := c;
      events := [];
      awakeOutcome := outcome;
    }

    /** `OnApplicationFocus`: regaining focus runs the status check; losing
        it does nothing. */
    method OnApplicationFocus(hasFocus: bool, platform: seq<DeviceRecord>, fuel: nat) returns (outcome: Outcome)
      requires Valid()
      modifies connector
      ensures Valid() && events == old(events)
      ensures !hasFocus ==> outcome == Done && connector.devices == old(connector.devices)
                            && connector.ports == old(connector.ports) && connector.calls == old(connector.calls)
      ensures hasFocus ==> connector.devices == DeviceUnion(platform)
      ensures hasFocus ==>
                Settles(connector.isReconnectAutomation, fuel, connector.devices,
                        Reconcile(DeviceUnion(platform), old(connector.ports)), outcome)
      ensures hasFocus && outcome == Done ==>
                connector.ports == Reconcile(DeviceUnion(platform), old(connector.ports))
                && connector.calls == old(connector.calls)
    {
      if hasFocus {
        outcome := connector.OnDeviceStatusChange(platform, fuel);
      } else {
        outcome := Done;
      }
    }

    /** `UpdateDeviceStatus`: the status check, then `OnDeviceStatusChanged`,
        raised only once the check has completed. */
    method UpdateDeviceStatus(platform: seq<DeviceRecord>, fuel: nat) returns (outcome: Outcome)
      requires Valid()
      modifies this, connector
      ensures Valid() && connector.devices == DeviceUnion(platform)
      ensures outcome == Done ==> events == old(events) + [DeviceStatusChanged(DeviceUnion(platform))]
      ensures outcome != Done ==> events == old(events)
      ensures Settles(connector.isReconnectAutomation, fuel, connector.devices,
                      Reconcile(DeviceUnion(platform), old(connector.ports)), outcome)
      ensures outcome == Done ==>
                connector.ports == Reconcile(DeviceUnion(platform), old(connector.ports))
                && connector.calls == old(connector.calls)
    {
      outcome := connector.OnDeviceStatusChange(platform, fuel);
      if outcome == Done {
        events := events + [DeviceStatusChanged(connector.devices)];
      }
    }

    /** `UpdateMidiDevice`: the connector's refresh of its device list. */
    method UpdateMidiDevice(platform: seq<DeviceRecord>)
      requires Valid()
      modifies connector
      ensures Valid() && events == old(events)
      ensures connector.devices == DeviceUnion(platform)
      ensures connector.ports == old(connector.ports) && connector.calls == old(connector.calls)
    {
      connector.UpdateMidiDevice(platform);
    }

    /** `ScanMidiBluetoothDeviceCompleted`: the device list is refreshed
        before `OnScanDeviceCompleted` is raised, so subscribers see the
        new list. */
    method ScanMidiBluetoothDeviceCompleted(platform: seq<DeviceRecord>)
      requires Valid()
      modifies this, connector
      ensures Valid() && connector.devices == DeviceUnion(platform)
      ensures events == old(events) + [ScanDeviceCompleted(DeviceUnion(platform))]
      ensures connector.ports == old(connector.ports) && connector.calls == old(connector.calls)
    {
      UpdateMidiDevice(platform);
      events := events + [ScanDeviceCompleted(connector.devices)];
    }

    /** `TickMidiBluetoothDeviceResult`: the plugin's Bluetooth listing
        (`GetMidiBluetoothDevices`, decoded), handed unchanged to
        `OnBluetoothDeviceInfoUpdate`; the connector is not consulted. */
    method TickMidiBluetoothDeviceResult(bluetoothDevices: seq<DeviceRecord>)
      modifies this
      ensures events == old(events) + [BluetoothDeviceInfoUpdate(bluetoothDevices)]
    {
      events := events + [BluetoothDeviceInfoUpdate(bluetoothDevices)];
    }

    /** `BluetoothResultStatusHandler(string)`: the status parsed as a
        boolean and handed to `OnCheckBluetoothCompleted`; text that is not
        a boolean throws, and nothing is raised. */
    method BluetoothResultStatusHandler(status: string) returns (outcome: Outcome)
      modifies this
      ensures outcome != OutOfFuel
      ensures outcome == Fault <==> ParseBool(status).None?
      ensures outcome == Done ==> events == old(events) + [CheckBluetoothCompleted(ParseBool(status).value)]
      ensures outcome == Fault ==> events == old(events)
    {
      var converted := ParseBool(status);
      if converted.None? {
        return Fault;
      }
      events := events + [CheckBluetoothCompleted(converted.value)];
      outcome := Done;
    }

    /** `OpenDeviceToPortByName`: the address of the first listed device
        with the name is opened; an unknown name is ignored. Because the
        address comes from the list, the address lookup cannot fail. */
    method OpenDeviceToPortByName(platform: seq<DeviceRecord>, deviceName: string, fuel: nat) returns (outcome: Outcome)
      requires Valid()
      modifies connector
      ensures Valid() && events == old(events)
      ensures outcome != Fault
      ensures deviceName !in Names(old(connector.devices)) ==>
                outcome == Done && connector.devices == old(connector.devices)
                && connector.ports == old(connector.ports) && connector.calls == old(connector.calls)
      ensures deviceName in Names(old(connector.devices)) ==>
                var mac := FindByName(old(connector.devices), deviceName).value.macAddress;
                && old(connector.calls) + [OpenDeviceToPort(mac), OpenMidiInputPort(InputName(old(connector.devices), mac))] <= connector.calls
                && (outcome == Done ==>
                      connector.ports == SetFirstFlag(Reconcile(DeviceUnion(platform), old(connector.ports)), mac, true))
    {
      var device := FindByName(connector.devices, deviceName);
      if device.None? {
        return Done;
      }
      outcome := connector.OpenDeviceToPortByAddress(platform, device.value.macAddress, fuel);
    }

    /** `CloseDeviceFromPortByName`: as the open, with the close. */
    method CloseDeviceFromPortByName(platform: seq<DeviceRecord>, deviceName: string, fuel: nat) returns (outcome: Outcome)
      requires Valid()
      modifies connector
      ensures Valid() && events == old(events)
      ensures outcome != Fault
      ensures deviceName !in Names(old(connector.devices)) ==>
                outcome == Done && connector.devices == old(connector.devices)
                && connector.ports == old(connector.ports) && connector.calls == old(connector.calls)
      ensures deviceName in Names(old(connector.devices)) ==>
                var mac := FindByName(old(connector.devices), deviceName).value.macAddress;
                && old(connector.calls) + [CloseDeviceFromPort(mac), CloseMidiInputPort(InputName(old(connector.devices), mac))] <= connector.calls
                && (outcome == Done ==>
                      connector.ports == SetFirstFlag(Reconcile(DeviceUnion(platform), old(connector.ports)), mac, false))
    {
      var device := FindByName(connector.devices, deviceName);
      if device.None? {
        return Done;
      }
      outcome := connector.CloseDeviceFromPortByAddress(platform, device.value.macAddress, fuel);
    }
  }
}
