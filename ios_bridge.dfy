/** The iOS `MidiPluginNativeBridge`: it keeps one adapter per reported
    device, rebuilt from scratch on every connect and disconnect
    notification, and sends LED and MIDI messages to the native side as
    (data, id) objects. The JSON encoding of those objects and of the
    device list is not modelled: the device list arrives decoded, and the
    objects sent are recorded as values. */
module IosBridge {
  import opened Text
  import opened DeviceData
  import opened Codecs

  /** `MidiMessageObject`: the bytes and the optional target id. */
  datatype MidiMessageObject = MidiMessageObject(data: seq<byte>, id: Option<int>)

  // ---------------------------------------------------------------------
  // The adapter list
  // ---------------------------------------------------------------------

  /** The adapters one reported device contributes: none when its address
      is not a 32-bit integer, otherwise the registry's choice for its id
      and name. */
  function AdapterOf(unseen: UnseenAdapters, d: DeviceRecord): (r: seq<MidiDeviceInfo>)
    ensures |r| <= 1
  {
    match TryParseInt32(d.macAddress)
    case None => []
    case Some(uniqueId) =>
      match AssertDevice(unseen, uniqueId, d.deviceName)
      case Some(adapter) => [adapter]
      case None => []
  }

  /** The adapter list `OnConnected` and `OnDisconnected` build from a
      device list, in list order. */
  function AdaptersFor(unseen: UnseenAdapters, list: seq<DeviceRecord>): (r: seq<MidiDeviceInfo>)
    ensures |r| <= |list|
  {
    if list == [] then []
    else AdaptersFor(unseen, list[..|list| - 1]) + AdapterOf(unseen, list[|list| - 1])
  }

  /** A device contributes an adapter exactly when its address is a 32-bit
      integer, and that adapter carries the parsed id and the device's
      name. */
  lemma AdapterOfMeaning(unseen: UnseenAdapters, d: DeviceRecord)
    ensures AdapterOf(unseen, d) != [] <==> TryParseInt32(d.macAddress).Some?
    ensures AdapterOf(unseen, d) != [] ==>
              AdapterOf(unseen, d)[0].uniqueId == TryParseInt32(d.macAddress).value
              && AdapterOf(unseen, d)[0].deviceName == d.deviceName
  {
  }

  /** The list of a concatenation is the concatenation of the lists: the
      adapters keep the order of their devices. */
  lemma {:induction false} AdaptersForAppend(unseen: UnseenAdapters, a: seq<DeviceRecord>, b: seq<DeviceRecord>)
    ensures AdaptersFor(unseen, a + b) == AdaptersFor(unseen, a) + AdaptersFor(unseen, b)
    decreases |b|
  {
    if b == [] {
      assert a + b == a;
    } else {
      var last := b[|b| - 1];
      assert (a + b)[..|a + b| - 1] == a + b[..|b| - 1];
      AdaptersForAppend(unseen, a, b[..|b| - 1]);
    }
  }

  /** Every adapter comes from a reported device whose address parses to
      its id, carries that device's name, and is the registry's choice for
      them. */
  lemma {:induction false} AdaptersComeFromDevices(unseen: UnseenAdapters, list: seq<DeviceRecord>)
    ensures forall a :: a in AdaptersFor(unseen, list) ==>
              (exists d :: d in list && TryParseInt32(d.macAddress) == Some(a.uniqueId) && d.deviceName == a.deviceName)
              && AssertDevice(unseen, a.uniqueId, a.deviceName) == Some(a)
  {
    if list != [] {
      var init := list[..|list| - 1];
      var last := list[|list| - 1];
      AdaptersComeFromDevices(unseen, init);
      forall a | a in AdaptersFor(unseen, list)
        ensures (exists d :: d in list && TryParseInt32(d.macAddress) == Some(a.uniqueId) && d.deviceName == a.deviceName)
                && AssertDevice(unseen, a.uniqueId, a.deviceName) == Some(a)
      {
        if a in AdaptersFor(unseen, init) {
          var d :| d in init && TryParseInt32(d.macAddress) == Some(a.uniqueId) && d.deviceName == a.deviceName;
          assert d in list;
        } else {
          assert a in AdapterOf(unseen, last);
          assert last in list;
        }
      }
    }
  }

  /** Every device whose address parses contributes its adapter. */
  lemma {:induction false} ParsedDevicesHaveAdapters(unseen: UnseenAdapters, list: seq<DeviceRecord>)
    ensures forall d :: d in list && TryParseInt32(d.macAddress).Some? ==>
              AssertDevice(unseen, TryParseInt32(d.macAddress).value, d.deviceName).value in AdaptersFor(unseen, list)
  {
    if list != [] {
      var init := list[..|list| - 1];
      var last := list[|list| - 1];
      ParsedDevicesHaveAdapters(unseen, init);
      forall d | d in list && TryParseInt32(d.macAddress).Some?
        ensures AssertDevice(unseen, TryParseInt32(d.macAddress).value, d.deviceName).value in AdaptersFor(unseen, list)
      {
        assert list == init + [last];
        if d != last {
          assert d in init;
        }
      }
    }
  }

  /** At most one adapter per device, and exactly one when every address
      parses. */
  lemma {:induction false} AdaptersForLength(unseen: UnseenAdapters, list: seq<DeviceRecord>)
    ensures |AdaptersFor(unseen, list)| <= |list|
    ensures (forall d :: d in list ==> TryParseInt32(d.macAddress).Some?) ==> |AdaptersFor(unseen, list)| == |list|
  {
    if list != [] {
      var init := list[..|list| - 1];
      AdaptersForLength(unseen, init);
      assert forall d :: d in init ==> d in list;
      assert list[|list| - 1] in list;
    }
  }

  // ---------------------------------------------------------------------
  // LED messages
  // ---------------------------------------------------------------------

  /** Whether `SendLedControlMessage` addresses an adapter: every adapter
      when no id is given, otherwise the adapters with that id. */
  predicate Addressed(a: MidiDeviceInfo, id: Option<int>)
  {
    id.None? || a.uniqueId == id.value
  }

  /** The objects `SendLedControlMessage` sends for an adapter list, in list
      order. */
  function LedMessages(unseen: UnseenAdapters, adapters: seq<MidiDeviceInfo>, isOn: bool, keyIndex: int, id: Option<int>)
    : (r: seq<MidiMessageObject>)
    ensures |r| <= |adapters|
  {
    if adapters == [] then []
    else
      var last := adapters[|adapters| - 1];
      LedMessages(unseen, adapters[..|adapters| - 1], isOn, keyIndex, id)
      + (if Addressed(last, id) then [MidiMessageObject(LedMessage(unseen, last, isOn, keyIndex), id)] else [])
  }

  /** One more adapter adds its own message, if it is addressed. */
  lemma LedMessagesStep(unseen: UnseenAdapters, adapters: seq<MidiDeviceInfo>, i: nat,
                        isOn: bool, keyIndex: int, id: Option<int>)
    requires i < |adapters|
    ensures LedMessages(unseen, adapters[..i + 1], isOn, keyIndex, id)
         == LedMessages(unseen, adapters[..i], isOn, keyIndex, id)
            + (if Addressed(adapters[i], id) then [MidiMessageObject(LedMessage(unseen, adapters[i], isOn, keyIndex), id)] else [])
  {
    assert adapters[..i + 1][..i] == adapters[..i];
  }

  /** Every message carries the id asked for. */
  lemma {:induction false} LedMessagesCarryId(unseen: UnseenAdapters, adapters: seq<MidiDeviceInfo>,
                                              isOn: bool, keyIndex: int, id: Option<int>)
    ensures forall m :: m in LedMessages(unseen, adapters, isOn, keyIndex, id) ==> m.id == id
  {
    if adapters != [] {
      LedMessagesCarryId(unseen, adapters[..|adapters| - 1], isOn, keyIndex, id);
    }
  }

  /** Every message holds the LED message of an addressed adapter. */
  lemma {:induction false} LedMessagesFromAddressed(unseen: UnseenAdapters, adapters: seq<MidiDeviceInfo>,
                                                    isOn: bool, keyIndex: int, id: Option<int>)
    ensures forall m :: m in LedMessages(unseen, adapters, isOn, keyIndex, id) ==>
              exists a :: a in adapters && Addressed(a, id) && m.data == LedMessage(unseen, a, isOn, keyIndex)
  {
    if adapters != [] {
      var init := adapters[..|adapters| - 1];
      var last := adapters[|adapters| - 1];
      LedMessagesFromAddressed(unseen, init, isOn, keyIndex, id);
      assert adapters == init + [last];
      forall a | a in init ensures a in adapters {
      }
    }
  }

  /** Without an id there is exactly one message per adapter, in list
      order. */
  lemma {:induction false} LedMessagesBroadcast(unseen: UnseenAdapters, adapters: seq<MidiDeviceInfo>,
                                                isOn: bool, keyIndex: int)
    ensures |LedMessages(unseen, adapters, isOn, keyIndex, None)| == |adapters|
    ensures forall i :: 0 <= i < |adapters| ==>
              LedMessages(unseen, adapters, isOn, keyIndex, None)[i]
              == MidiMessageObject(LedMessage(unseen, adapters[i], isOn, keyIndex), None)
  {
    if adapters != [] {
      var init := adapters[..|adapters| - 1];
      LedMessagesBroadcast(unseen, init, isOn, keyIndex);
      forall i | 0 <= i < |init| ensures adapters[i] == init[i] {
      }
    }
  }

  /** The messages for a concatenation are the messages for each part, and
      a single adapter gets exactly one message when it is addressed and
      none otherwise. Together these determine the messages: every
      addressed adapter gets exactly one, in adapter order. */
  lemma {:induction false} LedMessagesAppend(unseen: UnseenAdapters, a: seq<MidiDeviceInfo>, b: seq<MidiDeviceInfo>,
                                             x: MidiDeviceInfo, isOn: bool, keyIndex: int, id: Option<int>)
    ensures LedMessages(unseen, a + b, isOn, keyIndex, id)
         == LedMessages(unseen, a, isOn, keyIndex, id) + LedMessages(unseen, b, isOn, keyIndex, id)
    ensures LedMessages(unseen, [x], isOn, keyIndex, id)
         == (if Addressed(x, id) then [MidiMessageObject(LedMessage(unseen, x, isOn, keyIndex), id)] else [])
  {
    assert [x][..0] == [];
    if b == [] {
      assert a + b == a;
    } else {
      var init := b[..|b| - 1];
      assert (a + b)[..|a + b| - 1] == a + init;
      assert (a + b)[|a + b| - 1] == b[|b| - 1];
      LedMessagesAppend(unseen, a, init, x, isOn, keyIndex, id);
    }
  }

  /** With an id that no adapter has, nothing is sent. */
  lemma {:induction false} LedMessagesUnaddressed(unseen: UnseenAdapters, adapters: seq<MidiDeviceInfo>,
                                                  isOn: bool, keyIndex: int, id: Option<int>)
    requires forall a :: a in adapters ==> !Addressed(a, id)
    ensures LedMessages(unseen, adapters, isOn, keyIndex, id) == []
  {
    if adapters != [] {
      var init := adapters[..|adapters| - 1];
      forall a | a in init ensures !Addressed(a, id) {
        assert a in adapters;
      }
      LedMessagesUnaddressed(unseen, init, isOn, keyIndex, id);
    }
  }

  // ---------------------------------------------------------------------
  // The bridge
  // ---------------------------------------------------------------------

  class MidiPluginNativeBridge {
    /** The General, MasterRO and PopPiano adapters the registry consults. */
    const unseen: UnseenAdapters
    /** `m_MidiDeviceInfo`. */
    var adapters: seq<MidiDeviceInfo>
    /** `IsInitialized`. */
    var isInitialized: bool
    /** How many times this bridge's handlers are registered with the native
        connect and disconnect notifications. */
    var subscriptions: nat
    /** The objects handed to `sendMIDIMessage`, oldest first. */
    var sent: seq<MidiMessageObject>

    /** The handlers are registered once exactly when the bridge is
        initialised. */
    predicate Valid()
      reads this
    {
      subscriptions == if isInitialized then 1 else 0
    }

    constructor(unseen: UnseenAdapters)
      ensures this.unseen == unseen && Valid()
      ensures adapters == [] && !isInitialized && sent == []
    {
      this.unseen := unseen;
      adapters := [];
      isInitialized := false;
      subscriptions := 0;
      sent := [];
    }

    /** `Init`: the first call registers the handlers; later calls return at
        once, so the handlers are never registered twice. */
    method Init()
      requires Valid()
      modifies this
      ensures Valid() && isInitialized && subscriptions == 1
      ensures old(isInitialized) ==> subscriptions == old(subscriptions)
      ensures adapters == old(adapters) && sent == old(sent)
    {
      if isInitialized {
        return;
      }
      isInitialized := true;
      subscriptions := subscriptions + 1;
    }

    /** The shared body of `OnConnected` and `OnDisconnected`: clear the
        list, then add the registry's adapter for every device whose
        address parses as an `int`, in list order. */
    method RebuildAdapters(list: seq<DeviceRecord>)
      modifies this
      ensures adapters == AdaptersFor(unseen, list)
      ensures isInitialized == old(isInitialized) && subscriptions == old(subscriptions) && sent == old(sent)
    {
      adapters := [];
      var i := 0;
      while i < |list|
        invariant 0 <= i <= |list|
        invariant adapters == AdaptersFor(unseen, list[..i])
        invariant isInitialized == old(isInitialized) && subscriptions == old(subscriptions) && sent == old(sent)
      {
        assert list[..i + 1][..i] == list[..i];
        var deviceInfo := list[i];
        var uniqueId := TryParseInt32(deviceInfo.macAddress);
        if uniqueId.Some? {
          var adapter := AssertDevice(unseen, uniqueId.value, deviceInfo.deviceName);
          if adapter.Some? {
            adapters := adapters + [adapter.value];
          }
        }
        i := i + 1;
      }
      assert list[..|list|] == list;
    }

    /** `OnConnected`: the adapter list is rebuilt from the reported devices;
        nothing of the previous list survives. */
    method OnConnected(list: seq<DeviceRecord>)
      modifies this
      ensures adapters == AdaptersFor(unseen, list)
      ensures isInitialized == old(isInitialized) && subscriptions == old(subscriptions) && sent == old(sent)
    {
      RebuildAdapters(list);
    }

    /** `OnDisconnected`: the same rebuild as `OnConnected`. */
    method OnDisconnected(list: seq<DeviceRecord>)
      modifies this
      ensures adapters == AdaptersFor(unseen, list)
      ensures isInitialized == old(isInitialized) && subscriptions == old(subscriptions) && sent == old(sent)
    {
      RebuildAdapters(list);
    }

    /** `SendLedControlMessage`: with an id, one object per adapter with that
        id, tagged with the id; without, one object per adapter, untagged. */
    method SendLedControlMessage(isOn: bool, keyIndex: int, id: Option<int>)
      modifies this
      ensures sent == old(sent) + LedMessages(unseen, adapters, isOn, keyIndex, id)
      ensures adapters == old(adapters) && isInitialized == old(isInitialized) && subscriptions == old(subscriptions)
    {
      if id.Some? {
        SendLedToId(isOn, keyIndex, id.value);
      } else {
        SendLedToAll(isOn, keyIndex);
      }
    }

    /** The loop of `SendLedControlMessage` with an id. */
    method SendLedToId(isOn: bool, keyIndex: int, id: int)
      modifies this
      ensures sent == old(sent) + LedMessages(unseen, adapters, isOn, keyIndex, Some(id))
      ensures adapters == old(adapters) && isInitialized == old(isInitialized) && subscriptions == old(subscriptions)
    {
      ghost var all := adapters;
      var i := 0;
      while i < |adapters|
        invariant adapters == all && isInitialized == old(isInitialized) && subscriptions == old(subscriptions)
        invariant 0 <= i <= |all|
        invariant sent == old(sent) + LedMessages(unseen, all[..i], isOn, keyIndex, Some(id))
      {
        LedMessagesStep(unseen, all, i, isOn, keyIndex, Some(id));
        var deviceInfo := adapters[i];
        if deviceInfo.uniqueId == id {
          sent := sent + [MidiMessageObject(LedMessage(unseen, deviceInfo, isOn, keyIndex), Some(id))];
        }
        i := i + 1;
      }
      assert all[..|all|] == all;
    }

    /** The loop of `SendLedControlMessage` without an id. */
    method SendLedToAll(isOn: bool, keyIndex: int)
      modifies this
      ensures sent == old(sent) + LedMessages(unseen, adapters, isOn, keyIndex, None)
      ensures adapters == old(adapters) && isInitialized == old(isInitialized) && subscriptions == old(subscriptions)
    {
      ghost var all := adapters;
      var i := 0;
      while i < |adapters|
        invariant adapters == all && isInitialized == old(isInitialized) && subscriptions == old(subscriptions)
        invariant 0 <= i <= |all|
        invariant sent == old(sent) + LedMessages(unseen, all[..i], isOn, keyIndex, None)
      {
        LedMessagesStep(unseen, all, i, isOn, keyIndex, None);
        var deviceInfo := adapters[i];
        sent := sent + [MidiMessageObject(LedMessage(unseen, deviceInfo, isOn, keyIndex), None)];
        i := i + 1;
      }
      assert all[..|all|] == all;
    }

    /** `SendMidiEvent`: the data and the id, unchanged, as one object. */
    method SendMidiEvent(data: seq<byte>, id: Option<int>)
      modifies this
      ensures sent == old(sent) + [MidiMessageObject(data, id)]
      ensures adapters == old(adapters) && isInitialized == old(isInitialized) && subscriptions == old(subscriptions)
    {
      sent := sent + [MidiMessageObject(data, id)];
    }
  }

  /** Initialising twice is initialising once. */
  method InitTwice(unseen: UnseenAdapters) returns (bridge: MidiPluginNativeBridge)
    ensures bridge.isInitialized && bridge.subscriptions == 1 && bridge.adapters == [] && bridge.sent == []
  {
    bridge := new MidiPluginNativeBridge(unseen);
    bridge.Init();
    bridge.Init();
  }
}
