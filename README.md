# Notero MIDI plugin — a Dafny model

Notero is a piano-learning game built with Unity. Its MIDI plugin connects
the game to digital pianos, over USB and Bluetooth LE, on Android, iOS and
Windows. This project models the part of the plugin that decides what is
connected and what gets sent:

- **The game-side connector** (`MidiPluginConnector`,
  `connector.dfy`, `port_table.dfy`). It merges the platform's device
  lists into one duplicate-free list and keeps a table of ports, one per
  device address, each flagged automatic or manual. With reconnect
  automation on, it closes and reopens every automatic port whose device
  is not connected.
- **The Unity adapter** (`MidiConnectionAdapter`,
  `connection_adapter.dfy`). It forwards native callbacks to the connector
  and raises the game's events. It also parses the Bluetooth status text
  with .NET `bool.Parse` rules.
- **The device record and the two platform queries**
  (`MidiBluetoothDeviceData`, `GetMidiDevices`,
  `GetConnectedMidiDevices`, `device_data.dfy`).
- **Incoming MIDI.** On iOS a received message is classified by its status
  nibble. On Android the receiver encodes note messages as a
  comma-separated byte list, which the C# converter decodes again
  (`midi_events.dfy`).
- **Vendor adapters** (`codecs.dfy`, `native_adapters.dfy`). The adapter
  registry picks a vendor by device name, in a fixed order ending with
  the generic piano. Each vendor has its own LED and volume System
  Exclusive / Control Change messages. RGB and Starlight also have Kotlin
  implementations.
- **The iOS native bridge** (`MidiPluginNativeBridge`, `ios_bridge.dfy`).
  It rebuilds its adapter list from every connection report and
  addresses LED messages by device id.
- **The Android plugin** (`MidiBluetoothPlugin.kt`, `native_plugin.dfy`).
  Its Bluetooth LE scan results, the before- and after-scan hooks, the
  Bluetooth and MIDI device listings, Bluetooth connect and disconnect,
  port opening and closing, and the platform's device-added and
  device-removed callbacks. The scan state machine of
  `BluetoothScanManager` is in `scan_manager.dfy`.

Conventions of the model:

- Bytes are the integer newtype `Text.byte` (0..255). C# `(byte)` casts
  and Kotlin `toByte()` are written out as reduction modulo 256.
- Strings are `seq<char>`, and parsing follows the .NET or Kotlin rules
  that the code uses: `byte.Parse`, `int.TryParse`, `bool.Parse`,
  `String.toInt`, `Int.toString`.
- Calls into the operating system, into Unity and into native code are
  recorded, in order, in a trace field of the object making them: `calls`,
  `effects`, `sent`, `events` or `scannerCalls`.
- What the platform answers is a parameter. The device list the platform
  reports (`platform`) is fixed for the duration of one synchronous call
  chain. Platform opens complete later, through their callbacks.
- Asynchronous callbacks are methods of their own:
  `OnBluetoothDeviceOpened`, `OnMidiDeviceOpened`, and `TimerFires` for
  the delayed scan stop. Each requires that the matching request is
  already in the trace.
- The connector's methods call each other recursively, exactly as the
  source does. That recursion is bounded by a `fuel` parameter. The
  outcome `OutOfFuel` marks a chain that, in the source, never returns.
  `Fault` marks the null dereference that follows a failed lookup.

Behaviour of the code, as the model states it:

- **The reconnect loop never ends.** With reconnect automation on, any
  automatic port whose device is not connected makes the status check
  recurse without end. Reopening the port re-enters the status check,
  which finds the same port out of sync again. See "## Findings".
- **The reconnect pass.** Without automation, and in the corrected
  method `ReconnectEachOnce`, each actionable port is closed and reopened
  exactly once, in table order.
- **Out of sync without anything to reconnect.** The "out of sync" test
  can hold when no port is reconnectable: one address reported under two
  names, one connected (`OutOfSyncWithoutActionable`).
- **Unknown addresses.** Closing or opening the port of an unknown
  address makes the Bluetooth call first and then faults.
- **Duplicate scan entries.** A rescan appends a second entry for a device
  that is still listed (`RescanAppendsSecondEntry`).
- **Listing after a disconnect.** A disconnected Bluetooth device stays in
  the listing as connected until the platform removes it
  (`DisconnectedStillListedConnected`).
- **Scan timer.** The delayed stop of an earlier scan ends a later one.
- **Lost scanner.** When the scanner disappears during a scan, that scan's
  after hooks never run.
- **RGB messages differ by platform.**
  - LED: the Kotlin RGB encoder sets byte 6 to `02` when the LED is on;
    the C# encoder leaves it `00`.
  - Volume: the Kotlin RGB volume message starts with `0xBF`; the C# one
    starts with `0xFB`, which is not a Control Change status.
- **GZUT volume.** The GZUT volume method overwrites offset 2 three times
  and returns `F0 AF F7 00 00`, whatever the percentage. The three values
  written there (`0x70`, the scaled volume, `0xF7`) suggest that offsets 2,
  3 and 4 were meant, giving `F0 AF 70 <scaled> F7`; the model follows the
  code.

## Model

| member | source | states |
|---|---|---|
| Text.HighBits | Packages/NoteroMidiPlugin/Runtime/MidiBluetoothPlugin.cs:644 | the `& 0xF0` mask: a multiple of 16, not above the byte and within 16 of it |
| Text.LowBits | Packages/NoteroMidiPlugin/Runtime/MidiBluetoothPlugin.cs:642 | the `& 0x0F` channel mask: below 16, and high and low nibble add up to the byte |
| Text.LowByte | Packages/NoteroMidiPlugin/Runtime/MidiMessageHandler/GenericPiano.cs:29 | the unchecked `(byte)` cast: the identity on 0..255 and otherwise congruent to the input modulo 256 |
| Text.AsciiLower | Packages/NoteroMidiPlugin/Runtime/MidiMessageHandler/Starlight.cs:15 | `ToLower` keeps the length, maps every character on its own and leaves no upper-case ASCII letter |
| Text.AsciiLowerIdempotent | Packages/NoteroMidiPlugin/Runtime/MidiMessageHandler/Starlight.cs:15 | lower-casing an already lower-cased name changes nothing |
| Text.Split | Packages/NoteroMidiPlugin/Runtime/MidiBluetoothPlugin.cs:158 | `Split(",")` yields at least one part and no part contains the separator |
| Text.SplitWithoutSeparator | Packages/NoteroMidiPlugin/Runtime/MidiBluetoothPlugin.cs:158 | a string without a comma splits into itself alone |
| Text.SplitLeadingPart | Packages/NoteroMidiPlugin/Runtime/MidiBluetoothPlugin.cs:158 | splitting `p,rest` gives `p` followed by the parts of `rest` |
| Text.Join | Packages/NoteroMidiPlugin/Runtime/Native/MidiBluetoothPlugin.kt:40 | `joinToString` of a non-empty list: the text begins with the first part (`SplitJoin` splits it back into the parts) |
| Text.SplitJoin | Packages/NoteroMidiPlugin/Runtime/Native/MidiBluetoothPlugin.kt:40 | splitting what `joinToString(",")` built gives back the parts, when no part contains a comma |
| Text.JoinSplit | Packages/NoteroMidiPlugin/Runtime/MidiBluetoothPlugin.cs:158 | joining the parts of a split with the separator gives back the string |
| Text.NatToDecimal | Packages/NoteroMidiPlugin/Runtime/Native/MidiBluetoothPlugin.kt:40 | Kotlin `Int.toString` of a non-negative value: non-empty digits, no leading zero, whose decimal value is the number |
| Text.TrimStart | Packages/NoteroMidiPlugin/Runtime/MidiBluetoothPlugin.cs:159 | the white space `byte.Parse` skips in front: what remains does not start with white space |
| Text.TrimEnd | Packages/NoteroMidiPlugin/Runtime/MidiBluetoothPlugin.cs:159 | the white space `byte.Parse` skips at the end: what remains does not end with white space |
| Text.TrimStartMeaning | Packages/NoteroMidiPlugin/Runtime/MidiBluetoothPlugin.cs:159 | what `TrimStart` drops is all white space and what it keeps is the rest of the text |
| Text.TrimEndMeaning | Packages/NoteroMidiPlugin/Runtime/MidiBluetoothPlugin.cs:159 | what `TrimEnd` drops is all white space and what it keeps is the front of the text |
| Text.ParseInteger | Packages/NoteroMidiPlugin/Runtime/MidiBluetoothPlugin.cs:159 | the .NET `Integer`-style parse behind `byte.Parse` and `int.TryParse`: text made only of white space fails |
| Text.ParseIntegerMeaning | Packages/NoteroMidiPlugin/Runtime/MidiBluetoothPlugin.cs:159 | the integer parse reads a bare run of digits as its decimal value, and gives a negative value only when the text has a minus sign |
| Text.DecimalIsTrimmed | Packages/NoteroMidiPlugin/Runtime/MidiBluetoothPlugin.cs:159 | a printed number has no white space to trim |
| Text.ParseIntegerOfDecimal | Packages/NoteroMidiPlugin/Runtime/MidiBluetoothPlugin.cs:159 | parsing a printed non-negative number gives the number back |
| Text.ParseByte | Packages/NoteroMidiPlugin/Runtime/MidiBluetoothPlugin.cs:159 | `byte.Parse` succeeds iff the integer parse succeeds with a value in 0..255, and then gives that value |
| Text.ParseByteOfDecimal | Packages/NoteroMidiPlugin/Runtime/MidiBluetoothPlugin.cs:159 | `byte.Parse` of a printed number gives it back below 256 and fails from 256 on |
| Text.TryParseInt32 | Packages/NoteroMidiPlugin/Runtime/MidiPlugin.cs:268 | `int.TryParse` succeeds exactly when the integer parse succeeds with a value in the 32-bit range, and then gives that value |
| DeviceData.NewDeviceRecord | Packages/NoteroMidiPlugin/Runtime/MidiBluetoothPlugin.cs:122-130 | construction fails exactly when the address is null; otherwise every field holds the argument given |
| DeviceData.HashKey | Packages/NoteroMidiPlugin/Runtime/MidiBluetoothPlugin.cs:142-145 | the hash key is the address, a dash, then the name |
| DeviceData.SameDeviceIgnoresState | Packages/NoteroMidiPlugin/Runtime/MidiBluetoothPlugin.cs:132-145 | two records are equal iff address and name agree, whatever their connection flag, type and ids; equal records have equal hash keys |
| DeviceData.HashKeyCollision | Packages/NoteroMidiPlugin/Runtime/MidiBluetoothPlugin.cs:142-145 | different records can share a hash key (`"A-B"`,`"C"` and `"A"`,`"B-C"`), so equality, not the key, tells them apart |
| DeviceData.NotConnectedDevices | Packages/NoteroMidiPlugin/Runtime/MidiBluetoothPlugin.cs:263-271 | `GetMidiDevices` keeps exactly the entries that are not connected |
| DeviceData.ConnectedDevices | Packages/NoteroMidiPlugin/Runtime/MidiBluetoothPlugin.cs:273-281 | `GetConnectedMidiDevices` keeps exactly the connected entries |
| DeviceData.QueriesPartition | Packages/NoteroMidiPlugin/Runtime/MidiBluetoothPlugin.cs:562-588 | the two queries over one list partition it: together they hold every entry exactly as often as the list does |
| DeviceData.QueriesPreserveOrder | Packages/NoteroMidiPlugin/Runtime/MidiBluetoothPlugin.cs:263-281 | each query keeps list order: the query of a concatenation is the concatenation of the queries, and one entry is kept iff it passes the test, which pins each query to the order-preserving filter |
| DeviceData.FirstWithKey | Assets/Notero/MidiPluginConnection/MidiPluginConnector.cs:98 | the first entry with an (address, name) key, present iff some entry has the key |
| DeviceData.FirstWithKeyAppend | Assets/Notero/MidiPluginConnection/MidiPluginConnector.cs:98 | in a concatenation the first entry with a key comes from the first part whenever that part has the key |
| DeviceData.DistinctAfter | Assets/Notero/MidiPluginConnection/MidiPluginConnector.cs:98 | LINQ `Union`'s enumeration yields exactly the keys of its input that were not seen before |
| DeviceData.DistinctAfterNoDuplicates | Assets/Notero/MidiPluginConnection/MidiPluginConnector.cs:98 | the enumeration yields no two entries with the same key |
| DeviceData.DistinctAfterKeepsFirst | Assets/Notero/MidiPluginConnection/MidiPluginConnector.cs:98 | each entry yielded is the first in the input with its key |
| DeviceData.Union | Assets/Notero/MidiPluginConnection/MidiPluginConnector.cs:98 | LINQ `Union` of two lists: no key twice, and the keys are exactly those of either list |
| DeviceData.DeviceUnion | Assets/Notero/MidiPluginConnection/MidiPluginConnector.cs:98 | the connected records unioned with the other records: no key twice, and exactly the keys the platform reported |
| DeviceData.DeviceUnionProperties | Assets/Notero/MidiPluginConnection/MidiPluginConnector.cs:93-99 | the merged device list holds every reported (address, name) exactly once, only reported entries, and a key reported connected appears as connected |
| MidiEvents.OnMidiReceived | Packages/NoteroMidiPlugin/Runtime/MidiBluetoothPlugin.cs:637-663 | empty data raises nothing; status `9n` raises NoteOn(data[1], data[2], n), `8n` NoteOff, each followed by the raw bytes; any other status only the raw bytes |
| MidiEvents.RawBytesAlwaysLast | Packages/NoteroMidiPlugin/Runtime/MidiBluetoothPlugin.cs:660-662 | every non-empty message reaches the raw-bytes event exactly once, as the last event |
| MidiEvents.DecimalParts | Packages/NoteroMidiPlugin/Runtime/Native/MidiBluetoothPlugin.kt:40 | one decimal text per value, in order |
| MidiEvents.JoinDecimals | Packages/NoteroMidiPlugin/Runtime/Native/MidiBluetoothPlugin.kt:40 | the `joinToString(",")` text of the values splits at its commas back into their decimal texts |
| MidiEvents.EventInfo | Packages/NoteroMidiPlugin/Runtime/Native/MidiBluetoothPlugin.kt:35-41 | note and velocity are bytes 2 and 3, the channel is the low nibble of byte 0 |
| MidiEvents.OnSend | Packages/NoteroMidiPlugin/Runtime/Native/MidiBluetoothPlugin.kt:34-52 | the raw-bytes message always goes first; a second message is NoteOn iff byte 1 is in 0x90..0x9F, NoteOff iff in 0x80..0x8F, and there is none otherwise |
| MidiEvents.PlatformsAgreeOnNoteOn | Packages/NoteroMidiPlugin/Runtime/Native/MidiBluetoothPlugin.kt:45 | on the same channel message the Android receiver reports a note-on exactly when the iOS classifier does |
| MidiEvents.ParseBytes | Packages/NoteroMidiPlugin/Runtime/MidiBluetoothPlugin.cs:159 | the byte list parses iff every part is a valid byte, and then holds those bytes in order |
| MidiEvents.ParseMidiMessage | Packages/NoteroMidiPlugin/Runtime/MidiBluetoothPlugin.cs:158-159 | a decoded message has one byte per comma-separated part |
| MidiEvents.DecodeEventInfo | Packages/NoteroMidiPlugin/Runtime/MidiBluetoothPlugin.cs:155-166 | decoding succeeds iff `midiMessage` parses; note id and velocity are copied unchanged |
| MidiEvents.EmptyPartFails | Packages/NoteroMidiPlugin/Runtime/MidiBluetoothPlugin.cs:158-159 | an empty element (`"1,,2"`, a trailing comma) makes the whole decode fail |
| MidiEvents.EventInfoRoundTrip | Packages/NoteroMidiPlugin/Runtime/MidiBluetoothPlugin.cs:155-166 | decoding what the Android receiver encodes gives back its command, note, velocity and channel bytes |
| Codecs.Accepts | Packages/NoteroMidiPlugin/Runtime/MidiMessageHandler/Starlight.cs:13-18 | each adapter's name test: the generic piano takes every name, and a visible vendor only names at least as long as its shortest prefix |
| Codecs.AssertWith | Packages/NoteroMidiPlugin/Runtime/MidiMessageHandler/Starlight.cs:13-18 | a vendor's assertion returns an adapter iff it recognises the name, carrying exactly the id and name passed in |
| Codecs.AcceptsIgnoresCase | Packages/NoteroMidiPlugin/Runtime/MidiMessageHandler/Starlight.cs:15 | a visible vendor recognises a name iff it recognises its lower-cased form |
| Codecs.VisibleVendorsDisjoint | Packages/NoteroMidiPlugin/Runtime/MidiMessageHandler/AdapterRegister.cs:10-19 | no name is recognised by two of Starlight, GZUT, DreamSAS and RGB, so their relative order never decides |
| Codecs.StarlightExamples | Packages/NoteroMidiPlugin/Runtime/MidiMessageHandler/Starlight.cs:13-18 | `"HOLTEK USB DEVICE-1"` is recognised, `"holtek usb devi"` is not |
| Codecs.FirstMatch | Packages/NoteroMidiPlugin/Runtime/MidiMessageHandler/AdapterRegister.cs:21-24 | the first non-null assertion: none iff every assertion rejects; otherwise a recognising vendor with the id and name passed in |
| Codecs.FirstMatchIsFirst | Packages/NoteroMidiPlugin/Runtime/MidiMessageHandler/AdapterRegister.cs:21-24 | the first assertion in list order that recognises the name is the one whose adapter is returned |
| Codecs.FirstMatchChoice | Packages/NoteroMidiPlugin/Runtime/MidiMessageHandler/AdapterRegister.cs:21-24 | in a registration list without repeats, position i is chosen iff it recognises the name and every earlier one rejects it |
| Codecs.AssertDevice | Packages/NoteroMidiPlugin/Runtime/MidiMessageHandler/AdapterRegister.cs:21-24 | never null, because the catch-all comes last, and carries the id and name passed in |
| Codecs.AssertDeviceChoice | Packages/NoteroMidiPlugin/Runtime/MidiMessageHandler/AdapterRegister.cs:10-19 | the vendor at position i is chosen iff it recognises the name and every earlier one rejects it |
| Codecs.UnknownNameIsGeneric | Packages/NoteroMidiPlugin/Runtime/MidiMessageHandler/GenericPiano.cs:14-17 | a name the seven earlier assertions reject gets the generic adapter |
| Codecs.StandardLedMessage | Packages/NoteroMidiPlugin/Runtime/MidiMessageHandler/GenericPiano.cs:19-34 | eight bytes framed `F0 … F7` whose key byte is keyIndex modulo 256 |
| Codecs.RgbLedMessage | Packages/NoteroMidiPlugin/Runtime/MidiMessageHandler/RGBPiano.cs:20-35 | every byte of `F0 19 k 00 s 00 00 F7`: the key byte is keyIndex mod 256 and `s` is 7F when on, 00 when off |
| Codecs.StandardLedRoundTrip | Packages/NoteroMidiPlugin/Runtime/MidiMessageHandler/GenericPiano.cs:19-34 | decoding the message gives back the state and the key's low byte, and every message the decoder accepts is the encoding of what it decodes |
| Codecs.StandardLedKeyWraps | Packages/NoteroMidiPlugin/Runtime/MidiMessageHandler/GenericPiano.cs:29 | keyIndex and keyIndex + 256 give the same message |
| Codecs.StandardLedIsSysEx | Packages/NoteroMidiPlugin/Runtime/MidiMessageHandler/GenericPiano.cs:19-34 | the message is well-formed System Exclusive (all data bytes below 0x80) iff keyIndex modulo 256 is below 0x80 |
| Codecs.RgbLedRoundTrip | Packages/NoteroMidiPlugin/Runtime/MidiMessageHandler/RGBPiano.cs:20-35 | an independent decoder gives back (isOn, key byte) from every RGB LED message, and every message it accepts is the encoding of what it decodes to |
| Codecs.RgbLedIsSysEx | Packages/NoteroMidiPlugin/Runtime/MidiMessageHandler/RGBPiano.cs:20-35 | the RGB message is well-formed System Exclusive iff keyIndex modulo 256 is below 0x80 |
| Codecs.RgbLedExample | Packages/NoteroMidiPlugin/Runtime/MidiMessageHandler/RGBPiano.cs:22-32 | LED(true, 5) is `F0 19 05 00 7F 00 00 F7` |
| Codecs.StarlightVolumeMessage | Packages/NoteroMidiPlugin/Runtime/MidiMessageHandler/Starlight.cs:37-48 | four bytes of well-formed System Exclusive |
| Codecs.DreamSasVolumeMessage | Packages/NoteroMidiPlugin/Runtime/MidiMessageHandler/DramSAS.cs:37-47 | a Control Change on channel 16 to controller 0x7A |
| Codecs.RgbVolumeMessage | Packages/NoteroMidiPlugin/Runtime/MidiMessageHandler/RGBPiano.cs:37-47 | three bytes with 0x7A in the middle |
| Codecs.GenericVolumeMessage | Packages/NoteroMidiPlugin/Runtime/MidiMessageHandler/GenericPiano.cs:36-39 | empty for every percentage |
| Codecs.GzutVolumeMessage | Packages/NoteroMidiPlugin/Runtime/MidiMessageHandler/GZUTPiano.cs:37-49 | after the three writes to offset 2 the buffer is `F0 AF F7 00 00`, whatever the percentage and the scaled value |
| Codecs.VolumeMessagesCarryMute | Packages/NoteroMidiPlugin/Runtime/MidiMessageHandler/Starlight.cs:37-48 | Starlight, DreamSAS and RGB volume messages decode to "percent is not zero", and two percentages give the same message iff both or neither are zero |
| Codecs.DreamSasMuteExample | Packages/NoteroMidiPlugin/Runtime/MidiMessageHandler/DramSAS.cs:39-45 | volume 0 is `BF 7A 00` |
| Codecs.RgbVolumeIsNotControlChange | Packages/NoteroMidiPlugin/Runtime/MidiMessageHandler/RGBPiano.cs:42 | the RGB status byte 0xFB is not a Control Change status |
| Codecs.LedMessage | Packages/NoteroMidiPlugin/Runtime/MidiPlugin.cs:27 | the LED encoder by vendor: the RGB layout for RGB pianos, the standard layout for the other visible vendors |
| NativeAdapters.RgbAccepts | Packages/NoteroMidiPlugin/Runtime/Native/midiDeviceAdapter/RGBPiano.kt:28-31 | the Kotlin RGB test rejects a null or empty `product` property |
| NativeAdapters.StarlightAccepts | Packages/NoteroMidiPlugin/Runtime/Native/midiDeviceAdapter/Starlight.kt:34-37 | the Kotlin Starlight test rejects a null or empty `name` property |
| NativeAdapters.NameTestsAgreeWithCSharp | Packages/NoteroMidiPlugin/Runtime/Native/midiDeviceAdapter/RGBPiano.kt:28-36 | the Kotlin RGB and Starlight name tests accept iff the property is present and the C# test accepts it; a null property never matches |
| NativeAdapters.NativeRgbLedMessage | Packages/NoteroMidiPlugin/Runtime/Native/midiDeviceAdapter/RGBPiano.kt:41-56 | every byte of `F0 19 k 00 s 00 t F7`: the key byte is keyIndex mod 256, `s` is 7F when on and 00 when off, `t` is 02 when on and 00 when off |
| NativeAdapters.RgbLedPlatformsDiffer | Packages/NoteroMidiPlugin/Runtime/Native/midiDeviceAdapter/RGBPiano.kt:44-55 | the Kotlin RGB LED message differs from the C# one only at offset 6 (02 when on), so they agree exactly for "off" |
| NativeAdapters.RgbVolumePlatformsDiffer | Packages/NoteroMidiPlugin/Runtime/Native/midiDeviceAdapter/RGBPiano.kt:58-67 | the Kotlin RGB volume message starts with 0xBF where the C# one has 0xFB; the other bytes agree |
| NativeAdapters.RgbPianoAdapter.constructor | Packages/NoteroMidiPlugin/Runtime/Native/midiDeviceAdapter/RGBPiano.kt:10-13 | the adapter sends through the input port it is given |
| NativeAdapters.RgbPianoAdapter.SendLedControlMessage | Packages/NoteroMidiPlugin/Runtime/Native/midiDeviceAdapter/RGBPiano.kt:41-56 | exactly one send, of the Kotlin RGB LED message |
| NativeAdapters.RgbPianoAdapter.SendVolumeControlMessage | Packages/NoteroMidiPlugin/Runtime/Native/midiDeviceAdapter/RGBPiano.kt:58-67 | exactly one send, of `BF 7A b` with b = 1 iff the percentage is not zero |
| NativeAdapters.RgbPianoAdapter.SendMidiEvent | Packages/NoteroMidiPlugin/Runtime/Native/midiDeviceAdapter/RGBPiano.kt:69-71 | the whole buffer is sent unchanged and the buffer is left as it was |
| NativeAdapters.RgbPianoAdapter.IsInteractiveAfterMute | Packages/NoteroMidiPlugin/Runtime/Native/midiDeviceAdapter/RGBPiano.kt:73-75 | always false |
| NativeAdapters.StarlightAdapter.constructor | Packages/NoteroMidiPlugin/Runtime/Native/midiDeviceAdapter/Starlight.kt:16-19 | the adapter sends through the input port it is given |
| NativeAdapters.StarlightAdapter.SendLedControlMessage | Packages/NoteroMidiPlugin/Runtime/Native/midiDeviceAdapter/Starlight.kt:47-61 | exactly one send, of the same LED message as the C# Starlight encoder |
| NativeAdapters.StarlightAdapter.SendVolumeControlMessage | Packages/NoteroMidiPlugin/Runtime/Native/midiDeviceAdapter/Starlight.kt:63-72 | exactly one send, of the same volume message as the C# Starlight encoder |
| NativeAdapters.StarlightAdapter.SendMidiEvent | Packages/NoteroMidiPlugin/Runtime/Native/midiDeviceAdapter/Starlight.kt:74-76 | the whole buffer is sent unchanged and the buffer is left as it was |
| PortTable.NewPort | Assets/Notero/MidiPluginConnection/MidiPluginConnector.cs:14 | a new port carries the address and is automatic |
| PortTable.DistinctMacsAfter | Assets/Notero/MidiPluginConnection/MidiPluginConnector.cs:104 | the `HashSet` of addresses: each listed address not yet seen, once |
| PortTable.KeepPresent | Assets/Notero/MidiPluginConnection/MidiPluginConnector.cs:105 | exactly the ports whose address is listed, keeping unique addresses unique |
| PortTable.NewPorts | Assets/Notero/MidiPluginConnection/MidiPluginConnector.cs:107-111 | exactly one automatic port for each listed address that has no port yet |
| PortTable.Reconcile | Assets/Notero/MidiPluginConnection/MidiPluginConnector.cs:101-114 | every port left has a listed address, every port whose address is listed is kept as it was, and every port added is automatic |
| PortTable.ReconcileProperties | Assets/Notero/MidiPluginConnection/MidiPluginConnector.cs:101-114 | after the refresh every listed address has exactly one port and no other port is left; surviving ports are unchanged, new ones automatic |
| PortTable.ReconcileFixpoint | Assets/Notero/MidiPluginConnection/MidiPluginConnector.cs:101-114 | a table that already matches the list is left as it is |
| PortTable.NoNewPorts | Assets/Notero/MidiPluginConnection/MidiPluginConnector.cs:107-111 | no port is added when every address already has one |
| PortTable.KeepAll | Assets/Notero/MidiPluginConnection/MidiPluginConnector.cs:105 | nothing is dropped when every port's address is listed |
| PortTable.ReconcileIdempotent | Assets/Notero/MidiPluginConnection/MidiPluginConnector.cs:101-114 | a second refresh with the same device list changes nothing |
| PortTable.FirstIndex | Assets/Notero/MidiPluginConnection/MidiPluginConnector.cs:76 | `FirstOrDefault`: the first port with the address, absent iff no port has it |
| PortTable.SetFirstFlag | Assets/Notero/MidiPluginConnection/MidiPluginConnector.cs:76-77 | the table keeps its length, an unknown address changes nothing, and for a known one a port with that address and the new flag is in the table |
| PortTable.SetFirstFlagSpec | Assets/Notero/MidiPluginConnection/MidiPluginConnector.cs:76-77 | only the first port with the address gets the flag; every other port and every address stay, and an unknown address changes nothing |
| PortTable.SetFlagAtIndex | Assets/Notero/MidiPluginConnection/MidiPluginConnector.cs:76-77 | with unique addresses, setting by address is an update of that one index |
| PortTable.SetFirstFlagKeepsAddresses | Assets/Notero/MidiPluginConnection/MidiPluginConnector.cs:76-77 | setting a flag keeps the set of addresses, their uniqueness and the match with the device list |
| PortTable.FlagRoundTrip | Assets/Notero/MidiPluginConnection/MidiPluginConnector.cs:116-128 | closing then reopening an automatic port gives back the same table |
| PortTable.OutOfSync | Assets/Notero/MidiPluginConnection/MidiPluginConnector.cs:151-158 | all devices connected means in sync; an unconnected device whose address has no port means out of sync |
| PortTable.NeedsReconnect | Assets/Notero/MidiPluginConnection/MidiPluginConnector.cs:88 | the status check's condition: an empty device list always needs it, and a non-empty list of connected devices never does |
| PortTable.ActionableMeansOutOfSync | Assets/Notero/MidiPluginConnection/MidiPluginConnector.cs:146-158 | on a refreshed table an automatic port with an unconnected device makes the list out of sync, and conversely when no address is listed twice |
| PortTable.OutOfSyncWithoutActionable | Assets/Notero/MidiPluginConnection/MidiPluginConnector.cs:151-158 | one address under two names, one connected: out of sync, yet no port to reconnect |
| PortTable.FindByAddress | Assets/Notero/MidiPluginConnection/MidiPluginConnector.cs:130-133 | `List.Find` by address: present iff listed, and then the first listed entry with the address |
| PortTable.InputNameListed | Assets/Notero/MidiPluginConnection/MidiPluginConnector.cs:119 | the input port of a listed address is opened under the name of a listed device with that address |
| PortTable.ActionableMacs | Assets/Notero/MidiPluginConnection/MidiPluginConnector.cs:137-139 | the addresses of the automatic ports whose device is not connected, in table order, each once |
| PortTable.CycleAddresses | Assets/Notero/MidiPluginConnection/MidiPluginConnector.cs:139-142 | one port's step closes and reopens its address once if actionable, and nothing otherwise |
| PortTable.ReconnectPassOnce | Assets/Notero/MidiPluginConnection/MidiPluginConnector.cs:135-144 | the corrected pass closes and then reopens each actionable address exactly once, in table order, four calls per port |
| PortTable.ReconnectPassSafe | Assets/Notero/MidiPluginConnection/MidiPluginConnector.cs:135-144 | every call of the corrected pass targets a listed, unconnected device or a listed name |
| PortTable.NothingToReconnect | Assets/Notero/MidiPluginConnection/MidiPluginConnector.cs:135-144 | the corrected pass makes no call iff no port is actionable |
| PortTable.ReconnectPassAppend | Assets/Notero/MidiPluginConnection/MidiPluginConnector.cs:137 | the pass visits the ports in table order |
| Connector.MidiPluginConnector.constructor | Assets/Notero/MidiPluginConnection/MidiPluginConnector.cs:28-47 | empty device list and port table, reconnect automation on, no calls |
| Connector.MidiPluginConnector.Init | Assets/Notero/MidiPluginConnection/MidiPluginConnector.cs:49-53 | the Bluetooth plugin, then the MIDI plugin, are initialised and nothing else changes |
| Connector.MidiPluginConnector.UpdateMidiDevice | Assets/Notero/MidiPluginConnection/MidiPluginConnector.cs:93-99 | the device list becomes the duplicate-free union of the connected and the other records; ports and calls stay |
| Connector.MidiPluginConnector.UpdateMidiDeviceFromPort | Assets/Notero/MidiPluginConnection/MidiPluginConnector.cs:101-114 | the table becomes the refreshed table and matches the device list |
| Connector.MidiPluginConnector.OnDeviceStatusChange | Assets/Notero/MidiPluginConnection/MidiPluginConnector.cs:82-91 | refresh, then: no automation or nothing out of sync ends at once with no call; with automation and an actionable port the chain never ends (OutOfFuel); otherwise it ends with the refreshed table |
| Connector.MidiPluginConnector.SetMidiPortToAutoConnection | Assets/Notero/MidiPluginConnection/MidiPluginConnector.cs:70-80 | refresh, flag the first port with the address, then the status check on that table |
| Connector.MidiPluginConnector.CloseDeviceFromPortByAddress | Assets/Notero/MidiPluginConnection/MidiPluginConnector.cs:123-128 | the Bluetooth close comes before the input-port close under the device's name; an unlisted address faults right after the Bluetooth call; otherwise the port is made manual and the status check runs on that table |
| Connector.MidiPluginConnector.OpenDeviceToPortByAddress | Assets/Notero/MidiPluginConnection/MidiPluginConnector.cs:116-121 | the Bluetooth open comes before the input-port open; an unlisted address faults right after the Bluetooth call; otherwise the port is made automatic and the status check runs on that table |
| Connector.MidiPluginConnector.ReopenPort | Assets/Notero/MidiPluginConnection/MidiPluginConnector.cs:141-142 | reopening an actionable port never settles under automation, and without it makes exactly the close/open step |
| Connector.MidiPluginConnector.ReconnectStep | Assets/Notero/MidiPluginConnection/MidiPluginConnector.cs:139-142 | a port with a connected device, or a manual one, is skipped |
| Connector.MidiPluginConnector.ReconnectMidiDevice | Assets/Notero/MidiPluginConnection/MidiPluginConnector.cs:135-144 | under automation any actionable port makes the loop endless; without automation it makes exactly the corrected pass |
| Connector.MidiPluginConnector.ForceReconnectMidiDevice | Assets/Notero/MidiPluginConnection/MidiPluginConnector.cs:62-68 | refresh list and table, then the reconnect loop on them |
| Connector.MidiPluginConnector.InitAndForceReconnect | Assets/Notero/MidiPluginConnection/MidiPluginConnector.cs:62-68 | on a fresh connector, init then forced reconnect: OutOfFuel exactly when a port is actionable after the refresh, and otherwise the two inits followed by the reconnect pass |
| Connector.MidiPluginConnector.SetReconnectAutomation | Assets/Notero/MidiPluginConnection/MidiPluginConnector.cs:55-60 | the flag is stored; switching it on forces a reconnect, switching it off does nothing else |
| Connector.MidiPluginConnector.ReconnectEachOnce | Assets/Notero/MidiPluginConnection/MidiPluginConnector.cs:135-144 | the corrected reconnect: refresh, then exactly one close/open per actionable port |
| Connector.MidiPluginConnector.ReopenActionablePorts | Assets/Notero/MidiPluginConnection/MidiPluginConnector.cs:135-144 | the corrected loop makes exactly the corrected pass's calls and leaves list and table alone |
| Connector.MidiPluginConnector.ConnectBluetooth | Assets/Notero/MidiPluginConnection/MidiPluginConnector.cs:160-163 | a single Bluetooth connect call |
| Connector.MidiPluginConnector.DisconnectBluetooth | Assets/Notero/MidiPluginConnection/MidiPluginConnector.cs:165-168 | a single Bluetooth disconnect call |
| Connector.MidiPluginConnector.ConnectBluetoothAndOpenPort | Assets/Notero/MidiPluginConnection/MidiPluginConnector.cs:170-174 | the Bluetooth connect comes before the input-port open |
| Connector.MidiPluginConnector.DisconnectBluetoothAndClosePort | Assets/Notero/MidiPluginConnection/MidiPluginConnector.cs:176-180 | the input-port close comes before the Bluetooth disconnect |
| Connector.HoltekIsActionable | Assets/Notero/MidiPluginConnection/MidiPluginConnector.cs:135-144 | a single unconnected Holtek keyboard leaves an automatic port with an unconnected device |
| Connector.HoltekStatusChangeNeverSettles | Assets/Notero/MidiPluginConnection/MidiPluginConnector.cs:82-91 | a fresh connector with that keyboard and automation on ends its status check OutOfFuel, whatever the fuel |
| ConnectionAdapter.TrimLeading | Assets/Notero/MidiPluginConnection/MidiConnectionAdapter.cs:293 | `bool.Parse` strips only white space and nulls in front, and what remains starts with neither |
| ConnectionAdapter.TrimTrailing | Assets/Notero/MidiPluginConnection/MidiConnectionAdapter.cs:293 | `bool.Parse` strips only white space and nulls at the end, and what remains ends with neither |
| ConnectionAdapter.TrimLeadingPadded | Assets/Notero/MidiPluginConnection/MidiConnectionAdapter.cs:293 | padding in front of a word is stripped exactly |
| ConnectionAdapter.TrimTrailingPadded | Assets/Notero/MidiPluginConnection/MidiConnectionAdapter.cs:293 | padding after a word is stripped exactly |
| ConnectionAdapter.ParseBool | Assets/Notero/MidiPluginConnection/MidiConnectionAdapter.cs:293 | `bool.Parse`: text made only of white space and nulls fails, and anything that parses is at least four characters long |
| ConnectionAdapter.ParseBoolPadded | Assets/Notero/MidiPluginConnection/MidiConnectionAdapter.cs:293 | "true" or "false" in any letter case, with any padding, parses to its value |
| ConnectionAdapter.ParseBoolOnlyPaddedWords | Assets/Notero/MidiPluginConnection/MidiConnectionAdapter.cs:293 | conversely, only text that is `True` or `False` in some letter case, padded with white space and nulls, parses, and to the value it spells |
| ConnectionAdapter.ParseBoolOfToString | Assets/Notero/MidiPluginConnection/MidiConnectionAdapter.cs:293 | `"True"`/`"False"` and `"true"`/`"false"` parse back to their value |
| ConnectionAdapter.ParseBoolRejects | Assets/Notero/MidiPluginConnection/MidiConnectionAdapter.cs:293 | `""`, `"1"` and `"yes"` do not parse |
| ConnectionAdapter.NameIndex | Assets/Notero/MidiPluginConnection/MidiConnectionAdapter.cs:297-300 | the index of the first device with the name, absent iff no device has it |
| ConnectionAdapter.FindByName | Assets/Notero/MidiPluginConnection/MidiConnectionAdapter.cs:297-300 | the first device with the name, present iff some device has it, and its address is listed |
| ConnectionAdapter.MidiConnectionAdapter.constructor | Assets/Notero/MidiPluginConnection/MidiConnectionAdapter.cs:63-72 | a new connector, both plugins initialised, then a forced reconnect with automation on: a refreshed list and table; the recorded outcome is OutOfFuel exactly when an automatic port's device is not connected, and otherwise the calls are the two inits followed by the reconnect pass |
| ConnectionAdapter.MidiConnectionAdapter.OnApplicationFocus | Assets/Notero/MidiPluginConnection/MidiConnectionAdapter.cs:86-89 | regaining focus runs the status check; losing focus changes nothing |
| ConnectionAdapter.MidiConnectionAdapter.UpdateDeviceStatus | Assets/Notero/MidiPluginConnection/MidiConnectionAdapter.cs:156-160 | the status check runs first, and its completion raises OnDeviceStatusChanged with the refreshed list |
| ConnectionAdapter.MidiConnectionAdapter.UpdateMidiDevice | Assets/Notero/MidiPluginConnection/MidiConnectionAdapter.cs:188-191 | the connector's device list is refreshed, nothing else |
| ConnectionAdapter.MidiConnectionAdapter.ScanMidiBluetoothDeviceCompleted | Assets/Notero/MidiPluginConnection/MidiConnectionAdapter.cs:182-186 | the list is refreshed before OnScanDeviceCompleted, so subscribers see the new list |
| ConnectionAdapter.MidiConnectionAdapter.TickMidiBluetoothDeviceResult | Assets/Notero/MidiPluginConnection/MidiConnectionAdapter.cs:284-289 | the plugin's Bluetooth listing is handed on unchanged |
| ConnectionAdapter.MidiConnectionAdapter.BluetoothResultStatusHandler | Assets/Notero/MidiPluginConnection/MidiConnectionAdapter.cs:291-295 | a parsable status is handed on as its value; anything else faults and raises nothing |
| ConnectionAdapter.MidiConnectionAdapter.OpenDeviceToPortByName | Assets/Notero/MidiPluginConnection/MidiConnectionAdapter.cs:268-274 | the first device with the name is opened by its address; no such device, no effect |
| ConnectionAdapter.MidiConnectionAdapter.CloseDeviceFromPortByName | Assets/Notero/MidiPluginConnection/MidiConnectionAdapter.cs:276-282 | the first device with the name is closed by its address; no such device, no effect |
| IosBridge.AdapterOf | Packages/NoteroMidiPlugin/Runtime/MidiPlugin.cs:266-274 | one device gives at most one adapter |
| IosBridge.AdapterOfMeaning | Packages/NoteroMidiPlugin/Runtime/MidiPlugin.cs:266-274 | a device gives an adapter exactly when its address is a 32-bit integer, and the adapter carries that id and the device's name |
| IosBridge.AdaptersFor | Packages/NoteroMidiPlugin/Runtime/MidiPlugin.cs:260-275 | never more adapters than reported devices |
| IosBridge.AdaptersComeFromDevices | Packages/NoteroMidiPlugin/Runtime/MidiPlugin.cs:266-274 | every adapter comes from a device whose address parses to its id, carries that device's name, and is the registry's choice for them |
| IosBridge.ParsedDevicesHaveAdapters | Packages/NoteroMidiPlugin/Runtime/MidiPlugin.cs:266-274 | every device whose address parses as an int gets its adapter |
| IosBridge.AdaptersForLength | Packages/NoteroMidiPlugin/Runtime/MidiPlugin.cs:266-274 | never more adapters than devices, and one per device when every address parses |
| IosBridge.AdaptersForAppend | Packages/NoteroMidiPlugin/Runtime/MidiPlugin.cs:266-274 | adapters keep the order of their devices |
| IosBridge.LedMessages | Packages/NoteroMidiPlugin/Runtime/MidiPlugin.cs:211-234 | never more messages than adapters |
| IosBridge.LedMessagesCarryId | Packages/NoteroMidiPlugin/Runtime/MidiPlugin.cs:211-234 | every LED message sent carries the id asked for |
| IosBridge.LedMessagesFromAddressed | Packages/NoteroMidiPlugin/Runtime/MidiPlugin.cs:213-225 | every LED message sent holds the LED message of an adapter with the id asked for |
| IosBridge.LedMessagesBroadcast | Packages/NoteroMidiPlugin/Runtime/MidiPlugin.cs:227-233 | without an id, exactly one message per adapter, in adapter order |
| IosBridge.LedMessagesUnaddressed | Packages/NoteroMidiPlugin/Runtime/MidiPlugin.cs:213-225 | with an id that no adapter has, nothing is sent |
| IosBridge.LedMessagesAppend | Packages/NoteroMidiPlugin/Runtime/MidiPlugin.cs:211-234 | the messages for a concatenation of adapter lists are the concatenation of their messages, and one adapter gets exactly one message iff it is addressed, so every addressed adapter gets one message, in adapter order |
| IosBridge.MidiPluginNativeBridge.constructor | Packages/NoteroMidiPlugin/Runtime/MidiPlugin.cs:184-188 | no adapters, not initialised, nothing sent |
| IosBridge.MidiPluginNativeBridge.Init | Packages/NoteroMidiPlugin/Runtime/MidiPlugin.cs:190-200 | the first call subscribes once; later calls change nothing |
| IosBridge.MidiPluginNativeBridge.RebuildAdapters | Packages/NoteroMidiPlugin/Runtime/MidiPlugin.cs:260-275 | the adapter list is cleared and rebuilt from the new device list only |
| IosBridge.MidiPluginNativeBridge.OnConnected | Packages/NoteroMidiPlugin/Runtime/MidiPlugin.cs:260-275 | the adapter list is rebuilt from the reported devices |
| IosBridge.MidiPluginNativeBridge.OnDisconnected | Packages/NoteroMidiPlugin/Runtime/MidiPlugin.cs:277-292 | the same rebuild as OnConnected on the same input |
| IosBridge.MidiPluginNativeBridge.SendLedControlMessage | Packages/NoteroMidiPlugin/Runtime/MidiPlugin.cs:211-234 | one LED message for each addressed adapter is appended, in adapter order |
| IosBridge.MidiPluginNativeBridge.SendMidiEvent | Packages/NoteroMidiPlugin/Runtime/MidiPlugin.cs:245-252 | a single message with the data and id unchanged |
| IosBridge.InitTwice | Packages/NoteroMidiPlugin/Runtime/MidiPlugin.cs:190-200 | a bridge initialised twice has subscribed once |
| ScanManager.Next | Packages/NoteroMidiPlugin/Runtime/Native/bluetoothScanner/BluetoothScanManager.kt:31-95 | the before hooks run iff a scan starts; the after hooks iff a running scan stops with a scanner present; the flag is set iff a scan starts; a missing scanner clears it |
| ScanManager.AfterHooksOncePerScan | Packages/NoteroMidiPlugin/Runtime/Native/bluetoothScanner/BluetoothScanManager.kt:34-42 | over any run of scans, stops and timers the after hooks run at most once per started scan |
| ScanManager.TimerAfterManualStop | Packages/NoteroMidiPlugin/Runtime/Native/bluetoothScanner/BluetoothScanManager.kt:88 | the delayed stop firing after a manual stop runs no hook |
| ScanManager.EarlierTimerEndsLaterScan | Packages/NoteroMidiPlugin/Runtime/Native/bluetoothScanner/BluetoothScanManager.kt:71 | an earlier scan's delayed stop ends a later scan started before it fires |
| ScanManager.ScannerLostSkipsAfterHooks | Packages/NoteroMidiPlugin/Runtime/Native/bluetoothScanner/BluetoothScanManager.kt:63-66 | a scanner lost during a scan clears the flag and that scan's after hooks never run |
| ScanManager.ScannerCallsOf | Packages/NoteroMidiPlugin/Runtime/Native/bluetoothScanner/BluetoothScanManager.kt:68-75 | the scanner is started exactly when a scan starts and stopped exactly when a running scan stops |
| ScanManager.BluetoothScanManager.constructor | Packages/NoteroMidiPlugin/Runtime/Native/bluetoothScanner/BluetoothScanManager.kt:23-26 | not scanning, no hooks, nothing done yet |
| ScanManager.BluetoothScanManager.AddBeforeScanAction | Packages/NoteroMidiPlugin/Runtime/Native/bluetoothScanner/BluetoothScanManager.kt:23 | the hook is added at the end of the before list |
| ScanManager.BluetoothScanManager.AddAfterScanAction | Packages/NoteroMidiPlugin/Runtime/Native/bluetoothScanner/BluetoothScanManager.kt:24 | the hook is added at the end of the after list |
| ScanManager.BluetoothScanManager.ExecuteListOfFunctions | Packages/NoteroMidiPlugin/Runtime/Native/bluetoothScanner/BluetoothScanManager.kt:110-112 | the actions run once each, in list order |
| ScanManager.BluetoothScanManager.StopRunningScan | Packages/NoteroMidiPlugin/Runtime/Native/bluetoothScanner/BluetoothScanManager.kt:34-42 | when scanning: clear the flag, stop the scanner, run the after hooks; otherwise nothing |
| ScanManager.BluetoothScanManager.ScanBleDevices | Packages/NoteroMidiPlugin/Runtime/Native/bluetoothScanner/BluetoothScanManager.kt:31-77 | the state machine for a scan request: the new flag, the hooks run and the scanner calls are those of `Next`; a started scan posts one delayed stop |
| ScanManager.BluetoothScanManager.StopScanDevices | Packages/NoteroMidiPlugin/Runtime/Native/bluetoothScanner/BluetoothScanManager.kt:80-95 | the state machine for a stop request |
| ScanManager.BluetoothScanManager.TimerFires | Packages/NoteroMidiPlugin/Runtime/Native/bluetoothScanner/BluetoothScanManager.kt:71 | a posted delayed stop fires: the state machine for the timer event |
| NativePlugin.IsNullOrBlank | Packages/NoteroMidiPlugin/Runtime/Native/MidiBluetoothPlugin.kt:156 | `isNullOrBlank`: the empty text is blank, and a text starting with a non-white character is not |
| NativePlugin.KotlinToInt | Packages/NoteroMidiPlugin/Runtime/Native/MidiBluetoothPlugin.kt:288 | `String.toInt` on ASCII text: a value in the 32-bit range, and failure on leading white space |
| NativePlugin.KotlinToIntOfDecimal | Packages/NoteroMidiPlugin/Runtime/Native/MidiBluetoothPlugin.kt:288 | `toInt` of a printed device id gives the id back |
| NativePlugin.DecimalInjective | Packages/NoteroMidiPlugin/Runtime/Native/MidiBluetoothPlugin.kt:91-93 | two ids print alike iff they are equal, so comparing `getId()` strings compares ids |
| NativePlugin.StatusRoundTrip | Packages/NoteroMidiPlugin/Runtime/Native/MidiBluetoothPlugin.kt:182 | the `Boolean.toString` text sent to the adapter is parsed back to the same value by `bool.Parse` |
| NativePlugin.Find | Packages/NoteroMidiPlugin/Runtime/Native/MidiBluetoothPlugin.kt:225 | Kotlin `find`: the first element that satisfies the test, absent iff none does |
| NativePlugin.Prune | Packages/NoteroMidiPlugin/Runtime/Native/MidiBluetoothPlugin.kt:172 | the after-scan `removeIf` keeps exactly the entries seen in the scan or connected |
| NativePlugin.PruneKeepsHandlesDistinct | Packages/NoteroMidiPlugin/Runtime/Native/MidiBluetoothPlugin.kt:172 | pruning keeps the device objects distinct |
| NativePlugin.PruneKeepsSeen | Packages/NoteroMidiPlugin/Runtime/Native/MidiBluetoothPlugin.kt:172 | every address seen in the scan still has an entry after pruning |
| NativePlugin.Notifications | Packages/NoteroMidiPlugin/Runtime/Native/MidiBluetoothPlugin.kt:171 | one scan-completed notification per listener, in order |
| NativePlugin.Reported | Packages/NoteroMidiPlugin/Runtime/Native/MidiBluetoothPlugin.kt:199-203 | an opened MIDI device is listed as connected, under its key when it has no Bluetooth device |
| NativePlugin.MidiListing | Packages/NoteroMidiPlugin/Runtime/Native/MidiBluetoothPlugin.kt:196-206 | all MIDI-device entries connected, each from an opened device, and each opened device listed unless its address already was |
| NativePlugin.BluetoothListing | Packages/NoteroMidiPlugin/Runtime/Native/MidiBluetoothPlugin.kt:208-217 | the second part only appends: the MIDI part stays unchanged in front |
| NativePlugin.BluetoothListingAdditions | Packages/NoteroMidiPlugin/Runtime/Native/MidiBluetoothPlugin.kt:208-217 | each entry the second part appends comes from an active Bluetooth entry, under an address not listed before it |
| NativePlugin.BluetoothListingCovers | Packages/NoteroMidiPlugin/Runtime/Native/MidiBluetoothPlugin.kt:208-217 | every active Bluetooth entry's address ends up listed |
| NativePlugin.DeviceListing | Packages/NoteroMidiPlugin/Runtime/Native/MidiBluetoothPlugin.kt:193-220 | the merged listing keeps the MIDI part unchanged in front, and lists the address of every active Bluetooth entry |
| NativePlugin.DeviceListingCoversOpened | Packages/NoteroMidiPlugin/Runtime/Native/MidiBluetoothPlugin.kt:196-206 | every opened device is represented in the listing, by its own object or by an earlier one under its key |
| NativePlugin.ListingHasNoRepeatedAddress | Packages/NoteroMidiPlugin/Runtime/Native/MidiBluetoothPlugin.kt:193-220 | the merged listing never repeats an address |
| NativePlugin.MidiListingDistinct | Packages/NoteroMidiPlugin/Runtime/Native/MidiBluetoothPlugin.kt:196-206 | the MIDI part of the listing never repeats an address |
| NativePlugin.MidiBluetoothPlugin.constructor | Packages/NoteroMidiPlugin/Runtime/Native/MidiBluetoothPlugin.kt:97-176 | all lists empty, not scanning, the two hooks registered |
| NativePlugin.MidiBluetoothPlugin.OnScanResult | Packages/NoteroMidiPlugin/Runtime/Native/MidiBluetoothPlugin.kt:151-164 | a blank name or address, or an address already seen, changes nothing; otherwise the address and a new active, unconnected entry are appended and a tick is sent |
| NativePlugin.MidiBluetoothPlugin.BeforeScan | Packages/NoteroMidiPlugin/Runtime/Native/MidiBluetoothPlugin.kt:166-168 | the addresses seen are cleared, nothing else changes |
| NativePlugin.MidiBluetoothPlugin.AfterScan | Packages/NoteroMidiPlugin/Runtime/Native/MidiBluetoothPlugin.kt:170-175 | the listeners are notified in order, the device list is pruned, then scan completion is sent |
| NativePlugin.MidiBluetoothPlugin.ScanMidiBluetooth | Packages/NoteroMidiPlugin/Runtime/Native/MidiBluetoothPlugin.kt:185-187 | the scan manager's state machine for a scan request, with the plugin's hooks as its effect |
| NativePlugin.MidiBluetoothPlugin.StopScanMidiBluetooth | Packages/NoteroMidiPlugin/Runtime/Native/MidiBluetoothPlugin.kt:189-191 | the same for a stop request |
| NativePlugin.MidiBluetoothPlugin.ScanTimerFires | Packages/NoteroMidiPlugin/Runtime/Native/bluetoothScanner/BluetoothScanManager.kt:71 | the same for the delayed stop |
| NativePlugin.MidiBluetoothPlugin.SetOnScanBluetoothListener | Packages/NoteroMidiPlugin/Runtime/Native/MidiBluetoothPlugin.kt:303-305 | the listener is appended, nothing else changes |
| NativePlugin.MidiBluetoothPlugin.CheckIsBluetoothEnabled | Packages/NoteroMidiPlugin/Runtime/Native/MidiBluetoothPlugin.kt:178-183 | the adapter state is sent as its `toString` text |
| NativePlugin.MidiBluetoothPlugin.GetBluetoothDeviceJsonString | Packages/NoteroMidiPlugin/Runtime/Native/MidiBluetoothPlugin.kt:193-220 | the listing is the merged MIDI and Bluetooth listing: every opened device and every active entry is represented |
| NativePlugin.MidiBluetoothPlugin.ConnectBluetooth | Packages/NoteroMidiPlugin/Runtime/Native/MidiBluetoothPlugin.kt:222-245 | an unknown address changes nothing; otherwise the first entry's device is asked to open |
| NativePlugin.MidiBluetoothPlugin.OnBluetoothDeviceOpened | Packages/NoteroMidiPlugin/Runtime/Native/MidiBluetoothPlugin.kt:232-244 | the requested entry is marked connected, the opened device appended under the address, and the connection reported |
| NativePlugin.MidiBluetoothPlugin.DisconnectBluetooth | Packages/NoteroMidiPlugin/Runtime/Native/MidiBluetoothPlugin.kt:247-269 | without both a Bluetooth entry and an opened device nothing changes; otherwise the device's port is closed, the device closed, the entry marked unconnected and the disconnection reported |
| NativePlugin.MidiBluetoothPlugin.GetMidiDeviceJsonString | Packages/NoteroMidiPlugin/Runtime/Native/MidiBluetoothPlugin.kt:271-284 | one entry per MIDI device, under its printed id and name ("Unknown device" without one), connected iff an open port has its id |
| NativePlugin.MidiBluetoothPlugin.OpenDeviceToPort | Packages/NoteroMidiPlugin/Runtime/Native/MidiBluetoothPlugin.kt:286-291 | with no platform device nothing happens, whatever the text; otherwise the first device with the parsed id is discovered, and no such device means no effect |
| NativePlugin.MidiBluetoothPlugin.DiscoverMidiBluetooth | Packages/NoteroMidiPlugin/Runtime/Native/MidiBluetoothPlugin.kt:307-316 | a device with an output port is asked to open its first one; otherwise nothing |
| NativePlugin.MidiBluetoothPlugin.OnMidiDeviceOpened | Packages/NoteroMidiPlugin/Runtime/Native/MidiBluetoothPlugin.kt:316-335 | an opened output port is added and reported only if no port has that id yet, which keeps ids distinct |
| NativePlugin.MidiBluetoothPlugin.CloseDeviceFromPort | Packages/NoteroMidiPlugin/Runtime/Native/MidiBluetoothPlugin.kt:293-301 | the port with that id is closed, removed and reported; no such port, no effect |
| NativePlugin.MidiBluetoothPlugin.OnDeviceAdded | Packages/NoteroMidiPlugin/Runtime/Native/MidiBluetoothPlugin.kt:109-117 | a device triggers a status update; null does nothing |
| NativePlugin.MidiBluetoothPlugin.OnDeviceRemoved | Packages/NoteroMidiPlugin/Runtime/Native/MidiBluetoothPlugin.kt:119-137 | its port is closed, its opened devices dropped, its first Bluetooth entry marked inactive and unconnected, then a status update |
| NativePlugin.DiscoverEffects | Packages/NoteroMidiPlugin/Runtime/Native/MidiBluetoothPlugin.kt:309-316 | a request to open the first output port, and nothing iff the device has none |
| NativePlugin.WithoutPort | Packages/NoteroMidiPlugin/Runtime/Native/MidiBluetoothPlugin.kt:294-296 | unchanged when no port has the id, one port fewer otherwise |
| NativePlugin.WithoutPortSpec | Packages/NoteroMidiPlugin/Runtime/Native/MidiBluetoothPlugin.kt:293-301 | removal keeps ids distinct and leaves exactly the ports with other ids |
| NativePlugin.ClosePortEffects | Packages/NoteroMidiPlugin/Runtime/Native/MidiBluetoothPlugin.kt:294-300 | closing reports something iff a port has the id |
| NativePlugin.WithoutKey | Packages/NoteroMidiPlugin/Runtime/Native/MidiBluetoothPlugin.kt:126 | `removeIf` keeps exactly the opened devices under other addresses |
| NativePlugin.MarkRemoved | Packages/NoteroMidiPlugin/Runtime/Native/MidiBluetoothPlugin.kt:127-130 | only the first entry with the address becomes inactive and unconnected; the addresses stay |
| NativePlugin.SetConnected | Packages/NoteroMidiPlugin/Runtime/Native/MidiBluetoothPlugin.kt:233 | only the entry for the requested device changes its connected flag |
| NativePlugin.PortIdMatch | Packages/NoteroMidiPlugin/Runtime/Native/MidiBluetoothPlugin.kt:278 | a port matches a printed id iff it belongs to that device |
| NativePlugin.RescanAppendsSecondEntry | Packages/NoteroMidiPlugin/Runtime/Native/MidiBluetoothPlugin.kt:158-162 | an entry that survived the last scan is appended a second time when a rescan sees its address |
| NativePlugin.DisconnectedStillListedConnected | Packages/NoteroMidiPlugin/Runtime/Native/MidiBluetoothPlugin.kt:196-203 | an opened device stays listed as connected, since disconnecting leaves the opened-device list alone |

## Left out

- JSON encoding and decoding (Newtonsoft.Json, `org.json`, `toJsonString`) is not modelled. Listings are the sequences of records they would encode. The one string field the code parses itself, `midiMessage`, is modelled as text.
- Unity messaging (`UnitySendMessage`, `MonoPInvokeCallback`), `AndroidJavaObject` and `DllImport` calls, and logging are not modelled. Outgoing calls are recorded as trace values.
- Threads and handler scheduling are not modelled. Every method runs to completion before the next starts. Platform callbacks are separate methods, called after their request.
- Runtime permission requests, Bluetooth settings screens, `ShowBluetoothMIDIDevices`, `DisconnectAllMidiBluetoothDevice`, `BluetoothConnection.cs` and the Windows plugin are not part of this model. They hold no decision logic, or they live in native code that is not part of this model.
- The Android and Windows branches of `MidiPlugin.cs`, and the Android and Windows bridges in `MidiBluetoothPlugin.cs`, are not modelled. They forward each call unchanged to the native side.
- The pass-through members of `MidiConnectionAdapter` are not modelled. Each forwards one call or raises one event with its argument unchanged. They are: `OnDestroy` and `OnApplicationQuit` (lines 73-84), the abstract note handlers and their event wiring in `SubscribeEvents`/`UnsubscribeEvents` (lines 93-151), `BluetoothPermissionResultStatusHandler`, `ConnectedToPortHandler` and `DisconnectedFromPortHandler` (lines 162-180, apart from `BluetoothResultStatusHandler`, which is modelled), the Bluetooth and connector facade (lines 195-265) and `InvokeOnMidiBytesEvent` (lines 302-306).
- Events raised with `?.Invoke` are recorded whether or not anything subscribes.
- The General, MasterRO and PopPiano adapters are not part of this model. Their name tests are a parameter (`UnseenAdapters`). Their position in the registry order is modelled.
- Codecs.GzutVolumeMessage: the floating-point scaled value is taken as a parameter, not computed. The code overwrites it before returning, so the result does not depend on it.
- Text.ParseInteger: trailing NUL characters, which the .NET `Integer` style also skips, are not modelled; such text fails to parse in the model. For `byte.Parse` the texts are the Kotlin receiver's own `joinToString` output, which holds no NUL; an iOS device address ending in NUL, which `int.TryParse` would accept, gets no adapter in the model.
- Text.AsciiLower: `ToLower` is modelled on ASCII letters only. Culture-dependent lower-casing of other characters is not modelled.
- The enumeration order of a .NET `HashSet` is taken to be the order in which addresses first occur. The new ports are added in that order.
- `MidiPort` is a value in a sequence, and `SetAutoConnection` replaces the element. In the source the ports are shared objects. `UpdateMidiDeviceFromPort` moves the same `MidiPort` objects into its new list. `ReconnectMidiDevice` enumerates a lazy `Where` that reads their flags while `SetAutoConnection` changes them. The model does not capture this aliasing. It is not observable under two conditions that the model keeps: addresses in the table are unique (`PortTable.ReconcileProperties`), and the platform's answer stays fixed during one call chain. Then `SetMidiPortToAutoConnection` changes only the port of the address being reopened, which the enumeration has already passed. A rebuilt list holds the same ports in the same order, and every close is followed by an open that sets the flag back.
- Connector.MidiPluginConnector.OnDeviceStatusChange: the source recurses without end, and the model stops with `OutOfFuel` when `fuel` runs out. For such a chain the contract says only that the trace was extended. The calls of the unbounded chain are not listed.
- Connector.MidiPluginConnector.ReconnectMidiDevice: no per-call property is stated for the as-written chain under automation. The calls of the corrected pass are proved safe in `PortTable.ReconnectPassSafe`.
- MidiEvents.OnMidiReceived: requires a `0x8n`/`0x9n` message to have at least 3 bytes. On a shorter message the C# indexer throws.
- MidiEvents.OnSend: requires at least 4 bytes. The Kotlin receiver reads `data[0..3]` and ignores `offset` and `count`.
- NativePlugin.MidiBluetoothPlugin.OpenDeviceToPort: requires the id text to be a valid `Int` when the platform reports at least one device. `toInt` runs inside `find`'s test, so on other text it throws `NumberFormatException` only then; with no device reported the call does nothing, which the model states.
- Device names that Android reports as null are `Option` values. The scan callback already drops blank names.
- A Bluetooth device's name (`BtIdentity.name`) is a plain string, although `BluetoothDevice.getName()` can return null. `OnBluetoothDeviceOpened` assumes the opened device is not null. A null name or a null device is not modelled.
- NativePlugin.KotlinToInt: text is read as ASCII. `String.toInt` also accepts non-ASCII Unicode decimal digits (through `Character.digit`); the model treats them as non-digits and fails.
- The Kotlin adapters' `InputPort` is a sink that records each buffer sent. The `MidiInputPort` API behind it is not modelled.

## Findings

| source | as written | input that shows it | evidently intended | confidence | as-written member | corrected member |
|---|---|---|---|---|---|---|
| Assets/Notero/MidiPluginConnection/MidiPluginConnector.cs:135-144 | With reconnect automation on, `ReconnectMidiDevice` reopens an automatic port whose device is not connected. It does this through `OpenDeviceToPortByAddress`, which calls `SetMidiPortToAutoConnection` and then `OnDeviceStatusChange`. That finds the same port out of sync and calls `ReconnectMidiDevice` again. The recursion never ends. | Automation on; the platform reports one device, `HOLTEK USB DEVICE-1` at `AA:BB`, not connected, and its report does not change during the call | each actionable port is closed and reopened once per status check, with no re-entry | not executed; holds when the platform's answer is stable during one synchronous call chain | Connector.HoltekStatusChangeNeverSettles | Connector.MidiPluginConnector.ReconnectEachOnce |
