/** Incoming MIDI: the iOS bridge's classification of a received message into
    note events (C# `OnMidiReceivedFunction`), the Android receiver that
    forwards each message to Unity as a comma-separated `midiMessage`
    (Kotlin `MidiReceiverHandler.onSend`), and the C# decoding of that
    string back into bytes (`MidiBluetoothEventDataConverter.ReadJson`).

    Channel Voice Messages follow the MIDI 1.0 Detailed Specification: the
    high nibble of the status byte is the message kind (8 = Note Off,
    9 = Note On), the low nibble the channel. */
module MidiEvents {
  import opened Text

  // ---------------------------------------------------------------------
  // iOS: OnMidiReceivedFunction
  // ---------------------------------------------------------------------

  /** The events the iOS bridge raises to its subscribers. */
  datatype MidiEvent =
    | NoteOn(note: int, velocity: int, channel: int)
    | NoteOff(note: int, velocity: int, channel: int)
    | MidiBytes(data: seq<byte>)

  /** The message kind and channel, read arithmetically. */
  function Kind(status: byte): nat { status as int / 16 }
  function Channel(status: byte): nat { status as int % 16 }

  /** A note message (kind 8 or 9) reads its note and velocity from bytes 1
      and 2; a shorter array makes the C# indexer throw. */
  predicate WellFormedForIos(data: seq<byte>)
  {
    |data| > 0 && (Kind(data[0]) == 8 || Kind(data[0]) == 9) ==> |data| >= 3
  }

  /** The events raised for one received message, in order: the status
      byte's high bits select a note event, its low bits are the channel,
      and the raw bytes are always raised last. */
  function OnMidiReceived(data: seq<byte>): (events: seq<MidiEvent>)
    requires WellFormedForIos(data)
    ensures |data| == 0 ==> events == []
    ensures |data| > 0 && Kind(data[0]) == 9 ==>
              events == [NoteOn(data[1] as int, data[2] as int, Channel(data[0])), MidiBytes(data)]
    ensures |data| > 0 && Kind(data[0]) == 8 ==>
              events == [NoteOff(data[1] as int, data[2] as int, Channel(data[0])), MidiBytes(data)]
    ensures |data| > 0 && Kind(data[0]) != 8 && Kind(data[0]) != 9 ==> events == [MidiBytes(data)]
  {
    if |data| == 0 then []
    else
      var status := data[0];
      var channel := LowBits(status);
      if HighBits(status) == 0x90 then
        [NoteOn(data[1] as int, data[2] as int, channel as int), MidiBytes(data)]
      else if HighBits(status) == 0x80 then
        [NoteOff(data[1] as int, data[2] as int, channel as int), MidiBytes(data)]
      else
        [MidiBytes(data)]
  }

  /** Every non-empty message reaches the raw-bytes subscribers exactly once,
      as the last event, whatever its kind. */
  lemma RawBytesAlwaysLast(data: seq<byte>)
    requires WellFormedForIos(data) && |data| > 0
    ensures var events := OnMidiReceived(data);
            |events| >= 1 && events[|events| - 1] == MidiBytes(data)
            && forall i :: 0 <= i < |events| - 1 ==> !events[i].MidiBytes?
  {
  }

  // ---------------------------------------------------------------------
  // Android: MidiReceiverHandler.onSend
  // ---------------------------------------------------------------------

  /** `MidiEventInfo`: the payload the receiver serialises for Unity. */
  datatype MidiEventInfo = MidiEventInfo(midiMessage: string, note: int, velocity: int, channel: int)

  datatype UnityMethod = OnMidiBytesEventHandler | NoteOnReceived | NoteOffReceived

  datatype UnityMessage = UnityMessage(target: UnityMethod, info: MidiEventInfo)

  /** Kotlin `joinToString(",")` of a list of non-negative integers. */
  function JoinDecimals(values: seq<nat>): (s: string)
    requires |values| >= 1
    ensures Split(s, ',') == DecimalParts(values)
  {
    var parts := DecimalParts(values);
    assert forall i :: 0 <= i < |parts| ==> AllDigits(parts[i]);
    SplitJoin(parts, ',');
    Join(parts, ',')
  }

  function DecimalParts(values: seq<nat>): (parts: seq<string>)
    ensures |parts| == |values|
    ensures forall i :: 0 <= i < |values| ==> parts[i] == NatToDecimal(values[i])
  {
    if values == [] then [] else [NatToDecimal(values[0])] + DecimalParts(values[1..])
  }

  /** The payload built from a received buffer. The handler reads bytes 0..3
      regardless of `offset` and `count`: byte 1 is taken as the command,
      byte 0 only supplies the channel. */
  function EventInfo(data: seq<byte>): (info: MidiEventInfo)
    requires |data| >= 4
    ensures info.note == data[2] as int && info.velocity == data[3] as int
    ensures info.channel == Channel(data[0])
  {
    var channel := LowBits(data[0]) as int;
    MidiEventInfo(JoinDecimals([data[1] as int, data[2] as int, data[3] as int, channel]),
                  data[2] as int, data[3] as int, channel)
  }

  /** The messages sent to Unity for one received buffer, in order: the raw
      bytes message always first, then a note-on for a command in
      0x90..0x9F or a note-off for one in 0x80..0x8F. */
  function OnSend(data: seq<byte>): (sent: seq<UnityMessage>)
    requires |data| >= 4
    ensures |sent| >= 1 && sent[0] == UnityMessage(OnMidiBytesEventHandler, EventInfo(data))
    ensures forall i :: 0 <= i < |sent| ==> sent[i].info == EventInfo(data)
    ensures (|sent| == 2 && sent[1].target == NoteOnReceived) <==> 0x90 <= data[1] as int <= 0x9F
    ensures (|sent| == 2 && sent[1].target == NoteOffReceived) <==> 0x80 <= data[1] as int <= 0x8F
    ensures |sent| == 1 <==> !(0x80 <= data[1] as int <= 0x9F)
  {
    var info := EventInfo(data);
    var command := data[1] as int;
    var bytesMessage := UnityMessage(OnMidiBytesEventHandler, info);
    if 0x90 <= command <= 0x9F then [bytesMessage, UnityMessage(NoteOnReceived, info)]
    else if 0x80 <= command <= 0x8F then [bytesMessage, UnityMessage(NoteOffReceived, info)]
    else [bytesMessage]
  }

  /** Android classifies by a whole command byte, iOS by the status nibble:
      on the same well-formed channel message (status in byte 1 of the
      Android buffer), both report a note-on exactly when the other does. */
  lemma PlatformsAgreeOnNoteOn(status: byte, data: seq<byte>)
    requires |data| >= 4 && data[1] == status && |data[1..]| >= 3
    ensures (|OnSend(data)| == 2 && OnSend(data)[1].target == NoteOnReceived)
            <==> OnMidiReceived(data[1..])[0].NoteOn?
  {
  }

  // ---------------------------------------------------------------------
  // C#: decoding midiMessage
  // ---------------------------------------------------------------------

  /** `Select(byte.Parse)` over the parts: any part that does not parse as a
      number in 0..255 makes the whole decode fail. */
  function ParseBytes(parts: seq<string>): (r: Option<seq<byte>>)
    ensures r.Some? <==> forall i :: 0 <= i < |parts| ==> ParseByte(parts[i]).Some?
    ensures r.Some? ==> |r.value| == |parts|
    ensures r.Some? ==> forall i :: 0 <= i < |parts| ==> r.value[i] == ParseByte(parts[i]).value
  {
    if parts == [] then Some([])
    else
      match ParseByte(parts[0])
      case None => None
      case Some(b) =>
        match ParseBytes(parts[1..])
        case None => None
        case Some(rest) => Some([b] + rest)
  }

  /** `midiMessage.Split(",")` followed by `byte.Parse` of every part. */
  function ParseMidiMessage(midiMessage: string): (r: Option<seq<byte>>)
    ensures r.Some? ==> |r.value| == |Split(midiMessage, ',')|
  {
    ParseBytes(Split(midiMessage, ','))
  }

  /** `MidiBluetoothEventData` as the converter builds it. */
  datatype MidiEventData = MidiEventData(data: seq<byte>, midiNoteId: int, velocity: int, channel: int)

  function DecodeEventInfo(info: MidiEventInfo): (r: Option<MidiEventData>)
    ensures r.Some? <==> ParseMidiMessage(info.midiMessage).Some?
    ensures r.Some? ==> r.value.midiNoteId == info.note && r.value.velocity == info.velocity
                        && r.value.channel == info.channel
  {
    match ParseMidiMessage(info.midiMessage)
    case None => None
    case Some(bytes) => Some(MidiEventData(bytes, info.note, info.velocity, info.channel))
  }

  /** The empty message, and any message with an empty part, fails. */
  lemma EmptyPartFails(midiMessage: string)
    requires exists i :: 0 <= i < |Split(midiMessage, ',')| && Split(midiMessage, ',')[i] == ""
    ensures ParseMidiMessage(midiMessage).None?
  {
    var i :| 0 <= i < |Split(midiMessage, ',')| && Split(midiMessage, ',')[i] == "";
    assert ParseByte("") == None;
  }

  /** Round trip across the native boundary: what the Android receiver
      writes is decoded by the C# converter into the four bytes command,
      note, velocity and channel, with the note fields carried over. */
  lemma {:induction false} EventInfoRoundTrip(data: seq<byte>)
    requires |data| >= 4
    ensures DecodeEventInfo(EventInfo(data))
            == Some(MidiEventData([data[1], data[2], data[3], LowBits(data[0])],
                                  data[2] as int, data[3] as int, Channel(data[0])))
  {
    var channel := LowBits(data[0]);
    var values: seq<nat> := [data[1] as int, data[2] as int, data[3] as int, channel as int];
    assert EventInfo(data).midiMessage == JoinDecimals(values);
    DecimalBytesParse(values);
    assert [values[0] as byte, values[1] as byte, values[2] as byte, values[3] as byte]
        == [data[1], data[2], data[3], channel];
  }

  /** Four printed byte values parse back to those bytes. */
  lemma DecimalBytesParse(values: seq<nat>)
    requires |values| == 4 && forall i :: 0 <= i < 4 ==> values[i] < 256
    ensures ParseBytes(DecimalParts(values))
            == Some([values[0] as byte, values[1] as byte, values[2] as byte, values[3] as byte])
  {
    var parts := DecimalParts(values);
    var bytes := [values[0] as byte, values[1] as byte, values[2] as byte, values[3] as byte];
    forall k | 0 <= k < 4 ensures ParseByte(parts[k]) == Some(bytes[k]) {
      PartParses(values, k);
    }
    ParseBytesOfParsed(parts, bytes);
  }

  /** One printed byte value parses back to the byte. */
  lemma PartParses(values: seq<nat>, k: nat)
    requires k < |values| && values[k] < 256
    ensures ParseByte(DecimalParts(values)[k]) == Some(values[k] as byte)
  {
    ParseByteOfDecimal(values[k]);
  }

  /** Parts that each parse to their byte parse together to the bytes. */
  lemma {:induction false} ParseBytesOfParsed(parts: seq<string>, bytes: seq<byte>)
    requires |parts| == |bytes| && forall k :: 0 <= k < |parts| ==> ParseByte(parts[k]) == Some(bytes[k])
    ensures ParseBytes(parts) == Some(bytes)
  {
    if parts != [] {
      forall k | 0 <= k < |parts| - 1 ensures ParseByte(parts[1..][k]) == Some(bytes[1..][k]) {
        assert parts[1..][k] == parts[k + 1];
      }
      ParseBytesOfParsed(parts[1..], bytes[1..]);
      assert ParseByte(parts[0]) == Some(bytes[0]);
      assert bytes == [bytes[0]] + bytes[1..];
    }
  }
}
