/** The Android device adapters for the RGB piano and the Starlight
    keyboard: a name test on the Android MIDI device properties, and send
    methods that fill a fresh byte buffer and hand it to the device's input
    port. The input port (`NoteroMidiInputPort`) is not part of this model;
    it is a sink that records every slice it is given. */
module NativeAdapters {
  import opened Text
  import Codecs

  /** The properties of an Android `MidiDeviceInfo` the adapters read;
      either may be absent. */
  datatype NativeDeviceInfo = NativeDeviceInfo(id: int, name: Option<string>, product: Option<string>)

  /** `name?.toLowerCase()?.startsWith(prefix) == true`: an absent name
      never matches. */
  predicate NullableMatches(name: Option<string>, prefix: string)
  {
    name.Some? && MatchesPrefix(name.value, prefix)
  }

  /** `RGBPianoMidiDeviceAdapter.assert`, on the "product" property. */
  predicate RgbAccepts(info: NativeDeviceInfo)
    ensures info.product.None? ==> !RgbAccepts(info)
    ensures info.product == Some("") ==> !RgbAccepts(info)
  {
    NullableMatches(info.product, Codecs.RgbPrefixDevice) || NullableMatches(info.product, Codecs.RgbPrefix0001)
  }

  /** `StarlightMidiDeviceAdapter.assert`, on the "name" property. */
  predicate StarlightAccepts(info: NativeDeviceInfo)
    ensures info.name.None? ==> !StarlightAccepts(info)
    ensures info.name == Some("") ==> !StarlightAccepts(info)
  {
    NullableMatches(info.name, Codecs.StarlightPrefix)
  }

  /** The Android name tests agree with the C# ones on the property each
      reads, and reject a device that lacks that property. */
  lemma NameTestsAgreeWithCSharp(unseen: Codecs.UnseenAdapters, info: NativeDeviceInfo)
    ensures RgbAccepts(info) <==> info.product.Some? && Codecs.Accepts(unseen, Codecs.RGBPiano, info.product.value)
    ensures StarlightAccepts(info) <==> info.name.Some? && Codecs.Accepts(unseen, Codecs.Starlight, info.name.value)
    ensures info.product.None? ==> !RgbAccepts(info)
    ensures info.name.None? ==> !StarlightAccepts(info)
  {
  }

  /** The RGB piano's LED buffer on Android: `F0 19 k 00 s 00 t F7`, where
      byte 6 is 0x02 when the LED is switched on. */
  function NativeRgbLedMessage(isOn: bool, keyIndex: int): (m: seq<byte>)
    ensures |m| == 8 && m[0] == 0xF0 && m[7] == 0xF7
    ensures m[1] == 0x19 && m[3] == 0x00 && m[5] == 0x00
    ensures m[2] as int == keyIndex % 256
    ensures m[4] == (if isOn then 0x7F else 0x00)
    ensures m[6] == (if isOn then 0x02 else 0x00)
  {
    [0xF0, 0x19, LowByte(keyIndex), 0x00, if isOn then 0x7F else 0x00, 0x00, if isOn then 0x02 else 0x00, 0xF7]
  }

  /** The two platforms' RGB LED messages differ in byte 6 only, and only
      when the LED is switched on. */
  lemma RgbLedPlatformsDiffer(isOn: bool, keyIndex: int)
    ensures forall i :: 0 <= i < 8 && i != 6 ==>
              NativeRgbLedMessage(isOn, keyIndex)[i] == Codecs.RgbLedMessage(isOn, keyIndex)[i]
    ensures NativeRgbLedMessage(isOn, keyIndex)[6] == (if isOn then 0x02 else 0x00)
    ensures Codecs.RgbLedMessage(isOn, keyIndex)[6] == 0x00
    ensures NativeRgbLedMessage(isOn, keyIndex) == Codecs.RgbLedMessage(isOn, keyIndex) <==> !isOn
  {
    if isOn {
      assert NativeRgbLedMessage(isOn, keyIndex)[6] != Codecs.RgbLedMessage(isOn, keyIndex)[6];
    }
  }

  /** On Android the RGB piano's volume message is the DreamSAS Control
      Change `BF 7A b`; the C# adapter sends `FB 7A b` instead, which
      differs in the status byte alone. */
  lemma RgbVolumePlatformsDiffer(volumeAsPercent: int)
    ensures Codecs.DreamSasVolumeMessage(volumeAsPercent)[1..] == Codecs.RgbVolumeMessage(volumeAsPercent)[1..]
    ensures Codecs.DreamSasVolumeMessage(volumeAsPercent)[0] == 0xBF
    ensures Codecs.RgbVolumeMessage(volumeAsPercent)[0] == 0xFB
  {
  }

  /** The device's input port, seen as the list of buffers it was sent. */
  class InputPort {
    var sent: seq<seq<byte>>

    constructor()
      ensures sent == []
    {
      sent := [];
    }

    /** `send(buffer, offset, count)`: the slice `count` bytes long from
        `offset`. */
    method Send(buffer: array<byte>, offset: nat, count: nat)
      requires offset + count <= buffer.Length
      modifies this
      ensures sent == old(sent) + [buffer[offset..offset + count]]
    {
      sent := sent + [buffer[offset..offset + count]];
    }
  }

  class RgbPianoAdapter {
    const inputPort: InputPort

    constructor(inputPort: InputPort)
      ensures this.inputPort == inputPort
    {
      this.inputPort := inputPort;
    }

    /** `sendLEDControlMessage`: one eight-byte buffer, sent in full. */
    method SendLedControlMessage(isOn: bool, keyIndex: int)
      modifies inputPort
      ensures inputPort.sent == old(inputPort.sent) + [NativeRgbLedMessage(isOn, keyIndex)]
    {
      var stateByte: byte := if isOn then 0x7F else 0x00;
      var buffer := new byte[8];
      buffer[0] := 0xF0;
      buffer[1] := 0x19;
      buffer[2] := LowByte(keyIndex);
      buffer[3] := 0x00;
      buffer[4] := stateByte;
      buffer[5] := 0x00;
      buffer[6] := if isOn then 0x02 else 0x00;
      buffer[7] := 0xF7;
      assert buffer[0..8] == NativeRgbLedMessage(isOn, keyIndex);
      inputPort.Send(buffer, 0, 8);
    }

    /** `sendVolumeControlMessage`: the Control Change `BF 7A b`. */
    method SendVolumeControlMessage(volumeAsPercent: int)
      modifies inputPort
      ensures inputPort.sent == old(inputPort.sent) + [Codecs.DreamSasVolumeMessage(volumeAsPercent)]
    {
      var stateByte: byte := if volumeAsPercent != 0 then 0x01 else 0x00;
      var buffer := new byte[3];
      buffer[0] := 0xBF;
      buffer[1] := 0x7A;
      buffer[2] := stateByte;
      assert buffer[0..3] == Codecs.DreamSasVolumeMessage(volumeAsPercent);
      inputPort.Send(buffer, 0, 3);
    }

    /** `sendMidiEvent`: the caller's buffer, whole and unchanged. */
    method SendMidiEvent(buffer: array<byte>)
      modifies inputPort
      ensures inputPort.sent == old(inputPort.sent) + [buffer[..]]
      ensures buffer[..] == old(buffer[..])
    {
      assert buffer[0..buffer.Length] == buffer[..];
      inputPort.Send(buffer, 0, buffer.Length);
    }

    /** The RGB piano does not keep sounding after it is muted. */
    function IsInteractiveAfterMute(): (r: bool)
      ensures !r
    {
      false
    }
  }

  class StarlightAdapter {
    const inputPort: InputPort

    constructor(inputPort: InputPort)
      ensures this.inputPort == inputPort
    {
      this.inputPort := inputPort;
    }

    /** `sendLEDControlMessage`: the same eight bytes as the C# Starlight
        adapter. */
    method SendLedControlMessage(isOn: bool, keyIndex: int)
      modifies inputPort
      ensures inputPort.sent == old(inputPort.sent) + [Codecs.StandardLedMessage(isOn, keyIndex)]
    {
      var stateByte: byte := if isOn then 0x01 else 0x00;
      var buffer := new byte[8];
      buffer[0] := 0xF0;
      buffer[1] := 0x4D;
      buffer[2] := 0x4C;
      buffer[3] := 0x4E;
      buffer[4] := 0x45;
      buffer[5] := LowByte(keyIndex);
      buffer[6] := stateByte;
      buffer[7] := 0xF7;
      assert buffer[0..8] == Codecs.StandardLedMessage(isOn, keyIndex);
      inputPort.Send(buffer, 0, 8);
    }

    /** `sendVolumeControlMessage`: the same four bytes as the C# Starlight
        adapter. */
    method SendVolumeControlMessage(volumeAsPercent: int)
      modifies inputPort
      ensures inputPort.sent == old(inputPort.sent) + [Codecs.StarlightVolumeMessage(volumeAsPercent)]
    {
      var buffer := new byte[4];
      var stateByte: byte := if volumeAsPercent != 0 then 0x77 else 0x78;
      buffer[0] := 0xF0;
      buffer[1] := 0x7F;
      buffer[2] := stateByte;
      buffer[3] := 0xF7;
      assert buffer[0..4] == Codecs.StarlightVolumeMessage(volumeAsPercent);
      inputPort.Send(buffer, 0, 4);
    }

    /** `sendMidiEvent`: the caller's buffer, whole and unchanged. */
    method SendMidiEvent(buffer: array<byte>)
      modifies inputPort
      ensures inputPort.sent == old(inputPort.sent) + [buffer[..]]
      ensures buffer[..] == old(buffer[..])
    {
      assert buffer[0..buffer.Length] == buffer[..];
      inputPort.Send(buffer, 0, buffer.Length);
    }
  }
}
