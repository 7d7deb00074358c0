/** The vendor codec registry of the C# plugin: each adapter recognises a
    keyboard by a case-insensitive prefix of its device name and encodes LED
    and volume control messages for it; `AdapterRegister.AssertDevice` picks
    the first adapter, in registration order, that recognises the name.

    The messages are MIDI 1.0 messages: System Exclusive messages framed by
    0xF0 ... 0xF7 with seven-bit data bytes in between, and three-byte
    channel messages such as Control Change (status 0xBn). */
module Codecs {
  import opened Text

  /** The adapters, in the order `AdapterRegister` lists them. */
  datatype Vendor =
    | General | MasterRO | Starlight | GZUT | PopPiano | DreamSAS | RGBPiano | GenericPiano

  const Registration: seq<Vendor> :=
    [General, MasterRO, Starlight, GZUT, PopPiano, DreamSAS, RGBPiano, GenericPiano]

  /** An adapter instance (`MidiDeviceInfo`): which codec, and the id and
      name it was created with. */
  datatype MidiDeviceInfo = MidiDeviceInfo(vendor: Vendor, uniqueId: int, deviceName: string)

  /** The General, MasterRO and PopPiano adapters are not part of this
      model: their name tests and LED encoders are parameters. */
  datatype UnseenAdapters = UnseenAdapters(
    accepts: (Vendor, string) -> bool,
    led: (Vendor, bool, int) -> seq<byte>)

  predicate IsUnseen(v: Vendor) { v == General || v == MasterRO || v == PopPiano }

  // ---------------------------------------------------------------------
  // Name tests
  // ---------------------------------------------------------------------

  const StarlightPrefix: string := "holtek usb devic"
  const GzutPrefix: string := "gzu-tek"
  const DreamSasPrefix: string := "dream s.a.s."
  const RgbPrefixDevice: string := "piano midi device"
  const RgbPrefix0001: string := "piano midi-0001"

  /** Each adapter's `Assert` name test: the generic piano takes every
      name, and a visible vendor only names at least as long as its
      shortest prefix. */
  predicate Accepts(unseen: UnseenAdapters, v: Vendor, name: string)
    ensures v == GenericPiano ==> Accepts(unseen, v, name)
    ensures !IsUnseen(v) && v != GenericPiano && Accepts(unseen, v, name) ==> |name| >= |GzutPrefix|
  {
    match v
    case Starlight => MatchesPrefix(name, StarlightPrefix)
    case GZUT => MatchesPrefix(name, GzutPrefix)
    case DreamSAS => MatchesPrefix(name, DreamSasPrefix)
    case RGBPiano => MatchesPrefix(name, RgbPrefixDevice) || MatchesPrefix(name, RgbPrefix0001)
    case GenericPiano => true
    case _ => unseen.accepts(v, name)
  }

  /** An adapter's `Assert`: an instance carrying the id and name it was
      asked about, or null when the name is not recognised. */
  function AssertWith(unseen: UnseenAdapters, v: Vendor, uniqueId: int, name: string)
    : (r: Option<MidiDeviceInfo>)
    ensures r.Some? <==> Accepts(unseen, v, name)
    ensures r.Some? ==> r.value == MidiDeviceInfo(v, uniqueId, name)
  {
    if Accepts(unseen, v, name) then Some(MidiDeviceInfo(v, uniqueId, name)) else None
  }


  /** A name test ignores the case of ASCII letters in the name. */
  lemma {:induction false} AcceptsIgnoresCase(unseen: UnseenAdapters, v: Vendor, name: string)
    requires !IsUnseen(v)
    ensures Accepts(unseen, v, AsciiLower(name)) <==> Accepts(unseen, v, name)
  {
    AsciiLowerIdempotent(name);
  }

  /** Two prefixes of the same string: the shorter is a prefix of the longer. */
  lemma PrefixesAgree(s: string, p: string, q: string)
    requires StartsWith(s, p) && StartsWith(s, q) && |p| <= |q|
    ensures StartsWith(q, p)
  {
    assert q[..|p|] == s[..|q|][..|p|] == s[..|p|];
  }

  /** The first letter every name a visible vendor recognises starts with,
      once lower-cased. */
  function Initial(v: Vendor): char
  {
    match v
    case Starlight => 'h'
    case GZUT => 'g'
    case DreamSAS => 'd'
    case _ => 'p'
  }

  lemma AcceptedInitial(unseen: UnseenAdapters, v: Vendor, name: string)
    requires v in {Starlight, GZUT, DreamSAS, RGBPiano}
    ensures Accepts(unseen, v, name) ==> |AsciiLower(name)| > 0 && AsciiLower(name)[0] == Initial(v)
  {
    var lower := AsciiLower(name);
    if Accepts(unseen, v, name) {
      assert lower[0] == lower[..1][0];
    }
  }

  /** The four visible vendor tests never overlap: no name is recognised by
      two of Starlight, GZUT, DreamSAS and RGBPiano, so their relative order
      in the registration list does not matter. */
  lemma VisibleVendorsDisjoint(unseen: UnseenAdapters, v: Vendor, w: Vendor, name: string)
    requires v in {Starlight, GZUT, DreamSAS, RGBPiano} && w in {Starlight, GZUT, DreamSAS, RGBPiano}
    requires v != w
    ensures !(Accepts(unseen, v, name) && Accepts(unseen, w, name))
  {
    AcceptedInitial(unseen, v, name);
    AcceptedInitial(unseen, w, name);
  }

  /** The name the Starlight keyboard reports is recognised in any case,
      and a name one letter short of the prefix is not. */
  lemma StarlightExamples(unseen: UnseenAdapters)
    ensures Accepts(unseen, Starlight, "HOLTEK USB DEVICE-1")
    ensures !Accepts(unseen, Starlight, "holtek usb devi")
  {
    var upper, lower := "HOLTEK USB DEVICE-1", "holtek usb device-1";
    LowerOfSpelling(upper, lower);
    assert lower[..16] == StarlightPrefix;
  }

  // ---------------------------------------------------------------------
  // The registry
  // ---------------------------------------------------------------------

  /** `Select(assertor(id, name)).FirstOrDefault(device => device != null)`. */
  function FirstMatch(unseen: UnseenAdapters, vendors: seq<Vendor>, uniqueId: int, name: string)
    : (r: Option<MidiDeviceInfo>)
    ensures r.None? <==> forall i :: 0 <= i < |vendors| ==> !Accepts(unseen, vendors[i], name)
    ensures r.Some? ==> r.value.vendor in vendors && Accepts(unseen, r.value.vendor, name)
    ensures r.Some? ==> r.value.uniqueId == uniqueId && r.value.deviceName == name
  {
    if vendors == [] then None
    else
      match AssertWith(unseen, vendors[0], uniqueId, name)
      case Some(info) => Some(info)
      case None =>
        var r := FirstMatch(unseen, vendors[1..], uniqueId, name);
        assert forall i :: 1 <= i < |vendors| ==> vendors[i] == vendors[1..][i - 1];
        r
  }

  /** The chosen adapter is the first one in list order that recognises the
      name: every adapter before it rejected the name. */
  lemma {:induction false} FirstMatchIsFirst(unseen: UnseenAdapters, vendors: seq<Vendor>,
                                             uniqueId: int, name: string, i: nat)
    requires i < |vendors| && Accepts(unseen, vendors[i], name)
    requires forall j :: 0 <= j < i ==> !Accepts(unseen, vendors[j], name)
    ensures FirstMatch(unseen, vendors, uniqueId, name) == Some(MidiDeviceInfo(vendors[i], uniqueId, name))
  {
    if i > 0 {
      FirstMatchIsFirst(unseen, vendors[1..], uniqueId, name, i - 1);
    }
  }

  /** `AdapterRegister.AssertDevice`. */
  function AssertDevice(unseen: UnseenAdapters, uniqueId: int, name: string): (r: Option<MidiDeviceInfo>)
    ensures r.Some?
    ensures r.value.uniqueId == uniqueId && r.value.deviceName == name
  {
    assert Accepts(unseen, Registration[7], name);
    FirstMatch(unseen, Registration, uniqueId, name)
  }

  /** In a list without repeats, the adapter at position `i` is chosen
      exactly when it recognises the name and every earlier one rejects it. */
  lemma DistinctTail(vendors: seq<Vendor>)
    requires vendors != []
    requires forall a, b :: 0 <= a < b < |vendors| ==> vendors[a] != vendors[b]
    ensures forall a, b :: 0 <= a < b < |vendors[1..]| ==> vendors[1..][a] != vendors[1..][b]
  {
    forall a, b | 0 <= a < b < |vendors[1..]| ensures vendors[1..][a] != vendors[1..][b] {
      assert vendors[1..][a] == vendors[a + 1] && vendors[1..][b] == vendors[b + 1];
    }
  }

  /** When the first vendor rejects the name, the vendors before position
      `i` all reject it exactly when those before `i - 1` in the rest do. */
  lemma RejectsShift(unseen: UnseenAdapters, vendors: seq<Vendor>, name: string, i: nat)
    requires 0 < i <= |vendors| && !Accepts(unseen, vendors[0], name)
    ensures (forall j :: 0 <= j < i ==> !Accepts(unseen, vendors[j], name))
            <==> (forall j :: 0 <= j < i - 1 ==> !Accepts(unseen, vendors[1..][j], name))
  {
    if forall j :: 0 <= j < i - 1 ==> !Accepts(unseen, vendors[1..][j], name) {
      forall j | 0 <= j < i ensures !Accepts(unseen, vendors[j], name) {
        if j > 0 { assert vendors[j] == vendors[1..][j - 1]; }
      }
    }
  }

  lemma {:induction false} FirstMatchChoice(unseen: UnseenAdapters, vendors: seq<Vendor>,
                                            uniqueId: int, name: string, i: nat)
    requires i < |vendors|
    requires forall a, b :: 0 <= a < b < |vendors| ==> vendors[a] != vendors[b]
    ensures (FirstMatch(unseen, vendors, uniqueId, name).Some?
             && FirstMatch(unseen, vendors, uniqueId, name).value.vendor == vendors[i])
            <==> Accepts(unseen, vendors[i], name)
                 && forall j :: 0 <= j < i ==> !Accepts(unseen, vendors[j], name)
  {
    FirstMatchUnfold(unseen, vendors, uniqueId, name);
    if Accepts(unseen, vendors[0], name) {
      if i > 0 {
        assert vendors[0] != vendors[i];
      }
    } else if i > 0 {
      DistinctTail(vendors);
      FirstMatchChoice(unseen, vendors[1..], uniqueId, name, i - 1);
      assert vendors[i] == vendors[1..][i - 1];
      RejectsShift(unseen, vendors, name, i);
    }
  }

  /** One step of the registry walk: the first vendor's own answer when it
      recognises the name, the rest of the walk otherwise. */
  lemma FirstMatchUnfold(unseen: UnseenAdapters, vendors: seq<Vendor>, uniqueId: int, name: string)
    requires vendors != []
    ensures FirstMatch(unseen, vendors, uniqueId, name)
         == if Accepts(unseen, vendors[0], name) then Some(MidiDeviceInfo(vendors[0], uniqueId, name))
            else FirstMatch(unseen, vendors[1..], uniqueId, name)
  {
  }

  /** The adapter at registration position `i` is chosen exactly when it
      recognises the name and every earlier one rejects it. */
  lemma AssertDeviceChoice(unseen: UnseenAdapters, uniqueId: int, name: string, i: nat)
    requires i < |Registration|
    ensures AssertDevice(unseen, uniqueId, name).value.vendor == Registration[i]
            <==> Accepts(unseen, Registration[i], name)
                 && forall j :: 0 <= j < i ==> !Accepts(unseen, Registration[j], name)
  {
    FirstMatchChoice(unseen, Registration, uniqueId, name, i);
  }

  /** A name none of the named vendors recognises gets the generic adapter
      when the unseen adapters reject it too. */
  lemma UnknownNameIsGeneric(unseen: UnseenAdapters, uniqueId: int, name: string)
    requires forall i :: 0 <= i < 7 ==> !Accepts(unseen, Registration[i], name)
    ensures AssertDevice(unseen, uniqueId, name) == Some(MidiDeviceInfo(GenericPiano, uniqueId, name))
  {
    FirstMatchIsFirst(unseen, Registration, uniqueId, name, 7);
  }

  // ---------------------------------------------------------------------
  // Message framing
  // ---------------------------------------------------------------------

  /** A well-formed System Exclusive message: 0xF0, seven-bit data, 0xF7. */
  predicate IsSysEx(m: seq<byte>)
  {
    |m| >= 2 && m[0] == 0xF0 && m[|m| - 1] == 0xF7 && forall i :: 0 < i < |m| - 1 ==> m[i] < 0x80
  }

  /** A well-formed Control Change: status 0xBn, controller and value below 0x80. */
  predicate IsControlChange(m: seq<byte>)
  {
    |m| == 3 && HighBits(m[0]) == 0xB0 && m[1] < 0x80 && m[2] < 0x80
  }

  // ---------------------------------------------------------------------
  // LED messages
  // ---------------------------------------------------------------------

  /** The LED message shared by the Generic, Starlight, DreamSAS and GZUT
      adapters: `F0 4D 4C 4E 45 k s F7` with the key truncated to a byte
      and `s` = 1 for on, 0 for off. */
  function StandardLedMessage(isOn: bool, keyIndex: int): (m: seq<byte>)
    ensures |m| == 8 && m[0] == 0xF0 && m[7] == 0xF7
    ensures m[5] as int == keyIndex % 256
  {
    [0xF0, 0x4D, 0x4C, 0x4E, 0x45, LowByte(keyIndex), if isOn then 1 else 0, 0xF7]
  }

  /** The RGB piano's LED message: `F0 19 k 00 s 00 00 F7`, `s` = 7F or 00. */
  function RgbLedMessage(isOn: bool, keyIndex: int): (m: seq<byte>)
    ensures |m| == 8 && m[0] == 0xF0 && m[7] == 0xF7
    ensures m[1] == 0x19 && m[3] == 0x00 && m[5] == 0x00 && m[6] == 0x00
    ensures m[2] as int == keyIndex % 256
    ensures m[4] == (if isOn then 0x7F else 0x00)
  {
    [0xF0, 0x19, LowByte(keyIndex), 0x00, if isOn then 0x7F else 0x00, 0x00, 0x00, 0xF7]
  }

  /** Reads a standard LED message back into its state and key byte. */
  function DecodeStandardLed(m: seq<byte>): Option<(bool, byte)>
  {
    if |m| == 8 && m[..5] == [0xF0, 0x4D, 0x4C, 0x4E, 0x45] && (m[6] == 0 || m[6] == 1) && m[7] == 0xF7
    then Some((m[6] == 1, m[5]))
    else None
  }

  /** Decoding an encoded LED message gives back the state and the key's low
      byte; and every message the decoder accepts is the encoding of what it
      decodes to, so the encoding loses exactly the key's high bits. */
  lemma StandardLedRoundTrip(isOn: bool, keyIndex: int, m: seq<byte>)
    ensures DecodeStandardLed(StandardLedMessage(isOn, keyIndex)) == Some((isOn, LowByte(keyIndex)))
    ensures DecodeStandardLed(m).Some? ==>
              StandardLedMessage(DecodeStandardLed(m).value.0, DecodeStandardLed(m).value.1 as int) == m
  {
    var e := StandardLedMessage(isOn, keyIndex);
    assert e[..5] == [0xF0, 0x4D, 0x4C, 0x4E, 0x45];
    if DecodeStandardLed(m).Some? {
      var back := StandardLedMessage(DecodeStandardLed(m).value.0, DecodeStandardLed(m).value.1 as int);
      assert m[..5] == back[..5];
      assert forall i :: 0 <= i < 5 ==> m[i] == m[..5][i];
    }
  }

  /** The key index only matters modulo 256: key 5 and key 261 light the
      same LED. */
  lemma StandardLedKeyWraps(isOn: bool, keyIndex: int)
    ensures StandardLedMessage(isOn, keyIndex + 256) == StandardLedMessage(isOn, keyIndex)
  {
  }

  /** A standard LED message is a well-formed System Exclusive message
      exactly when the key's low byte is below 0x80: keys 128..255 (mod 256)
      put a status byte inside the message. */
  lemma StandardLedIsSysEx(isOn: bool, keyIndex: int)
    ensures IsSysEx(StandardLedMessage(isOn, keyIndex)) <==> keyIndex % 256 < 0x80
  {
    var m := StandardLedMessage(isOn, keyIndex);
    if keyIndex % 256 >= 0x80 {
      assert !(m[5] < 0x80);
    }
  }

  lemma RgbLedIsSysEx(isOn: bool, keyIndex: int)
    ensures IsSysEx(RgbLedMessage(isOn, keyIndex)) <==> keyIndex % 256 < 0x80
  {
    var m := RgbLedMessage(isOn, keyIndex);
    if keyIndex % 256 >= 0x80 {
      assert !(m[2] < 0x80);
    }
  }

  /** Reads an RGB LED message back into its state and key byte. */
  function DecodeRgbLed(m: seq<byte>): Option<(bool, byte)>
  {
    if |m| == 8 && m[0] == 0xF0 && m[1] == 0x19 && m[3] == 0x00 && (m[4] == 0x7F || m[4] == 0x00)
       && m[5] == 0x00 && m[6] == 0x00 && m[7] == 0xF7
    then Some((m[4] == 0x7F, m[2]))
    else None
  }

  /** Decoding an encoded RGB LED message gives back the state and the key's
      low byte, and every message the decoder accepts is the encoding of
      what it decodes to. */
  lemma RgbLedRoundTrip(isOn: bool, keyIndex: int, m: seq<byte>)
    ensures DecodeRgbLed(RgbLedMessage(isOn, keyIndex)) == Some((isOn, LowByte(keyIndex)))
    ensures DecodeRgbLed(m).Some? ==>
              RgbLedMessage(DecodeRgbLed(m).value.0, DecodeRgbLed(m).value.1 as int) == m
  {
  }

  /** `RGBPiano` LED(true, 5). */
  lemma RgbLedExample()
    ensures RgbLedMessage(true, 5) == [0xF0, 0x19, 0x05, 0x00, 0x7F, 0x00, 0x00, 0xF7]
  {
  }

  // ---------------------------------------------------------------------
  // Volume messages
  // ---------------------------------------------------------------------

  /** Starlight: `F0 7F v F7`, `v` = 0x77 for any non-zero percent, 0x78 for 0. */
  function StarlightVolumeMessage(volumeAsPercent: int): (m: seq<byte>)
    ensures IsSysEx(m) && |m| == 4
  {
    [0xF0, 0x7F, if volumeAsPercent != 0 then 0x77 else 0x78, 0xF7]
  }

  /** DreamSAS: `BF 7A b`, `b` = 1 iff the percent is non-zero. */
  function DreamSasVolumeMessage(volumeAsPercent: int): (m: seq<byte>)
    ensures IsControlChange(m) && LowBits(m[0]) == 15 && m[1] == 0x7A
  {
    [0xBF, 0x7A, if volumeAsPercent != 0 then 0x01 else 0x00]
  }

  /** RGBPiano (C#): `FB 7A b`. */
  function RgbVolumeMessage(volumeAsPercent: int): (m: seq<byte>)
    ensures |m| == 3 && m[1] == 0x7A
  {
    [0xFB, 0x7A, if volumeAsPercent != 0 then 0x01 else 0x00]
  }

  /** The generic adapter sends no volume message at all. */
  function GenericVolumeMessage(volumeAsPercent: int): (m: seq<byte>)
    ensures |m| == 0
  {
    []
  }

  /** GZUT: a five-byte buffer whose offset 2 is written three times; the
      scaled float result (`scaled`) is overwritten by 0xF7 and offsets 3
      and 4 keep their zero, so the message is `F0 AF F7 00 00` whatever
      the percent. */
  method GzutVolumeMessage(volumeAsPercent: int, scaled: byte) returns (m: seq<byte>)
    ensures m == [0xF0, 0xAF, 0xF7, 0x00, 0x00]
  {
    var buffer := new byte[5](_ => 0);
    buffer[0] := 0xF0;
    buffer[1] := 0xAF;
    buffer[2] := 0x70;
    buffer[2] := scaled;
    buffer[2] := 0xF7;
    m := buffer[..];
  }

  /** Reads the on/off state back from a volume message of each kind. */
  function DecodeStarlightVolume(m: seq<byte>): Option<bool>
  {
    if |m| == 4 && m[0] == 0xF0 && m[1] == 0x7F && m[3] == 0xF7 && (m[2] == 0x77 || m[2] == 0x78)
    then Some(m[2] == 0x77) else None
  }

  function DecodeOnOffControl(status: byte, m: seq<byte>): Option<bool>
  {
    if |m| == 3 && m[0] == status && m[1] == 0x7A && (m[2] == 0 || m[2] == 1)
    then Some(m[2] == 1) else None
  }

  /** The volume messages carry exactly one bit, whether the percent is
      non-zero: each decodes back to it, and two percents give the same
      message exactly when both or neither are zero. */
  lemma VolumeMessagesCarryMute(p: int, q: int)
    ensures DecodeStarlightVolume(StarlightVolumeMessage(p)) == Some(p != 0)
    ensures DecodeOnOffControl(0xBF, DreamSasVolumeMessage(p)) == Some(p != 0)
    ensures DecodeOnOffControl(0xFB, RgbVolumeMessage(p)) == Some(p != 0)
    ensures StarlightVolumeMessage(p) == StarlightVolumeMessage(q) <==> (p == 0 <==> q == 0)
    ensures DreamSasVolumeMessage(p) == DreamSasVolumeMessage(q) <==> (p == 0 <==> q == 0)
    ensures RgbVolumeMessage(p) == RgbVolumeMessage(q) <==> (p == 0 <==> q == 0)
  {
    if (p == 0) != (q == 0) {
      assert StarlightVolumeMessage(p)[2] != StarlightVolumeMessage(q)[2];
      assert DreamSasVolumeMessage(p)[2] != DreamSasVolumeMessage(q)[2];
      assert RgbVolumeMessage(p)[2] != RgbVolumeMessage(q)[2];
    }
  }

  /** Volume 0 on a DreamSAS keyboard is exactly `BF 7A 00`. */
  lemma DreamSasMuteExample()
    ensures DreamSasVolumeMessage(0) == [0xBF, 0x7A, 0x00]
  {
  }

  /** The C# RGB volume message starts with 0xFB, a System Real-Time byte,
      so unlike DreamSAS's it is not a Control Change. */
  lemma RgbVolumeIsNotControlChange(p: int)
    ensures !IsControlChange(RgbVolumeMessage(p))
  {
  }

  // ---------------------------------------------------------------------
  // Dispatch on an adapter instance
  // ---------------------------------------------------------------------

  /** `GetLEDControlMessage` of an adapter instance. */
  function LedMessage(unseen: UnseenAdapters, info: MidiDeviceInfo, isOn: bool, keyIndex: int): (m: seq<byte>)
    ensures info.vendor == RGBPiano ==> m == RgbLedMessage(isOn, keyIndex)
    ensures !IsUnseen(info.vendor) && info.vendor != RGBPiano ==> m == StandardLedMessage(isOn, keyIndex)
  {
    match info.vendor
    case RGBPiano => RgbLedMessage(isOn, keyIndex)
    case Starlight => StandardLedMessage(isOn, keyIndex)
    case GZUT => StandardLedMessage(isOn, keyIndex)
    case DreamSAS => StandardLedMessage(isOn, keyIndex)
    case GenericPiano => StandardLedMessage(isOn, keyIndex)
    case _ => unseen.led(info.vendor, isOn, keyIndex)
  }
}
