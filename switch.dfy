/** The switch event of `switch_info.rs` and the bit layout of the frame payload. */
module Switch {
  import opened Common

  /** `SwitchType`. `Unknown` is the kind of a frame whose payload has not arrived yet. */
  datatype SwitchType = Unknown | Digital | Analog

  /** `SwitchInfo`: `switch_id` is a `u8`, `switch_state` a `u16`, `timestamp` milliseconds. */
  datatype SwitchInfo = SwitchInfo(switchType: SwitchType, switchId: u8, switchState: u16, timestamp: int)

  /** `SwitchInfo::new()`. */
  const NewSwitchInfo := SwitchInfo(Unknown, 0, 0, 0)

  /* The payload fields are written with division and remainder; BitLayout below shows
     that each equals the mask-and-shift of the source on every byte. */

  /** `(b & 0b1000_0000) >> 7` picks the kind: 0 is Digital, 1 is Analog. */
  function TypeOfFirstByte(b: byte): (t: SwitchType)
    ensures t != Unknown
    ensures t == Analog <==> b >= 0x80
  {
    var bit := b / 128;
    if bit == 0 then Digital else if bit == 1 then Analog else Unknown
  }

  /** Digital payload `0iiiiiis`: `(b0 & 0b0111_1110) >> 1`. */
  function DigitalId(b0: byte): (id: u8)
    ensures id <= 63
  {
    (b0 % 128) / 2
  }

  /** `b0 & 0b0000_0001`. */
  function DigitalState(b0: byte): (state: u16)
    ensures state <= 1
  {
    b0 % 2
  }

  /** Analog payload `1iiiiiss ssssssss`: `(b0 & 0b0111_1100) >> 2`. */
  function AnalogId(b0: byte): (id: u8)
    ensures id <= 31
  {
    (b0 % 128) / 4
  }

  /** `((b0 & 0b0000_0011) as u16) << 8 | b1 as u16`. */
  function AnalogState(b0: byte, b1: byte): (state: u16)
    ensures state <= 1023
  {
    (b0 % 4) * 256 + b1
  }

  /** The arithmetic above is the source's mask-and-shift, bit for bit. */
  lemma TypeBitLayout(b0: bv8)
    ensures TypeOfFirstByte(b0 as int) == (if (b0 & 0x80) >> 7 == 0 then Digital else Analog)
  {
  }

  lemma DigitalBitLayout(b0: bv8)
    ensures DigitalId(b0 as int) == ((b0 & 0x7E) >> 1) as int
    ensures DigitalState(b0 as int) == (b0 & 0x01) as int
  {
    MaskShiftDigitalId(b0);
    MaskDigitalState(b0);
  }

  lemma AnalogIdBitLayout(b0: bv8)
    ensures AnalogId(b0 as int) == ((b0 & 0x7C) >> 2) as int
  {
    MaskShiftAnalogId(b0);
  }

  /** The masks read as arithmetic on the byte's value. */
  lemma MaskShiftDigitalId(b0: bv8)
    ensures ((b0 & 0x7E) >> 1) as int == (b0 as int % 128) / 2
  {
  }

  lemma MaskDigitalState(b0: bv8)
    ensures (b0 & 0x01) as int == b0 as int % 2
  {
  }

  lemma MaskShiftAnalogId(b0: bv8)
    ensures ((b0 & 0x7C) >> 2) as int == (b0 as int % 128) / 4
  {
  }

  lemma AnalogStateBitLayout(b0: bv8, b1: bv8)
    ensures AnalogState(b0 as int, b1 as int) == ((((b0 & 0x03) as bv16) << 8) | (b1 as bv16)) as int
  {
  }

  /** What the device puts on the wire for a digital switch: the inverse of the decoding. */
  function EncodeDigital(id: u8, state: u16): (b0: byte)
    requires id <= 63 && state <= 1
    ensures b0 < 0x80
  {
    id * 2 + state
  }

  /** What the device puts on the wire for an analog switch. */
  function EncodeAnalog(id: u8, state: u16): (payload: (byte, byte))
    requires id <= 31 && state <= 1023
    ensures payload.0 >= 0x80
  {
    (0x80 + id * 4 + state / 256, state % 256)
  }

  /** Decoding a digital byte loses nothing: id and state give the byte back... */
  lemma DigitalDecodeEncode(b0: byte)
    requires b0 < 0x80
    ensures EncodeDigital(DigitalId(b0), DigitalState(b0)) == b0
  {
  }

  /** ...and every id and state the device can send is decoded as sent. */
  lemma DigitalEncodeDecode(id: u8, state: u16)
    requires id <= 63 && state <= 1
    ensures DigitalId(EncodeDigital(id, state)) == id
    ensures DigitalState(EncodeDigital(id, state)) == state
  {
    var b0 := id * 2 + state;
    assert b0 % 128 == b0;
    assert b0 / 2 == id && b0 % 2 == state;
  }

  lemma AnalogDecodeEncode(b0: byte, b1: byte)
    requires b0 >= 0x80
    ensures EncodeAnalog(AnalogId(b0), AnalogState(b0, b1)) == (b0, b1)
  {
    var state := AnalogState(b0, b1);
    assert state / 256 == b0 % 4 && state % 256 == b1;
  }

  lemma AnalogEncodeDecode(id: u8, state: u16)
    requires id <= 31 && state <= 1023
    ensures AnalogId(EncodeAnalog(id, state).0) == id
    ensures AnalogState(EncodeAnalog(id, state).0, EncodeAnalog(id, state).1) == state
  {
    var hi, lo := state / 256, state % 256;
    assert hi <= 3;
    var b0 := 0x80 + id * 4 + hi;
    assert b0 % 128 == id * 4 + hi;
    assert (id * 4 + hi) / 4 == id && b0 % 4 == hi;
  }
}
