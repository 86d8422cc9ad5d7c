/**
 * Byte formats on the desk's GATT characteristics: command codes are packed as
 * little-endian unsigned 16-bit values (Python `struct.pack("<H", …)`), and the
 * Height characteristic carries a little-endian unsigned 16-bit height followed
 * by a signed 16-bit speed (`struct.unpack("<Hh", …)`).
 */
module Wire {
  import opened Wrappers

  type Byte = b: int | 0 <= b < 0x100
  type U16 = v: int | 0 <= v < 0x1_0000
  type I16 = v: int | -0x8000 <= v < 0x8000

  /** `struct.error`: the buffer does not have the size the format needs. */
  datatype DecodeError = WrongLength(expected: nat, actual: nat)

  /** The value of a low byte followed by a high byte. */
  function Word(low: Byte, high: Byte): U16 {
    low as int + 0x100 * high as int
  }

  /** `struct.pack("<H", v)`: low byte first. */
  function PackU16(v: U16): (bytes: seq<Byte>)
    ensures |bytes| == 2
    ensures Word(bytes[0], bytes[1]) == v
  {
    [v % 0x100, v / 0x100]
  }

  /** `struct.unpack("<H", bytes)`. */
  function UnpackU16(bytes: seq<Byte>): (r: Result<U16, DecodeError>)
    ensures r.Success? <==> |bytes| == 2
    ensures r.Failure? ==> r.error == WrongLength(2, |bytes|)
    ensures r.Success? ==> PackU16(r.value) == bytes
  {
    if |bytes| != 2 then Failure(WrongLength(2, |bytes|))
    else Success(Word(bytes[0], bytes[1]))
  }

  /** Reads a 16-bit pattern as two's complement. */
  function Signed16(u: U16): (s: I16)
    ensures (u - s) % 0x1_0000 == 0
    ensures s < 0 <==> u >= 0x8000
  {
    if u < 0x8000 then u else u - 0x1_0000
  }

  /** The 16-bit two's-complement pattern of a signed value. */
  function Unsigned16(s: I16): (u: U16)
    ensures (u - s) % 0x1_0000 == 0
    ensures s < 0 <==> u >= 0x8000
  {
    if s < 0 then s + 0x1_0000 else s
  }

  lemma SignedUnsignedInverse(s: I16, u: U16)
    ensures Signed16(Unsigned16(s)) == s
    ensures Unsigned16(Signed16(u)) == u
  {
  }

  lemma {:induction false} UnpackPackU16(v: U16)
    ensures UnpackU16(PackU16(v)) == Success(v)
  {
    var b := PackU16(v);
    assert Word(b[0], b[1]) == v;
  }

  /** One Height-characteristic record, in raw units. */
  datatype Telemetry = Telemetry(height: U16, speed: I16)

  /** The record as the desk sends it: `struct.pack("<Hh", height, speed)`. */
  function PackTelemetry(t: Telemetry): (bytes: seq<Byte>)
    ensures |bytes| == 4
    ensures Word(bytes[0], bytes[1]) == t.height
    ensures Signed16(Word(bytes[2], bytes[3])) == t.speed
  {
    SignedUnsignedInverse(t.speed, 0);
    PackU16(t.height) + PackU16(Unsigned16(t.speed))
  }

  /** `struct.unpack("<Hh", bytes)`: fails unless there are exactly four bytes. */
  function UnpackTelemetry(bytes: seq<Byte>): (r: Result<Telemetry, DecodeError>)
    ensures r.Success? <==> |bytes| == 4
    ensures r.Failure? ==> r.error == WrongLength(4, |bytes|)
    ensures r.Success? ==> PackTelemetry(r.value) == bytes
  {
    if |bytes| != 4 then Failure(WrongLength(4, |bytes|))
    else
      var height := UnpackU16(bytes[..2]).value;
      var pattern := UnpackU16(bytes[2..]).value;
      SignedUnsignedInverse(0, pattern);
      assert bytes == bytes[..2] + bytes[2..];
      Success(Telemetry(height, Signed16(pattern)))
  }

  lemma {:induction false} UnpackPackTelemetry(t: Telemetry)
    ensures UnpackTelemetry(PackTelemetry(t)) == Success(t)
  {
    var b := PackTelemetry(t);
    UnpackPackU16(t.height);
    UnpackPackU16(Unsigned16(t.speed));
    SignedUnsignedInverse(t.speed, 0);
    assert b[..2] == PackU16(t.height);
    assert b[2..] == PackU16(Unsigned16(t.speed));
  }

  /** A height of 100 raw units moving down at 10 raw units. */
  lemma TelemetryExample()
    ensures UnpackTelemetry([0x64, 0x00, 0xF6, 0xFF]) == Success(Telemetry(100, -10))
  {
  }

  const UP: U16 := 71
  const DOWN: U16 := 70
  const STOP: U16 := 255
  const REFERENCE_INPUT_STOP: U16 := 32769
  const REFERENCE_INPUT_UP: U16 := 32768
  const REFERENCE_INPUT_DOWN: U16 := 32767

  const COMMAND_UP: seq<Byte> := PackU16(UP)
  const COMMAND_DOWN: seq<Byte> := PackU16(DOWN)
  const COMMAND_STOP: seq<Byte> := PackU16(STOP)
  const COMMAND_REFERENCE_INPUT_STOP: seq<Byte> := PackU16(REFERENCE_INPUT_STOP)
  const COMMAND_REFERENCE_INPUT_UP: seq<Byte> := PackU16(REFERENCE_INPUT_UP)
  const COMMAND_REFERENCE_INPUT_DOWN: seq<Byte> := PackU16(REFERENCE_INPUT_DOWN)

  /** The bytes written for each command, and that each decodes back to its code. */
  lemma CommandBytes()
    ensures COMMAND_UP == [71, 0] && UnpackU16(COMMAND_UP) == Success(UP)
    ensures COMMAND_DOWN == [70, 0] && UnpackU16(COMMAND_DOWN) == Success(DOWN)
    ensures COMMAND_STOP == [255, 0] && UnpackU16(COMMAND_STOP) == Success(STOP)
    ensures COMMAND_REFERENCE_INPUT_STOP == [0x01, 0x80]
    ensures UnpackU16(COMMAND_REFERENCE_INPUT_STOP) == Success(REFERENCE_INPUT_STOP)
    ensures COMMAND_REFERENCE_INPUT_UP == [0x00, 0x80]
    ensures UnpackU16(COMMAND_REFERENCE_INPUT_UP) == Success(REFERENCE_INPUT_UP)
    ensures COMMAND_REFERENCE_INPUT_DOWN == [0xFF, 0x7F]
    ensures UnpackU16(COMMAND_REFERENCE_INPUT_DOWN) == Success(REFERENCE_INPUT_DOWN)
  {
    UnpackPackU16(UP);
    UnpackPackU16(DOWN);
    UnpackPackU16(STOP);
    UnpackPackU16(REFERENCE_INPUT_STOP);
    UnpackPackU16(REFERENCE_INPUT_UP);
    UnpackPackU16(REFERENCE_INPUT_DOWN);
  }
}
