/**
 * Conversion between the desk's raw height and speed units and physical units.
 * A raw height counts tenths of a millimetre above the desk's lowest position,
 * BASE_HEIGHT; a raw speed counts hundredths of a millimetre per second.
 * The program divides with floating point; the model divides exactly, in `real`.
 */
module Units {

  /** Height of the desk at its lowest position, in mm. */
  const BASE_HEIGHT: int := 620
  /** Height of the desk at its highest position, in mm. */
  const MAX_HEIGHT: int := 1270

  /** Raw device height for a physical height in whole mm. */
  function MmToRaw(mm: int): (raw: int)
    ensures RawToMM(raw) == mm as real
  {
    (mm - BASE_HEIGHT) * 10
  }

  /** Physical height in mm for a raw device height. */
  function RawToMM(raw: int): (mm: real)
    ensures (mm - BASE_HEIGHT as real) * 10.0 == raw as real
  {
    raw as real / 10.0 + BASE_HEIGHT as real
  }

  /** Physical speed in mm/s for a raw device speed; the sign gives the direction. */
  function RawToSpeed(raw: int): (mmPerSecond: real)
    ensures mmPerSecond * 100.0 == raw as real
    ensures mmPerSecond > 0.0 <==> raw > 0
    ensures mmPerSecond < 0.0 <==> raw < 0
  {
    raw as real / 100.0
  }

  /** The physical range of the desk is raw 0 to 6500. */
  lemma RawRange()
    ensures MmToRaw(BASE_HEIGHT) == 0
    ensures MmToRaw(MAX_HEIGHT) == 6500
  {
  }

  lemma MmToRawStrictlyIncreasing(a: int, b: int)
    requires a < b
    ensures MmToRaw(a) < MmToRaw(b)
  {
  }

  lemma RawToMMStrictlyIncreasing(a: int, b: int)
    requires a < b
    ensures RawToMM(a) < RawToMM(b)
  {
  }

  /** A raw height that is a whole number of mm converts back to exactly that raw height. */
  lemma WholeMillimetreRoundTrip(raw: int)
    requires raw % 10 == 0
    ensures RawToMM(raw) == (raw / 10 + BASE_HEIGHT) as real
    ensures MmToRaw(raw / 10 + BASE_HEIGHT) == raw
  {
  }
}
