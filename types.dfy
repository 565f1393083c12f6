/** Value types of the TCS3472 driver: bytes and 16-bit words, the error kinds,
    the two configuration enumerations with their register codes, and the
    measurement record returned by a combined channel read. */
module Types {

  /** An 8-bit register value or bus byte. */
  type U8 = bv8

  /** An unsigned 16-bit channel reading or threshold. */
  newtype U16 = x: int | 0 <= x < 0x1_0000

  datatype Option<+T> = None | Some(value: T)

  /** The result of a driver operation: a value or an error. */
  datatype Result<+T, +E> = Ok(value: T) | Err(error: E)

  /** The driver's errors: a wrapped bus error, or a parameter rejected before
      any bus access. */
  datatype Error<+E> = I2C(busError: E) | InvalidInputData

  /** The byte whose unsigned value is `x`, assembled bit by bit from the
      most significant end. */
  function ByteOf(x: int): (b: U8)
    requires 0 <= x < 256
    ensures b as int == x
    decreases x
  {
    if x == 0 then 0
    else
      var high := ByteOf(x / 2);
      var low: U8 := if x % 2 == 1 then 1 else 0;
      AppendBitValue(high, low);
      (high << 1) | low
  }

  /** Shifting a byte below 128 left and filling in a low bit doubles its
      value and adds the bit. */
  lemma AppendBitValue(high: U8, low: U8)
    requires high as int < 128 && low < 2
    ensures ((high << 1) | low) as int == 2 * high as int + low as int
  {
  }

  /** Two bytes with the same unsigned value are the same byte. */
  lemma ByteValueInjective(a: U8, b: U8)
    requires a as int == b as int
    ensures a == b
  {
  }

  // ---------------------------------------------------------------------------
  // RGBC gain

  datatype RgbCGain = Gain1x | Gain4x | Gain16x | Gain60x

  /** The CONTROL register code of a gain level. */
  function GainCode(gain: RgbCGain): (code: U8)
    ensures code < 4
  {
    match gain
    case Gain1x => 0
    case Gain4x => 1
    case Gain16x => 2
    case Gain60x => 3
  }

  /** The gain level a CONTROL code stands for, if any. */
  function GainOfCode(code: U8): (gain: Option<RgbCGain>)
    ensures gain.Some? <==> code < 4
    ensures gain.Some? ==> GainCode(gain.value) == code
  {
    if code == 0 then Some(Gain1x)
    else if code == 1 then Some(Gain4x)
    else if code == 2 then Some(Gain16x)
    else if code == 3 then Some(Gain60x)
    else None
  }

  /** The gain codes are 0, 1, 2, 3 for 1x, 4x, 16x, 60x; the code is
      injective, and decoding it recovers the gain. */
  lemma GainCodeRoundTrip(gain: RgbCGain, other: RgbCGain)
    ensures GainCode(Gain1x) == 0 && GainCode(Gain4x) == 1 && GainCode(Gain16x) == 2 && GainCode(Gain60x) == 3
    ensures GainOfCode(GainCode(gain)) == Some(gain)
    ensures GainCode(gain) == GainCode(other) ==> gain == other
  {
  }

  /** The multiplication factor each gain level names. */
  function GainFactor(gain: RgbCGain): (factor: nat)
    ensures factor in {1, 4, 16, 60}
  {
    match gain
    case Gain1x => 1
    case Gain4x => 4
    case Gain16x => 16
    case Gain60x => 60
  }

  /** A larger gain factor always has a larger code. */
  lemma GainCodeMonotonic(a: RgbCGain, b: RgbCGain)
    ensures GainFactor(a) < GainFactor(b) <==> GainCode(a) < GainCode(b)
  {
  }

  // ---------------------------------------------------------------------------
  // RGBC interrupt persistence

  /** How many consecutive out-of-range clear-channel values raise an
      interrupt; `Every` raises one on every RGBC cycle. */
  datatype RgbCInterruptPersistence =
    | Every | P1 | P2 | P3 | P5 | P10 | P15 | P20 | P25
    | P30 | P35 | P40 | P45 | P50 | P55 | P60

  /** The APERS register code of a persistence level: its position in the
      declaration order. */
  function PersistenceCode(p: RgbCInterruptPersistence): (code: U8)
    ensures code < 16
  {
    match p
    case Every => 0
    case P1 => 1
    case P2 => 2
    case P3 => 3
    case P5 => 4
    case P10 => 5
    case P15 => 6
    case P20 => 7
    case P25 => 8
    case P30 => 9
    case P35 => 10
    case P40 => 11
    case P45 => 12
    case P50 => 13
    case P55 => 14
    case P60 => 15
  }

  /** The number of consecutive out-of-range cycles a level names (0 for `Every`). */
  function PersistenceCycles(p: RgbCInterruptPersistence): (cycles: nat)
    ensures cycles <= 60
    ensures cycles > 3 ==> cycles % 5 == 0
  {
    match p
    case Every => 0
    case P1 => 1
    case P2 => 2
    case P3 => 3
    case P5 => 5
    case P10 => 10
    case P15 => 15
    case P20 => 20
    case P25 => 25
    case P30 => 30
    case P35 => 35
    case P40 => 40
    case P45 => 45
    case P50 => 50
    case P55 => 55
    case P60 => 60
  }

  /** The persistence level an APERS code stands for, if any. */
  function PersistenceOfCode(code: U8): (p: Option<RgbCInterruptPersistence>)
    ensures p.Some? <==> code < 16
    ensures p.Some? ==> PersistenceCode(p.value) == code
  {
    if code == 0 then Some(Every)
    else if code == 1 then Some(P1)
    else if code == 2 then Some(P2)
    else if code == 3 then Some(P3)
    else if code == 4 then Some(P5)
    else if code == 5 then Some(P10)
    else if code == 6 then Some(P15)
    else if code == 7 then Some(P20)
    else if code == 8 then Some(P25)
    else if code == 9 then Some(P30)
    else if code == 10 then Some(P35)
    else if code == 11 then Some(P40)
    else if code == 12 then Some(P45)
    else if code == 13 then Some(P50)
    else if code == 14 then Some(P55)
    else if code == 15 then Some(P60)
    else None
  }

  /** The persistence code is a bijection between the sixteen levels and 0..15. */
  lemma PersistenceCodeRoundTrip(p: RgbCInterruptPersistence, q: RgbCInterruptPersistence)
    ensures PersistenceOfCode(PersistenceCode(p)) == Some(p)
    ensures PersistenceCode(p) == PersistenceCode(q) ==> p == q
  {
  }

  /** The persistence code is strictly increasing in the cycle count. */
  lemma PersistenceCodeMonotonic(p: RgbCInterruptPersistence, q: RgbCInterruptPersistence)
    ensures PersistenceCycles(p) < PersistenceCycles(q) <==> PersistenceCode(p) < PersistenceCode(q)
  {
  }

  // ---------------------------------------------------------------------------
  // Measurements

  /** The four channel values of one combined read. */
  datatype AllChannelMeasurement = AllChannelMeasurement(red: U16, green: U16, blue: U16, clear: U16)
}
