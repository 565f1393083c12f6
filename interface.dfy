/** The device's fixed bus address, register map and bit flags, with the
    layout facts the protocol relies on. */
module Interface {
  import opened Types

  /** The 7-bit bus address of the sensor. */
  const DEVICE_ADDRESS: U8 := 0x29

  // Register addresses.
  const ENABLE: U8 := 0x00
  const ATIME: U8 := 0x01
  const WTIME: U8 := 0x03
  const AILTL: U8 := 0x04
  const AIHTL: U8 := 0x06
  const APERS: U8 := 0x0C
  const CONFIG: U8 := 0x0D
  const CONTROL: U8 := 0x0F
  const ID: U8 := 0x12
  const STATUS: U8 := 0x13
  const CDATA: U8 := 0x14
  const RDATA: U8 := 0x16
  const GDATA: U8 := 0x18
  const BDATA: U8 := 0x1A

  // Bit flags: command byte.
  const CMD: U8 := 0x80
  const CMD_AUTO_INC: U8 := 0x20
  // Bit flags: ENABLE register.
  const POWER_ON: U8 := 0x01
  const RGBC_EN: U8 := 0x02
  const WAIT_EN: U8 := 0x08
  const RGBC_INT_EN: U8 := 0x10
  // Bit flags: STATUS register.
  const RGBC_VALID: U8 := 0x01
  // Bit flags: CONFIG register.
  const WLONG: U8 := 0x02

  /** Every named register address. */
  const REGISTERS: seq<U8> :=
    [ENABLE, ATIME, WTIME, AILTL, AIHTL, APERS, CONFIG, CONTROL, ID, STATUS, CDATA, RDATA, GDATA, BDATA]

  /** The bits of the ENABLE register the driver toggles. */
  const ENABLE_FLAGS: seq<U8> := [POWER_ON, RGBC_EN, WAIT_EN, RGBC_INT_EN]

  /** `b` has exactly one bit set. */
  predicate IsSingleBit(b: U8) {
    b != 0 && b & (b - 1) == 0
  }

  /** All register addresses lie below the command and auto-increment bits,
      are distinct, and so survive being ORed into a command byte. */
  lemma RegistersBelowCommandBits()
    ensures forall i :: 0 <= i < |REGISTERS| ==> REGISTERS[i] < 0x20
    ensures forall i :: 0 <= i < |REGISTERS| ==> REGISTERS[i] & (CMD | CMD_AUTO_INC) == 0
    ensures forall i, j :: 0 <= i < j < |REGISTERS| ==> REGISTERS[i] != REGISTERS[j]
    ensures CMD & CMD_AUTO_INC == 0 && IsSingleBit(CMD) && IsSingleBit(CMD_AUTO_INC)
  {
  }

  /** The ENABLE flags are pairwise-distinct single-bit masks. */
  lemma EnableFlagsAreDistinctBits()
    ensures forall i :: 0 <= i < |ENABLE_FLAGS| ==> IsSingleBit(ENABLE_FLAGS[i])
    ensures forall i, j :: 0 <= i < j < |ENABLE_FLAGS| ==> ENABLE_FLAGS[i] & ENABLE_FLAGS[j] == 0
  {
  }

  /** The four channel data registers are consecutive two-byte pairs starting
      at CDATA, in the order clear, red, green, blue; an eight-byte
      auto-incrementing read from CDATA covers exactly them. */
  lemma ChannelRegistersConsecutive()
    ensures RDATA == CDATA + 2 && GDATA == CDATA + 4 && BDATA == CDATA + 6
    ensures CDATA as int + 8 <= 0x20
    ensures forall i :: 0 <= i < |REGISTERS| && REGISTERS[i] >= CDATA ==> REGISTERS[i] in {CDATA, RDATA, GDATA, BDATA}
  {
  }

  /** The threshold registers are the low bytes of two non-overlapping
      two-byte pairs, and neither pair overlaps another named register. */
  lemma ThresholdPairsDisjoint()
    ensures AILTL + 2 == AIHTL
    ensures forall i :: 0 <= i < |REGISTERS| ==> REGISTERS[i] !in {AILTL + 1, AIHTL + 1}
  {
  }

  /** RGBC_VALID is a STATUS bit and WLONG a CONFIG bit: both are single bits
      of registers other than ENABLE, so the ENABLE shadow never holds them. */
  lemma StatusAndConfigFlagsOutsideEnable()
    ensures IsSingleBit(RGBC_VALID) && IsSingleBit(WLONG)
    ensures STATUS != ENABLE && CONFIG != ENABLE
  {
  }
}
