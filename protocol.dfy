/** The byte-level protocol of the driver: command bytes, the status bit,
    little-endian channel words, threshold and cycle-count encodings, and the
    arithmetic of setting and clearing one ENABLE flag in the shadow byte. */
module Protocol {
  import opened Types
  import opened Interface

  // ---------------------------------------------------------------------------
  // Command byte

  /** The first byte of every register access: CMD, the register address and,
      for auto-incrementing accesses, CMD_AUTO_INC. */
  function CommandByte(register: U8, autoInc: bool): (command: U8)
    ensures command & CMD == CMD
    ensures register < 0x20 ==> command & 0x1F == register
    ensures register < 0x20 ==> (command & CMD_AUTO_INC != 0 <==> autoInc)
    ensures register < 0x20 ==> command & 0x40 == 0
  {
    CMD | (if autoInc then CMD_AUTO_INC else 0) | register
  }

  /** Distinct register accesses have distinct command bytes. */
  lemma CommandByteInjective(r1: U8, a1: bool, r2: U8, a2: bool)
    requires r1 < 0x20 && r2 < 0x20
    requires CommandByte(r1, a1) == CommandByte(r2, a2)
    ensures r1 == r2 && a1 == a2
  {
  }

  // ---------------------------------------------------------------------------
  // Status

  /** Whether a STATUS byte reports completed RGBC integration (RGBC_VALID). */
  function RgbcStatusValid(status: U8): (valid: bool)
    ensures valid <==> status as int % 2 == 1
  {
    status & RGBC_VALID != 0
  }

  // ---------------------------------------------------------------------------
  // 16-bit words

  /** The 16-bit word sent as the byte pair `lo, hi` (low byte first). */
  function DecodeLe16(lo: U8, hi: U8): (value: U16)
    ensures value as int == hi as int * 256 + lo as int
  {
    (((hi as bv16) << 8) | (lo as bv16)) as U16
  }

  /** The byte pair, low byte first, that carries `value`. */
  function EncodeLe16(value: U16): (bytes: seq<U8>)
    ensures |bytes| == 2
    ensures bytes[0] as int == value as int % 256 && bytes[1] as int == value as int / 256
  {
    [ByteOf(value as int % 256), ByteOf(value as int / 256)]
  }

  /** Decoding undoes encoding. */
  lemma DecodeEncodeLe16(value: U16)
    ensures DecodeLe16(EncodeLe16(value)[0], EncodeLe16(value)[1]) == value
  {
  }

  /** Encoding undoes decoding: every byte pair is the encoding of its word. */
  lemma EncodeDecodeLe16(lo: U8, hi: U8)
    ensures EncodeLe16(DecodeLe16(lo, hi)) == [lo, hi]
  {
    var bytes := EncodeLe16(DecodeLe16(lo, hi));
    SplitWord(DecodeLe16(lo, hi), hi as int, lo as int);
    ByteValueInjective(bytes[0], lo);
    ByteValueInjective(bytes[1], hi);
  }

  /** The encoding of `h * 256 + l` has the byte values `l` and `h`. */
  lemma SplitWord(value: U16, h: int, l: int)
    requires 0 <= h < 256 && 0 <= l < 256 && value as int == h * 256 + l
    ensures EncodeLe16(value)[0] as int == l && EncodeLe16(value)[1] as int == h
  {
  }

  // ---------------------------------------------------------------------------
  // Channels

  datatype Channel = Clear | Red | Green | Blue

  /** The register holding the low byte of a channel's reading. */
  function ChannelRegister(channel: Channel): (register: U8)
    ensures register in {CDATA, RDATA, GDATA, BDATA}
  {
    match channel
    case Clear => CDATA
    case Red => RDATA
    case Green => GDATA
    case Blue => BDATA
  }

  /** The position of a channel's byte pair in an auto-incrementing read
      starting at CDATA. */
  function ChannelOffset(channel: Channel): (offset: nat)
    ensures offset <= 6 && offset % 2 == 0
    ensures ChannelRegister(channel) as int == CDATA as int + offset
  {
    match channel
    case Clear => 0
    case Red => 2
    case Green => 4
    case Blue => 6
  }

  /** The value a measurement holds for one channel. */
  function ChannelValue(m: AllChannelMeasurement, channel: Channel): U16 {
    match channel
    case Clear => m.clear
    case Red => m.red
    case Green => m.green
    case Blue => m.blue
  }

  /** The measurement carried by the eight bytes read from CDATA onwards:
      each channel's word is the pair at that channel's offset. */
  function DecodeAllChannels(data: seq<U8>): (m: AllChannelMeasurement)
    requires |data| == 8
    ensures forall channel: Channel ::
      ChannelValue(m, channel) == DecodeLe16(data[ChannelOffset(channel)], data[ChannelOffset(channel) + 1])
  {
    AllChannelMeasurement(
      clear := DecodeLe16(data[0], data[1]),
      red := DecodeLe16(data[2], data[3]),
      green := DecodeLe16(data[4], data[5]),
      blue := DecodeLe16(data[6], data[7]))
  }

  /** A device whose registers hold `regs` answers an auto-incrementing read
      of `n` bytes from `register` with the next `n` register values. */
  function AutoIncrementRead(regs: seq<U8>, register: U8, n: nat): (data: seq<U8>)
    requires register as int + n <= |regs|
    ensures |data| == n
    ensures forall i :: 0 <= i < n ==> data[i] == regs[register as int + i]
  {
    regs[register as int .. register as int + n]
  }

  /** On one register snapshot, the combined read of all channels gives each
      channel the value its own two-byte read gives. */
  lemma AllChannelsAgreeWithSingleReads(regs: seq<U8>, channel: Channel)
    requires |regs| == 0x20
    ensures ChannelValue(DecodeAllChannels(AutoIncrementRead(regs, CDATA, 8)), channel) ==
      var single := AutoIncrementRead(regs, ChannelRegister(channel), 2);
      DecodeLe16(single[0], single[1])
  {
    var all := AutoIncrementRead(regs, CDATA, 8);
    var single := AutoIncrementRead(regs, ChannelRegister(channel), 2);
    var k := ChannelOffset(channel);
    assert all[k] == single[0] && all[k + 1] == single[1];
  }

  // ---------------------------------------------------------------------------
  // Parameter encodings

  /** The ATIME/WTIME byte for a cycle count: counts 1..256 are sent as
      256 - count (so 256 is sent as 0); every other count is rejected. */
  function CyclesByte(cycles: nat): (code: Option<U8>)
    ensures code.Some? <==> 1 <= cycles <= 256
    ensures code.Some? ==> (code.value as int + cycles) % 256 == 0
  {
    if 1 <= cycles <= 256 then Some(ByteOf((256 - cycles) % 256)) else None
  }

  /** The cycle count an ATIME/WTIME byte stands for. */
  function CyclesOfByte(code: U8): (cycles: nat)
    ensures 1 <= cycles <= 256
    ensures CyclesByte(cycles) == Some(code)
  {
    var k := code as int;
    CyclesByteOfComplement(k);
    ByteValueInjective(CyclesByte(256 - k).value, code);
    256 - k
  }

  /** The byte for the count `256 - k` has the value `k`. */
  lemma CyclesByteOfComplement(k: int)
    requires 0 <= k < 256
    ensures CyclesByte(256 - k).Some? && CyclesByte(256 - k).value as int == k
  {
    assert (256 - (256 - k)) % 256 == k;
    assert CyclesByte(256 - k) == Some(ByteOf(k));
  }

  /** Every accepted cycle count is recovered from its byte. */
  lemma CyclesByteRoundTrip(cycles: nat)
    requires 1 <= cycles <= 256
    ensures CyclesOfByte(CyclesByte(cycles).value) == cycles
  {
  }

  /** The bytes the tests pin down for cycle counts and thresholds. */
  lemma EncodingExamples()
    ensures CyclesByte(0) == None && CyclesByte(257) == None
    ensures CyclesByte(1) == Some(0xFF) && CyclesByte(10) == Some(0xF6)
    ensures CyclesByte(85) == Some(0xAB) && CyclesByte(256) == Some(0x00)
    ensures EncodeLe16(0) == [0, 0] && EncodeLe16(1) == [1, 0]
    ensures EncodeLe16(256) == [0, 1] && EncodeLe16(65535) == [255, 255]
    ensures DecodeLe16(0xCD, 0xAB) == 0xABCD
  {
    assert ByteOf(0xFF) == 0xFF && ByteOf(0xF6) == 0xF6 && ByteOf(0xAB) == 0xAB;
    assert ByteOf(0) == 0 && ByteOf(1) == 1;
  }

  // ---------------------------------------------------------------------------
  // ENABLE flags

  /** The ENABLE bits the driver toggles. */
  datatype EnableFlag = PowerOn | RgbcEnable | WaitEnable | RgbcInterruptEnable

  /** The mask of one ENABLE flag. */
  function FlagMask(flag: EnableFlag): (mask: U8)
    ensures IsSingleBit(mask)
    ensures mask & !ALL_FLAGS == 0
  {
    match flag
    case PowerOn => POWER_ON
    case RgbcEnable => RGBC_EN
    case WaitEnable => WAIT_EN
    case RgbcInterruptEnable => RGBC_INT_EN
  }

  /** The union of all toggled ENABLE flags. */
  const ALL_FLAGS: U8 := POWER_ON | RGBC_EN | WAIT_EN | RGBC_INT_EN

  /** Different flags have disjoint masks. */
  lemma FlagMasksDisjoint(f: EnableFlag, g: EnableFlag)
    ensures f != g <==> FlagMask(f) & FlagMask(g) == 0
  {
  }

  /** The shadow with `flag` set (`on`) or cleared (not `on`). */
  function SetFlag(shadow: U8, flag: EnableFlag, on: bool): (next: U8)
    ensures next & FlagMask(flag) == (if on then FlagMask(flag) else 0)
    ensures next & !FlagMask(flag) == shadow & !FlagMask(flag)
  {
    if on then shadow | FlagMask(flag) else shadow & !FlagMask(flag)
  }

  /** Setting a flag to the value it already has changes nothing; in
      particular setting or clearing twice is the same as once. */
  lemma SetFlagIdempotent(shadow: U8, flag: EnableFlag, on: bool)
    ensures SetFlag(SetFlag(shadow, flag, on), flag, on) == SetFlag(shadow, flag, on)
    ensures (shadow & FlagMask(flag) != 0) == on ==> SetFlag(shadow, flag, on) == shadow
  {
  }

  /** Toggles of different flags commute; a later toggle of the same flag
      overrides an earlier one. */
  lemma SetFlagCommutes(shadow: U8, f: EnableFlag, a: bool, g: EnableFlag, b: bool)
    ensures f != g ==> SetFlag(SetFlag(shadow, f, a), g, b) == SetFlag(SetFlag(shadow, g, b), f, a)
    ensures SetFlag(SetFlag(shadow, f, a), f, b) == SetFlag(shadow, f, b)
  {
    if f != g {
      FlagOrderIrrelevant(shadow, f, a, g, b);
    }
    LaterToggleWins(shadow, f, a, b);
  }

  /** Toggles of different flags, in either order, give the same shadow. */
  lemma FlagOrderIrrelevant(shadow: U8, f: EnableFlag, a: bool, g: EnableFlag, b: bool)
    requires f != g
    ensures SetFlag(SetFlag(shadow, f, a), g, b) == SetFlag(SetFlag(shadow, g, b), f, a)
  {
    if a && b {
      SetsCommute(shadow, FlagMask(f), FlagMask(g));
    } else if a {
      SetClearFlagsCommute(shadow, f, g);
    } else if b {
      SetClearFlagsCommute(shadow, g, f);
    } else {
      ClearsCommute(shadow, FlagMask(f), FlagMask(g));
    }
  }

  /** Setting one flag and clearing another does not depend on the order. */
  lemma SetClearFlagsCommute(shadow: U8, f: EnableFlag, g: EnableFlag)
    requires f != g
    ensures SetFlag(SetFlag(shadow, f, true), g, false) == SetFlag(SetFlag(shadow, g, false), f, true)
  {
    FlagMasksDisjoint(f, g);
    SetClearCommute(shadow, FlagMask(f), FlagMask(g));
  }

  /** Of two toggles of the same flag, the later one decides. */
  lemma LaterToggleWins(shadow: U8, f: EnableFlag, a: bool, b: bool)
    ensures SetFlag(SetFlag(shadow, f, a), f, b) == SetFlag(shadow, f, b)
  {
    AgreeInsideAndOutside(SetFlag(SetFlag(shadow, f, a), f, b), SetFlag(shadow, f, b), FlagMask(f));
  }

  /** Setting two masks does not depend on the order. */
  lemma SetsCommute(x: U8, m: U8, n: U8)
    ensures (x | m) | n == (x | n) | m
  {
  }

  /** Setting one mask and clearing a disjoint one does not depend on the order. */
  lemma SetClearCommute(x: U8, m: U8, n: U8)
    requires m & n == 0
    ensures (x | m) & !n == (x & !n) | m
  {
  }

  /** Clearing two masks does not depend on the order. */
  lemma ClearsCommute(x: U8, m: U8, n: U8)
    ensures (x & !m) & !n == (x & !n) & !m
  {
  }

  /** Two bytes that agree inside a mask and outside it are equal. */
  lemma AgreeInsideAndOutside(x: U8, y: U8, m: U8)
    requires x & m == y & m && x & !m == y & !m
    ensures x == y
  {
  }

  /** Enabling a flag and disabling it again restores a shadow in which it was
      clear; disabling then enabling leaves exactly the flag set. */
  lemma EnableDisableRestores(shadow: U8, flag: EnableFlag)
    ensures shadow & FlagMask(flag) == 0 ==> SetFlag(SetFlag(shadow, flag, true), flag, false) == shadow
    ensures SetFlag(SetFlag(0, flag, false), flag, true) == FlagMask(flag)
    ensures SetFlag(SetFlag(0, flag, true), flag, false) == 0
  {
  }

  /** Power on then RGBC enable from shadow 0 accumulates both flags; clearing
      RGBC enable again leaves power on alone. */
  lemma EnableSequencesFromZero()
    ensures SetFlag(SetFlag(0, PowerOn, true), RgbcEnable, true) == 0x03
    ensures SetFlag(SetFlag(SetFlag(0, PowerOn, true), RgbcEnable, true), RgbcEnable, false) == 0x01
    ensures SetFlag(SetFlag(0, PowerOn, true), PowerOn, false) == 0
    ensures SetFlag(SetFlag(0, RgbcEnable, true), PowerOn, true) == SetFlag(SetFlag(0, PowerOn, true), RgbcEnable, true)
  {
  }

  // ---------------------------------------------------------------------------
  // Runs of ENABLE toggles

  /** One enable/disable call: the flag, whether it sets or clears it, and
      whether the bus accepted the write. */
  datatype Toggle = Toggle(flag: EnableFlag, on: bool, accepted: bool)

  /** The shadow after a run of toggles: each accepted write applies its
      toggle, each rejected write leaves the shadow as it was. */
  function Replay(shadow: U8, run: seq<Toggle>): U8
    decreases |run|
  {
    if run == [] then shadow
    else
      var last := run[|run| - 1];
      var before := Replay(shadow, run[..|run| - 1]);
      if last.accepted then SetFlag(before, last.flag, last.on) else before
  }

  /** The setting of the last accepted toggle of `flag` in `run`, if any. */
  function LastAccepted(run: seq<Toggle>, flag: EnableFlag): Option<bool>
    decreases |run|
  {
    if run == [] then None
    else
      var last := run[|run| - 1];
      if last.accepted && last.flag == flag then Some(last.on)
      else LastAccepted(run[..|run| - 1], flag)
  }

  /** After any run, each flag's bit is the setting of its last accepted
      toggle, or its initial bit if it had none. */
  lemma {:induction false} ReplayFlag(shadow: U8, run: seq<Toggle>, flag: EnableFlag)
    ensures Replay(shadow, run) & FlagMask(flag) ==
      match LastAccepted(run, flag)
      case None => shadow & FlagMask(flag)
      case Some(on) => if on then FlagMask(flag) else 0
    decreases |run|
  {
    if run != [] {
      var last := run[|run| - 1];
      var before := Replay(shadow, run[..|run| - 1]);
      ReplayFlag(shadow, run[..|run| - 1], flag);
      if last.accepted && last.flag != flag {
        FlagMasksDisjoint(last.flag, flag);
        assert SetFlag(before, last.flag, last.on) & FlagMask(flag) == before & FlagMask(flag);
      }
    }
  }

  /** No run of toggles changes a bit outside the toggled flags. */
  lemma {:induction false} ReplayKeepsOtherBits(shadow: U8, run: seq<Toggle>)
    ensures Replay(shadow, run) & !ALL_FLAGS == shadow & !ALL_FLAGS
    decreases |run|
  {
    if run != [] {
      var last := run[|run| - 1];
      var before := Replay(shadow, run[..|run| - 1]);
      ReplayKeepsOtherBits(shadow, run[..|run| - 1]);
      assert SetFlag(before, last.flag, last.on) & !ALL_FLAGS == before & !ALL_FLAGS;
    }
  }
}
