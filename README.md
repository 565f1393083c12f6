# TCS3472 register protocol, modelled in Dafny

This project models the register-protocol layer of `tcs3472`, a Rust driver for
the TCS3472 colour-light-to-digital converter on an I²C bus. The model covers:

- the device handle, which owns the bus and keeps an 8-bit shadow of the ENABLE register;
- the byte sequences each operation writes to the sensor at address 0x29;
- the decoding of status bytes and 16-bit channel words;
- the validation of cycle counts;
- the register map, the bit flags and the typed parameters (gain, interrupt persistence, errors, the four-channel measurement).

The repository holds two versions of the driver. `src/lib.rs` is the older,
monolithic one. `src/configuration.rs`, `src/reading.rs`, `src/interface.rs`
and `src/types.rs` are the later, split one. Both share one model. The class
`Driver.Tcs3472` has a `generation` constant: `Monolithic` reads registers with
the plain command byte `0x80 | register` (src/lib.rs:211), and `Split` also sets
the auto-increment bit 0x20 (src/reading.rs:46).

Files, one module each:

- `types.dfy` (`Types`): bytes (`bv8`), 16-bit words, `Result`, `Option`, the
  error kinds (`I2C(e)` and `InvalidInputData`), gain and persistence levels
  with their codes, and `AllChannelMeasurement`.
- `interface.dfy` (`Interface`): the device address, the register addresses
  and the bit flags, with lemmas about their layout.
- `protocol.dfy` (`Protocol`): pure functions for command bytes, the status bit,
  little-endian words, cycle-count bytes and single-flag updates of the shadow.
  It also has `Replay`, a reference definition of the shadow after any run of
  enable/disable calls, and lemmas about it.
- `bus.dfy` (`Bus`): the I²C transport as a class that logs every transaction.
  Its success or failure, and the bytes a read returns, are parameters.
- `driver.dfy` (`Driver`): the handle. `Valid()` is the invariant that the
  shadow equals the last ENABLE value the bus accepted since the handle was
  created. Every operation keeps it.
- `scenarios.dfy` (`Scenarios`): callers that replay the repository's tests on
  the class, and a run of arbitrary toggles shown to end in `Replay`'s shadow.

Several operations have no implementation in src/ at this revision, and
only tests/configuration.rs and tests/reading.rs define them: gain,
integration and wait cycles, thresholds, persistence, the wait, interrupt
and wait-long toggles, `read_all_channels` and `read_device_id`. For these
the model writes exactly the bytes the tests expect, using the constants of
src/interface.rs. They belong to the split driver, so the class offers them
only on a `Split` handle; the monolithic handle has the POWER_ON and RGBC_EN
toggles and the status and channel reads of src/lib.rs.

Where the tests and the code disagree, the model follows the code:

- tests/tests.rs:79, tests/tests.rs:87 and tests/tests.rs:97 expect
  auto-increment command bytes. The monolithic `read_register`
  (src/lib.rs:211) sends none. The `Monolithic` generation follows
  src/lib.rs.
- tests/reading.rs:12 and tests/reading.rs:20 expect status reads without
  auto-increment. Split `read_register` (src/reading.rs:46) sets it. The
  `Split` generation follows src/reading.rs, so its status command is 0xB3.
- tests/reading.rs:62, the only definition of `read_device_id`, expects
  device-id reads without auto-increment. The model's `ReadDeviceId` does the
  same.

## Model

| member | source | states |
|---|---|---|
| Types.GainCode | src/types.rs:12-21 | every gain level has a CONTROL code below 4 |
| Types.GainOfCode | src/types.rs:12-21 | codes 0..3, and only those, decode to a gain whose code they are |
| Types.GainCodeRoundTrip | tests/configuration.rs:81-84 | the gain code is injective and decoding it gives back the gain (1x→0, 4x→1, 16x→2, 60x→3) |
| Types.GainFactor | src/types.rs:13-20 | each gain level names one of the factors 1, 4, 16, 60 |
| Types.GainCodeMonotonic | src/types.rs:12-21 | a larger gain factor has a larger code, and the converse |
| Types.PersistenceCode | tests/configuration.rs:216-231 | every persistence level has an APERS code below 16 |
| Types.PersistenceCycles | src/types.rs:27-60 | each level names at most 60 cycles, and counts above 3 are multiples of 5 |
| Types.PersistenceOfCode | src/types.rs:27-60 | codes 0..15, and only those, decode to the level whose code they are |
| Types.PersistenceCodeRoundTrip | tests/configuration.rs:216-231 | the persistence code is a bijection between the 16 levels and 0..15 |
| Types.PersistenceCodeMonotonic | src/types.rs:27-60 | the persistence code strictly increases with the level's cycle count |
| Interface.RegistersBelowCommandBits | src/interface.rs:5-26 | every register address is below 0x20, the addresses are distinct, and CMD and CMD_AUTO_INC are disjoint single bits above them |
| Interface.EnableFlagsAreDistinctBits | src/interface.rs:27-30 | POWER_ON, RGBC_EN, WAIT_EN and RGBC_INT_EN are pairwise-disjoint single bits |
| Interface.ChannelRegistersConsecutive | src/interface.rs:16-19 | RDATA, GDATA and BDATA are CDATA+2, +4, +6; 8 bytes from CDATA stay below 0x20; no other register lies at or above CDATA |
| Interface.ThresholdPairsDisjoint | src/interface.rs:9-10 | AILTL and AIHTL start two non-overlapping byte pairs that no other named register overlaps |
| Interface.StatusAndConfigFlagsOutsideEnable | src/interface.rs:31-32 | RGBC_VALID and WLONG are single bits of STATUS and CONFIG, which are not ENABLE |
| Protocol.CommandByte | src/reading.rs:46 | the command byte always has CMD set; for an address below 0x20, its low five bits are the address, bit 0x20 is set iff auto-increment is asked for, and bit 0x40 is clear |
| Protocol.CommandByteInjective | src/interface.rs:25-26 | two accesses with the same command byte have the same register and the same auto-increment choice |
| Protocol.RgbcStatusValid | src/reading.rs:16 | a status byte reports valid iff its value is odd, i.e. bit 0 is set |
| Protocol.DecodeLe16 | src/reading.rs:42 | bytes `lo, hi` decode to `hi * 256 + lo` (so the value is at most 65535) |
| Protocol.EncodeLe16 | tests/configuration.rs:121-137 | a 16-bit value is sent as `(v mod 256, v div 256)` |
| Protocol.DecodeEncodeLe16 | src/reading.rs:39-43 | decoding the encoding of a value gives the value |
| Protocol.EncodeDecodeLe16 | src/reading.rs:39-43 | encoding the decoded value of two bytes gives back the two bytes |
| Protocol.ChannelRegister | src/reading.rs:20-37 | every channel reads from one of CDATA, RDATA, GDATA, BDATA |
| Protocol.ChannelOffset | src/interface.rs:16-19 | clear, red, green, blue sit at even offsets 0..6 from CDATA, matching their registers |
| Protocol.DecodeAllChannels | tests/reading.rs:43-55 | each channel of a combined read is the little-endian word at that channel's offset in the eight bytes |
| Protocol.AutoIncrementRead | src/interface.rs:26 | an auto-increment read of n bytes from a register returns the n consecutive register values from it |
| Protocol.AllChannelsAgreeWithSingleReads | tests/reading.rs:43-55 | on one register snapshot, the combined read gives each channel the value of that channel's own two-byte read |
| Protocol.CyclesByte | tests/configuration.rs:99-119 | a cycle count is accepted iff it is in 1..256, and its byte b satisfies `(b + count) mod 256 == 0` |
| Protocol.CyclesOfByte | tests/configuration.rs:113-119 | every timing byte stands for a count in 1..256 that encodes back to it |
| Protocol.CyclesByteRoundTrip | tests/configuration.rs:113-119 | every accepted count is recovered from its byte |
| Protocol.EncodingExamples | tests/configuration.rs:99-202 | 0 and 257 are rejected; 1→0xFF, 10→0xF6, 85→0xAB, 256→0x00; thresholds 0, 1, 256, 65535 give (0,0), (1,0), (0,1), (255,255); (0xCD, 0xAB) decodes to 0xABCD |
| Protocol.FlagMask | src/interface.rs:27-30 | each ENABLE flag's mask is a single bit inside POWER_ON·RGBC_EN·WAIT_EN·RGBC_INT_EN |
| Protocol.FlagMasksDisjoint | src/interface.rs:27-30 | two flags' masks overlap iff they are the same flag |
| Protocol.SetFlag | src/configuration.rs:13-34 | setting or clearing a flag makes its bit 1 or 0 and leaves every other bit of the shadow unchanged |
| Protocol.SetFlagIdempotent | src/configuration.rs:13-16 | applying a toggle twice equals applying it once, and applying it to a shadow that already has it changes nothing |
| Protocol.SetFlagCommutes | src/configuration.rs:13-34 | toggles of different flags commute, and a later toggle of the same flag overrides the earlier one |
| Protocol.EnableDisableRestores | tests/configuration.rs:19-29 | enable-then-disable restores a shadow whose flag was clear; from 0 it ends at 0, and disable-then-enable ends at the flag's mask |
| Protocol.EnableSequencesFromZero | tests/tests.rs:49-72 | from 0: enable, enable_rgbc gives 0x03; then disable_rgbc gives 0x01; enable, disable gives 0; enable and enable_rgbc commute |
| Protocol.ReplayFlag | src/configuration.rs:13-43 | after any run of toggles, with any bus failures, each flag's bit is the setting of its last accepted toggle, or its initial value if no toggle was accepted |
| Protocol.ReplayKeepsOtherBits | src/configuration.rs:13-43 | no run of toggles changes a shadow bit outside the four flags |
| Bus.I2cBus.Write | src/configuration.rs:38-40 | a bus write logs exactly one transaction with the address, the bytes and the transport's outcome, and returns that outcome |
| Bus.I2cBus.WriteRead | src/reading.rs:47-49 | a write-read logs one transaction with the bytes sent and the buffer length; on success the buffer holds the reply, on failure it is unchanged |
| Driver.LastEnableWriteAppend | src/lib.rs:161-168 | a new transaction changes the last accepted ENABLE value exactly when it is an accepted two-byte ENABLE write to 0x29 |
| Driver.FromBus | src/configuration.rs:40 | a transport error becomes `I2C(e)`, a success stays a success |
| Driver.ReadResult | src/reading.rs:15-16 | a read yields its value only when the transport succeeded, and otherwise the wrapped transport error |
| Driver.Tcs3472.constructor | src/lib.rs:123-128 | a new handle holds the given bus, has shadow 0, leaves the bus log as it was, and is valid |
| Driver.Tcs3472.Destroy | src/lib.rs:131-133 | destroying a handle returns its own bus; having no `modifies` clause, it changes neither the bus log nor the handle |
| Driver.Tcs3472.WriteEnable | src/configuration.rs:36-43 | writes exactly `[0x80, value]` to 0x29; the shadow becomes `value` only if the write succeeded; a failure returns `I2C(e)` and keeps the shadow; validity is preserved |
| Driver.Tcs3472.Enable | src/configuration.rs:13-16 | writes `[0x80, shadow with POWER_ON set]`, and the shadow changes only in that bit, only on success |
| Driver.Tcs3472.Disable | src/configuration.rs:19-22 | writes `[0x80, shadow with POWER_ON cleared]`, and the shadow changes only in that bit, only on success |
| Driver.Tcs3472.EnableRgbc | src/configuration.rs:25-28 | writes `[0x80, shadow with RGBC_EN set]`, and the shadow changes only in that bit, only on success |
| Driver.Tcs3472.DisableRgbc | src/configuration.rs:31-34 | writes `[0x80, shadow with RGBC_EN cleared]`, and the shadow changes only in that bit, only on success |
| Driver.Tcs3472.EnableRgbcInterrupts | tests/configuration.rs:31-37 | writes `[0x80, shadow with RGBC_INT_EN set]` and updates the shadow only on success |
| Driver.Tcs3472.DisableRgbcInterrupts | tests/configuration.rs:38-44 | writes `[0x80, shadow with RGBC_INT_EN cleared]` and updates the shadow only on success |
| Driver.Tcs3472.EnableWait | tests/configuration.rs:46-52 | writes `[0x80, shadow with WAIT_EN set]` and updates the shadow only on success |
| Driver.Tcs3472.DisableWait | tests/configuration.rs:53 | writes `[0x80, shadow with WAIT_EN cleared]` and updates the shadow only on success |
| Driver.Tcs3472.EnableWaitLong | tests/configuration.rs:55-61 | writes `[0x8D, 0x02]` (CONFIG, WLONG) and leaves the shadow alone |
| Driver.Tcs3472.DisableWaitLong | tests/configuration.rs:62-68 | writes `[0x8D, 0x00]` and leaves the shadow alone |
| Driver.Tcs3472.WriteRegister | tests/configuration.rs:102-111 | writes exactly two bytes to 0x29, the plain command byte of a register other than ENABLE and the value, and keeps the shadow valid |
| Driver.Tcs3472.WriteRegisterPair | tests/configuration.rs:121-137 | writes the auto-increment command byte of the register, then `v mod 256` and `v div 256`: a 16-bit value, low byte first |
| Driver.Tcs3472.SetCycles | tests/configuration.rs:86-119 | a count outside 1..256 gives `InvalidInputData` with no bus transaction; otherwise writes the plain command byte of ATIME or WTIME and the cycles byte |
| Driver.Tcs3472.SetRgbcGain | tests/configuration.rs:70-84 | writes `[0x8F, gain code]` |
| Driver.Tcs3472.SetIntegrationCycles | tests/configuration.rs:99-115 | a count outside 1..256 gives `InvalidInputData` with no bus transaction; otherwise writes `[0x81, cycles byte]` |
| Driver.Tcs3472.SetWaitCycles | tests/configuration.rs:117-119 | a count outside 1..256 gives `InvalidInputData` with no bus transaction; otherwise writes `[0x83, cycles byte]` |
| Driver.Tcs3472.SetRgbcInterruptLowThreshold | tests/configuration.rs:138-169 | writes `[0xA4, t mod 256, t div 256]` |
| Driver.Tcs3472.SetRgbcInterruptHighThreshold | tests/configuration.rs:171-202 | writes `[0xA6, t mod 256, t div 256]` |
| Driver.Tcs3472.SetRgbcInterruptPersistence | tests/configuration.rs:204-231 | writes `[0x8C, persistence code]` |
| Driver.Tcs3472.ReadRegister | src/reading.rs:45-50 | sends the single command byte for the register and asks for exactly the buffer's length; the buffer gets the reply on success; the shadow is untouched |
| Driver.Tcs3472.IsRgbcStatusValid | src/reading.rs:13-17 | reads one byte from STATUS and returns true iff its bit 0 is set; a bus error is returned as `I2C(e)` with no value |
| Driver.Tcs3472.ReadChannel | src/reading.rs:39-43 | reads two bytes from the register and returns them decoded little-endian; a bus error is returned as `I2C(e)` |
| Driver.Tcs3472.ReadClearChannel | src/reading.rs:20-22 | reads two bytes from CDATA (0x14) and decodes them |
| Driver.Tcs3472.ReadRedChannel | src/reading.rs:25-27 | reads two bytes from RDATA (0x16) and decodes them |
| Driver.Tcs3472.ReadGreenChannel | src/reading.rs:30-32 | reads two bytes from GDATA (0x18) and decodes them |
| Driver.Tcs3472.ReadBlueChannel | src/reading.rs:35-37 | reads two bytes from BDATA (0x1A) and decodes them |
| Driver.Tcs3472.ReadAllChannels | tests/reading.rs:43-55 | one auto-increment read of 8 bytes from CDATA, decoded as clear, red, green, blue |
| Driver.Tcs3472.ReadDeviceId | tests/reading.rs:57-63 | one read of 1 byte from ID with command 0x92, returned raw |
| Scenarios.RunToggles | src/configuration.rs:13-43 | any run of enable/disable calls, with any bus failures, ends with shadow `Replay(old shadow, run)` and logs exactly the run's writes |
| Scenarios.EnableThenEnableRgbc | tests/tests.rs:57-63 | from a fresh handle, enable then enable_rgbc writes `[0x80, 0x01]` then `[0x80, 0x03]` |
| Scenarios.EnableThenToggleRgbc | tests/tests.rs:65-72 | enable, enable_rgbc, disable_rgbc write 0x01, 0x03, 0x01 |
| Scenarios.EnableDisablePairs | tests/configuration.rs:8-53 | for every flag, enable-then-disable on a fresh handle writes 0 last, and disable-then-enable writes the flag's mask last |
| Scenarios.FailedEnableKeepsShadow | src/lib.rs:161-168 | a failed enable returns `I2C(e)` and leaves the shadow at 0, so the next enable_rgbc writes 0x02 |
| Scenarios.EnableThenDisableWaitLong | tests/configuration.rs:55-68 | the wait-long toggles write `[0x8D, 0x02]` then `[0x8D, 0x00]` |
| Scenarios.CycleCounts | tests/configuration.rs:86-119 | counts 0 and 257 give `InvalidInputData` and no transaction; wait count 85 writes `[0x83, 0xAB]` |
| Scenarios.LowThreshold256 | tests/configuration.rs:154-161 | low threshold 256 writes `[0xA4, 0x00, 0x01]` |
| Scenarios.StatusReads | src/reading.rs:13-17 | the split driver reads status with 0xB3, because `read_register` sets auto-increment (src/reading.rs:46), where tests/reading.rs:12 and tests/reading.rs:20 expect 0x93; byte 0 is not valid, RGBC_VALID is |
| Scenarios.MonolithicStatusRead | src/lib.rs:178-182 | the monolithic driver reads status with 0x93 |
| Scenarios.ClearChannelReads | src/lib.rs:204-215 | both drivers decode `[0xCD, 0xAB]` as 0xABCD; the monolithic one sends 0x94, the split one 0xB4 |
| Scenarios.AllChannels | tests/reading.rs:43-55 | bytes `23 01 67 45 AB 89 EF CD` give clear 0x0123, red 0x4567, green 0x89AB, blue 0xCDEF, with command 0xB4 and 8 bytes |
| Scenarios.DeviceId | tests/reading.rs:57-63 | the device id read sends 0x92 and returns the byte read, 0x44 |

## Left out

- The I²C transport (the `embedded_hal` Write and WriteRead traits and the `map_err` plumbing) is a foreign library. `Bus.I2cBus` stands in for it. It logs transactions, and its outcome and reply bytes are parameters.
- Driver.Tcs3472.ReadRegister: the reply is required to have the buffer's length. A transport that succeeds fills the whole buffer, so this is an assumption about the bus, not a demand on callers. On a failure the model leaves the buffer unchanged, while the real transport promises nothing about it; the driver discards the buffer either way.
- The asynchronous (embassy) variant, examples/embassy.rs and examples/linux.rs are left out. They are suspension points, device-file setup, polling and printing, with the same byte logic.
- The test mock (`embedded_hal_mock`) and tests/common/mod.rs are left out. Their checks of the last address and the written bytes are expressed by the bus log.
- Rust generics over the bus type, and the `Debug` and `Default` derives, are left out. The bus error type stays a type parameter `E`.
- Exclusive ownership of the bus is not enforced. `Valid()` holds only while no other code writes to the handle's bus, which is what Rust's ownership guarantees.
- The `Error` of src/lib.rs has only the bus kind. Both generations share the two-kind `Types.Error`; on a `Monolithic` handle no operation can return `InvalidInputData`, because the operations that do require a `Split` handle.
- The Rust type of the cycle count does not appear in src/, so counts are `nat`. In real use they are bounded by a Rust unsigned type; every count above 256 is rejected either way.
- Physical timing and delays are out of scope, as is any lux or colour-temperature interpretation of raw counts.
