/** Callers of the driver: the byte sequences the repository's tests expect
    for short runs of operations on a fresh handle, and a run of arbitrary
    ENABLE toggles whose effect on the shadow is the pure `Replay`. */
module Scenarios {
  import opened Types
  import opened Interface
  import opened Protocol
  import opened Bus
  import opened Driver

  /** Issues the enable/disable call for `flag`. */
  method ApplyToggle<E>(dev: Tcs3472<E>, flag: EnableFlag, on: bool, outcome: Result<(), E>)
    returns (r: Result<(), Error<E>>)
    requires dev.Valid() && dev.Offers(flag)
    modifies dev, dev.i2c
    ensures dev.Valid() && dev.Toggled(flag, on, outcome, r)
  {
    match flag
    case PowerOn =>
      if on { r := dev.Enable(outcome); } else { r := dev.Disable(outcome); }
    case RgbcEnable =>
      if on { r := dev.EnableRgbc(outcome); } else { r := dev.DisableRgbc(outcome); }
    case WaitEnable =>
      if on { r := dev.EnableWait(outcome); } else { r := dev.DisableWait(outcome); }
    case RgbcInterruptEnable =>
      if on { r := dev.EnableRgbcInterrupts(outcome); } else { r := dev.DisableRgbcInterrupts(outcome); }
  }

  /** The transport outcome of a toggle: accepted, or failed with `failure`. */
  function OutcomeOf<E>(t: Toggle, failure: E): Result<(), E> {
    if t.accepted then Ok(()) else Err(failure)
  }

  /** The writes a run of toggles issues from shadow `shadow`: each sends the
      shadow left by the toggles before it, with its own flag applied. */
  function ToggleWrites<E>(shadow: U8, run: seq<Toggle>, failure: E): (writes: seq<Transaction<E>>)
    ensures |writes| == |run|
    decreases |run|
  {
    if run == [] then []
    else
      var last := run[|run| - 1];
      var before := Replay(shadow, run[..|run| - 1]);
      ToggleWrites(shadow, run[..|run| - 1], failure) +
        [WriteTx(DEVICE_ADDRESS, [CMD | ENABLE, SetFlag(before, last.flag, last.on)], OutcomeOf(last, failure))]
  }

  /** One more toggle extends the replayed shadow and the writes by one step. */
  lemma ToggleStep<E>(shadow: U8, run: seq<Toggle>, i: nat, failure: E)
    requires i < |run|
    ensures Replay(shadow, run[..i + 1]) ==
      if run[i].accepted then SetFlag(Replay(shadow, run[..i]), run[i].flag, run[i].on) else Replay(shadow, run[..i])
    ensures ToggleWrites(shadow, run[..i + 1], failure) == ToggleWrites(shadow, run[..i], failure) +
      [WriteTx(DEVICE_ADDRESS, [CMD | ENABLE, SetFlag(Replay(shadow, run[..i]), run[i].flag, run[i].on)], OutcomeOf(run[i], failure))]
  {
    assert run[..i + 1][..i] == run[..i];
  }

  /** Issues the `i`th toggle of `run`, extending the replayed shadow and the
      run's writes by one step. */
  method ApplyNext<E>(dev: Tcs3472<E>, run: seq<Toggle>, i: nat, failure: E, ghost start: U8, ghost log0: seq<Transaction<E>>)
    requires i < |run| && dev.Valid() && dev.Offers(run[i].flag)
    requires dev.enable == Replay(start, run[..i])
    requires dev.i2c.log == log0 + ToggleWrites(start, run[..i], failure)
    modifies dev, dev.i2c
    ensures dev.Valid()
    ensures dev.enable == Replay(start, run[..i + 1])
    ensures dev.i2c.log == log0 + ToggleWrites(start, run[..i + 1], failure)
  {
    var t := run[i];
    ghost var written := ToggleWrites(start, run[..i], failure);
    ghost var tx := WriteTx(DEVICE_ADDRESS, [CMD | ENABLE, SetFlag(dev.enable, t.flag, t.on)], OutcomeOf(t, failure));
    ToggleStep(start, run, i, failure);
    AppendAssociates(log0, written, tx);
    var _ := ApplyToggle(dev, t.flag, t.on, OutcomeOf(t, failure));
  }

  /** Appending one element after a concatenation regroups freely. */
  lemma AppendAssociates<T>(a: seq<T>, b: seq<T>, x: T)
    ensures (a + b) + [x] == a + (b + [x])
  {
  }

  /** Issues a run of toggles the handle's generation offers: the shadow ends
      as `Replay` of the run, and the bus sees exactly the run's writes. */
  method RunToggles<E>(dev: Tcs3472<E>, run: seq<Toggle>, failure: E)
    requires dev.Valid()
    requires forall i :: 0 <= i < |run| ==> dev.Offers(run[i].flag)
    modifies dev, dev.i2c
    ensures dev.Valid()
    ensures dev.enable == Replay(old(dev.enable), run)
    ensures dev.i2c.log == old(dev.i2c.log) + ToggleWrites(old(dev.enable), run, failure)
  {
    ghost var start := dev.enable;
    ghost var log0 := dev.i2c.log;
    var i := 0;
    while i < |run|
      invariant 0 <= i <= |run|
      invariant dev.Valid()
      invariant dev.enable == Replay(start, run[..i])
      invariant dev.i2c.log == log0 + ToggleWrites(start, run[..i], failure)
    {
      ApplyNext(dev, run, i, failure, start, log0);
      i := i + 1;
    }
    assert run[..|run|] == run;
  }

  /** A fresh handle, `enable` then `enable_rgbc`: the second write sends 0x03. */
  method EnableThenEnableRgbc<E>(bus: I2cBus<E>)
    modifies bus
    ensures bus.log == old(bus.log) + [WriteTx(0x29, [0x80, 0x01], Ok(())), WriteTx(0x29, [0x80, 0x03], Ok(()))]
  {
    var dev := new Tcs3472(bus, Monolithic);
    var _ := dev.Enable(Ok(()));
    var _ := dev.EnableRgbc(Ok(()));
  }

  /** A fresh handle, `enable`, `enable_rgbc`, `disable_rgbc`: the last write sends 0x01. */
  method EnableThenToggleRgbc<E>(bus: I2cBus<E>)
    modifies bus
    ensures bus.log == old(bus.log) +
      [WriteTx(0x29, [0x80, 0x01], Ok(())), WriteTx(0x29, [0x80, 0x03], Ok(())), WriteTx(0x29, [0x80, 0x01], Ok(()))]
  {
    var dev := new Tcs3472(bus, Monolithic);
    var _ := dev.Enable(Ok(()));
    var _ := dev.EnableRgbc(Ok(()));
    var _ := dev.DisableRgbc(Ok(()));
  }

  /** On a fresh handle, enabling then disabling any flag writes 0 last, and
      disabling then enabling it writes exactly its mask. */
  method EnableDisablePairs<E>(bus: I2cBus<E>, flag: EnableFlag)
    modifies bus
    ensures |bus.log| == |old(bus.log)| + 4
    ensures bus.log[|old(bus.log)| + 1] == WriteTx(0x29, [0x80, 0], Ok(()))
    ensures bus.log[|old(bus.log)| + 3] == WriteTx(0x29, [0x80, FlagMask(flag)], Ok(()))
  {
    EnableDisableRestores(0, flag);
    var first := new Tcs3472(bus, Split);
    var _ := ApplyToggle(first, flag, true, Ok(()));
    var _ := ApplyToggle(first, flag, false, Ok(()));
    var second := new Tcs3472(bus, Split);
    var _ := ApplyToggle(second, flag, false, Ok(()));
    var _ := ApplyToggle(second, flag, true, Ok(()));
  }

  /** A failed `enable` leaves the shadow at 0, so a following `enable_rgbc`
      writes RGBC_EN alone. */
  method FailedEnableKeepsShadow<E>(bus: I2cBus<E>, e: E) returns (first: Result<(), Error<E>>)
    modifies bus
    ensures first == Err(I2C(e))
    ensures bus.log == old(bus.log) + [WriteTx(0x29, [0x80, 0x01], Err(e)), WriteTx(0x29, [0x80, 0x02], Ok(()))]
  {
    var dev := new Tcs3472(bus, Split);
    first := dev.Enable(Err(e));
    var _ := dev.EnableRgbc(Ok(()));
  }

  /** The wait-long toggles write CONFIG directly: 0x02, then 0. */
  method EnableThenDisableWaitLong<E>(bus: I2cBus<E>)
    modifies bus
    ensures bus.log == old(bus.log) + [WriteTx(0x29, [0x8D, 0x02], Ok(())), WriteTx(0x29, [0x8D, 0x00], Ok(()))]
  {
    var dev := new Tcs3472(bus, Split);
    var _ := dev.EnableWaitLong(Ok(()));
    var _ := dev.DisableWaitLong(Ok(()));
  }

  /** Cycle counts 0 and 257 are rejected without bus traffic; 85 is sent as 0xAB. */
  method CycleCounts<E>(bus: I2cBus<E>) returns (zero: Result<(), Error<E>>, tooMany: Result<(), Error<E>>)
    modifies bus
    ensures zero == Err(InvalidInputData) && tooMany == Err(InvalidInputData)
    ensures bus.log == old(bus.log) + [WriteTx(0x29, [0x83, 0xAB], Ok(()))]
  {
    EncodingExamples();
    var dev := new Tcs3472(bus, Split);
    zero := dev.SetIntegrationCycles(0, Ok(()));
    tooMany := dev.SetIntegrationCycles(257, Ok(()));
    var _ := dev.SetWaitCycles(85, Ok(()));
  }

  /** Threshold 256 is sent low byte first as (0, 1) after the auto-increment command. */
  method LowThreshold256<E>(bus: I2cBus<E>)
    modifies bus
    ensures bus.log == old(bus.log) + [WriteTx(0x29, [0xA4, 0x00, 0x01], Ok(()))]
  {
    EncodingExamples();
    assert [CMD | CMD_AUTO_INC | AILTL] + EncodeLe16(256) == [0xA4, 0x00, 0x01];
    var dev := new Tcs3472(bus, Split);
    var _ := dev.SetRgbcInterruptLowThreshold(256, Ok(()));
  }

  /** Status byte 0 is not valid, RGBC_VALID is; the split driver reads with 0xB3. */
  method StatusReads<E>(bus: I2cBus<E>) returns (notValid: Result<bool, Error<E>>, valid: Result<bool, Error<E>>)
    modifies bus
    ensures notValid == Ok(false) && valid == Ok(true)
    ensures bus.log == old(bus.log) + [WriteReadTx(0x29, [0xB3], 1, Ok(())), WriteReadTx(0x29, [0xB3], 1, Ok(()))]
  {
    var dev := new Tcs3472(bus, Split);
    notValid := dev.IsRgbcStatusValid([0x00], Ok(()));
    valid := dev.IsRgbcStatusValid([RGBC_VALID], Ok(()));
  }

  /** The monolithic driver reads STATUS with the plain command byte 0x93. */
  method MonolithicStatusRead<E>(bus: I2cBus<E>) returns (valid: Result<bool, Error<E>>)
    modifies bus
    ensures valid == Ok(true)
    ensures bus.log == old(bus.log) + [WriteReadTx(0x29, [0x93], 1, Ok(()))]
  {
    var dev := new Tcs3472(bus, Monolithic);
    valid := dev.IsRgbcStatusValid([0x03], Ok(()));
  }

  /** Reading the clear channel from bytes [0xCD, 0xAB] gives 0xABCD; the
      monolithic driver sends 0x94, the split one 0xB4. */
  method ClearChannelReads<E>(bus: I2cBus<E>) returns (monolithic: Result<U16, Error<E>>, split: Result<U16, Error<E>>)
    modifies bus
    ensures monolithic == Ok(0xABCD) && split == Ok(0xABCD)
    ensures bus.log == old(bus.log) + [WriteReadTx(0x29, [0x94], 2, Ok(())), WriteReadTx(0x29, [0xB4], 2, Ok(()))]
  {
    EncodingExamples();
    var first := new Tcs3472(bus, Monolithic);
    monolithic := first.ReadClearChannel([0xCD, 0xAB], Ok(()));
    var second := new Tcs3472(bus, Split);
    split := second.ReadClearChannel([0xCD, 0xAB], Ok(()));
  }

  /** The eight bytes of the combined-read test decode to 0x0123, 0x4567,
      0x89AB, 0xCDEF for clear, red, green, blue. */
  method AllChannels<E>(bus: I2cBus<E>) returns (r: Result<AllChannelMeasurement, Error<E>>)
    modifies bus
    ensures r == Ok(AllChannelMeasurement(red := 0x4567, green := 0x89AB, blue := 0xCDEF, clear := 0x0123))
    ensures bus.log == old(bus.log) + [WriteReadTx(0x29, [0xB4], 8, Ok(()))]
  {
    var dev := new Tcs3472(bus, Split);
    r := dev.ReadAllChannels([0x23, 0x01, 0x67, 0x45, 0xAB, 0x89, 0xEF, 0xCD], Ok(()));
  }

  /** The device id is the raw byte read with command 0x92. */
  method DeviceId<E>(bus: I2cBus<E>) returns (id: Result<U8, Error<E>>)
    modifies bus
    ensures id == Ok(0x44)
    ensures bus.log == old(bus.log) + [WriteReadTx(0x29, [0x92], 1, Ok(()))]
  {
    var dev := new Tcs3472(bus, Split);
    id := dev.ReadDeviceId([0x44], Ok(()));
  }
}
