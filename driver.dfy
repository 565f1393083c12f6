/** The TCS3472 device handle: it owns the bus and a shadow copy of the ENABLE
    register, and turns each operation into the bus transaction the device
    expects. Every bus call takes the transport's `outcome` (and, for reads,
    the `reply` bytes the device sends) as parameters. */
module Driver {
  import opened Types
  import opened Interface
  import opened Protocol
  import opened Bus

  /** The two versions of the driver: the monolithic one, whose register reads
      send a plain command byte, and the split one, whose reads set the
      auto-increment bit. */
  datatype Generation = Monolithic | Split

  /** Whether `t` is an accepted write of a new ENABLE value to the sensor. */
  predicate IsEnableWrite<E>(t: Transaction<E>) {
    && t.WriteTx?
    && t.address == DEVICE_ADDRESS
    && |t.bytes| == 2
    && t.bytes[0] == CommandByte(ENABLE, false)
    && t.outcome.Ok?
  }

  /** The value of the last accepted ENABLE write in `log`, or 0 if there is none. */
  function LastEnableWrite<E>(log: seq<Transaction<E>>): U8
    decreases |log|
  {
    if log == [] then 0
    else if IsEnableWrite(log[|log| - 1]) then log[|log| - 1].bytes[1]
    else LastEnableWrite(log[..|log| - 1])
  }

  /** Appending a transaction to a log changes its last ENABLE value exactly
      when the transaction is an accepted ENABLE write. */
  lemma LastEnableWriteAppend<E>(log: seq<Transaction<E>>, from: nat, t: Transaction<E>)
    requires from <= |log|
    ensures LastEnableWrite((log + [t])[from..]) ==
      if IsEnableWrite(t) then t.bytes[1] else LastEnableWrite(log[from..])
  {
    assert (log + [t])[from..] == log[from..] + [t];
    assert (log[from..] + [t])[..|log[from..] + [t]| - 1] == log[from..];
  }

  /** The driver's view of a bus result: a transport error is wrapped as `I2C`. */
  function FromBus<E>(outcome: Result<(), E>): (r: Result<(), Error<E>>)
    ensures r.Ok? <==> outcome.Ok?
    ensures r.Err? ==> r.error == I2C(outcome.error)
  {
    match outcome
    case Ok(_) => Ok(())
    case Err(e) => Err(I2C(e))
  }

  /** A read's result: `value` if the transport succeeded, its error otherwise. */
  function ReadResult<T, E>(outcome: Result<(), E>, value: T): (r: Result<T, Error<E>>)
    ensures r.Ok? <==> outcome.Ok?
    ensures r.Ok? ==> r.value == value
    ensures r.Err? ==> r.error == I2C(outcome.error)
  {
    match outcome
    case Ok(_) => Ok(value)
    case Err(e) => Err(I2C(e))
  }

  class Tcs3472<E> {
    /** The bus, owned exclusively by the handle. */
    const i2c: I2cBus<E>
    const generation: Generation
    /** Shadow of the ENABLE register: the last value written successfully. */
    var enable: U8
    /** How long the bus log was when the handle took the bus. */
    ghost const origin: nat

    /** The shadow equals the last ENABLE value the bus accepted since the
        handle was created (0 if there was none). */
    ghost predicate Valid()
      reads this, i2c
    {
      origin <= |i2c.log| && enable == LastEnableWrite(i2c.log[origin..])
    }

    /** Whether register reads of this generation set the auto-increment bit. */
    function ReadsAutoIncrement(): bool
    {
      generation == Split
    }

    /** Whether this generation has the enable/disable pair for `flag`: the
        monolithic driver toggles only POWER_ON and RGBC_EN. */
    predicate Offers(flag: EnableFlag)
    {
      generation == Split || flag == PowerOn || flag == RgbcEnable
    }

    /** The last transaction on the bus is a write of `bytes` to the sensor
        whose result, as the driver reports it, is `r`. */
    twostate predicate Wrote(bytes: seq<U8>, outcome: Result<(), E>, new r: Result<(), Error<E>>)
      reads this, i2c
    {
      i2c.log == old(i2c.log) + [WriteTx(DEVICE_ADDRESS, bytes, outcome)] && r == FromBus(outcome)
    }

    /** The last transaction on the bus sends the command for `register` and
        reads `length` bytes. */
    twostate predicate Read(register: U8, autoInc: bool, length: nat, outcome: Result<(), E>)
      reads this, i2c
    {
      i2c.log == old(i2c.log) + [WriteReadTx(DEVICE_ADDRESS, [CommandByte(register, autoInc)], length, outcome)]
    }

    /** A new handle for `i2c`, with the shadow at 0. */
    constructor (i2c: I2cBus<E>, generation: Generation)
      ensures Valid()
      ensures this.i2c == i2c && this.generation == generation && enable == 0
      ensures i2c.log == old(i2c.log)
    {
      this.i2c := i2c;
      this.generation := generation;
      enable := 0;
      origin := |i2c.log|;
    }

    /** Gives the bus back; having no `modifies` clause, it leaves the bus
        log and the handle as they were. */
    method Destroy() returns (bus: I2cBus<E>)
      ensures bus == i2c
    {
      bus := i2c;
    }

    // -------------------------------------------------------------------------
    // ENABLE register

    /** Writes `value` to ENABLE; the shadow takes the value only if the bus
        accepted the write. */
    method WriteEnable(value: U8, outcome: Result<(), E>) returns (r: Result<(), Error<E>>)
      requires Valid()
      modifies this, i2c
      ensures Valid()
      ensures Wrote([CMD | ENABLE, value], outcome, r)
      ensures enable == if outcome.Ok? then value else old(enable)
    {
      LastEnableWriteAppend(i2c.log, origin, WriteTx(DEVICE_ADDRESS, [CommandByte(ENABLE, false), value], outcome));
      var res := i2c.Write(DEVICE_ADDRESS, [CommandByte(ENABLE, false), value], outcome);
      if res.Err? {
        return Err(I2C(res.error));
      }
      enable := value;
      r := Ok(());
    }

    /** Writes the shadow with `flag` set or cleared. */
    twostate predicate Toggled(flag: EnableFlag, on: bool, outcome: Result<(), E>, new r: Result<(), Error<E>>)
      reads this, i2c
    {
      && Wrote([CMD | ENABLE, SetFlag(old(enable), flag, on)], outcome, r)
      && enable == if outcome.Ok? then SetFlag(old(enable), flag, on) else old(enable)
    }

    /** Powers the device on (sets POWER_ON). */
    method Enable(outcome: Result<(), E>) returns (r: Result<(), Error<E>>)
      requires Valid()
      modifies this, i2c
      ensures Valid() && Toggled(PowerOn, true, outcome, r)
    {
      r := WriteEnable(SetFlag(enable, PowerOn, true), outcome);
    }

    /** Puts the device to sleep (clears POWER_ON). */
    method Disable(outcome: Result<(), E>) returns (r: Result<(), Error<E>>)
      requires Valid()
      modifies this, i2c
      ensures Valid() && Toggled(PowerOn, false, outcome, r)
    {
      r := WriteEnable(SetFlag(enable, PowerOn, false), outcome);
    }

    /** Enables the RGB converter (sets RGBC_EN). */
    method EnableRgbc(outcome: Result<(), E>) returns (r: Result<(), Error<E>>)
      requires Valid()
      modifies this, i2c
      ensures Valid() && Toggled(RgbcEnable, true, outcome, r)
    {
      r := WriteEnable(SetFlag(enable, RgbcEnable, true), outcome);
    }

    /** Disables the RGB converter (clears RGBC_EN). */
    method DisableRgbc(outcome: Result<(), E>) returns (r: Result<(), Error<E>>)
      requires Valid()
      modifies this, i2c
      ensures Valid() && Toggled(RgbcEnable, false, outcome, r)
    {
      r := WriteEnable(SetFlag(enable, RgbcEnable, false), outcome);
    }

    /** Enables RGBC interrupts (sets RGBC_INT_EN). */
    method EnableRgbcInterrupts(outcome: Result<(), E>) returns (r: Result<(), Error<E>>)
      requires Valid()
      requires generation == Split
      modifies this, i2c
      ensures Valid() && Toggled(RgbcInterruptEnable, true, outcome, r)
    {
      r := WriteEnable(SetFlag(enable, RgbcInterruptEnable, true), outcome);
    }

    /** Disables RGBC interrupts (clears RGBC_INT_EN). */
    method DisableRgbcInterrupts(outcome: Result<(), E>) returns (r: Result<(), Error<E>>)
      requires Valid()
      requires generation == Split
      modifies this, i2c
      ensures Valid() && Toggled(RgbcInterruptEnable, false, outcome, r)
    {
      r := WriteEnable(SetFlag(enable, RgbcInterruptEnable, false), outcome);
    }

    /** Enables the wait timer (sets WAIT_EN). */
    method EnableWait(outcome: Result<(), E>) returns (r: Result<(), Error<E>>)
      requires Valid()
      requires generation == Split
      modifies this, i2c
      ensures Valid() && Toggled(WaitEnable, true, outcome, r)
    {
      r := WriteEnable(SetFlag(enable, WaitEnable, true), outcome);
    }

    /** Disables the wait timer (clears WAIT_EN). */
    method DisableWait(outcome: Result<(), E>) returns (r: Result<(), Error<E>>)
      requires Valid()
      requires generation == Split
      modifies this, i2c
      ensures Valid() && Toggled(WaitEnable, false, outcome, r)
    {
      r := WriteEnable(SetFlag(enable, WaitEnable, false), outcome);
    }

    // -------------------------------------------------------------------------
    // Other registers

    /** Writes one byte to a register other than ENABLE. */
    method WriteRegister(register: U8, value: U8, outcome: Result<(), E>) returns (r: Result<(), Error<E>>)
      requires Valid() && register < 0x20 && register != ENABLE
      requires generation == Split
      modifies i2c
      ensures Valid() && Wrote([CommandByte(register, false), value], outcome, r)
    {
      var bytes := [CommandByte(register, false), value];
      LastEnableWriteAppend(i2c.log, origin, WriteTx(DEVICE_ADDRESS, bytes, outcome));
      var res := i2c.Write(DEVICE_ADDRESS, bytes, outcome);
      r := FromBus(res);
    }

    /** Writes a 16-bit value, low byte first, to the threshold register pair
        starting at `register`, with auto-increment. */
    method WriteRegisterPair(register: U8, value: U16, outcome: Result<(), E>) returns (r: Result<(), Error<E>>)
      requires Valid() && register in {AILTL, AIHTL}
      requires generation == Split
      modifies i2c
      ensures Valid() && Wrote([CommandByte(register, true)] + EncodeLe16(value), outcome, r)
    {
      var bytes := [CommandByte(register, true)] + EncodeLe16(value);
      LastEnableWriteAppend(i2c.log, origin, WriteTx(DEVICE_ADDRESS, bytes, outcome));
      var res := i2c.Write(DEVICE_ADDRESS, bytes, outcome);
      r := FromBus(res);
    }

    /** Sets WLONG in CONFIG (the shadow is not involved). */
    method EnableWaitLong(outcome: Result<(), E>) returns (r: Result<(), Error<E>>)
      requires Valid()
      requires generation == Split
      modifies i2c
      ensures Valid() && Wrote([CMD | CONFIG, WLONG], outcome, r)
    {
      r := WriteRegister(CONFIG, WLONG, outcome);
    }

    /** Clears CONFIG, and with it WLONG (the shadow is not involved). */
    method DisableWaitLong(outcome: Result<(), E>) returns (r: Result<(), Error<E>>)
      requires Valid()
      requires generation == Split
      modifies i2c
      ensures Valid() && Wrote([CMD | CONFIG, 0], outcome, r)
    {
      r := WriteRegister(CONFIG, 0, outcome);
    }

    /** Writes the gain code to CONTROL. */
    method SetRgbcGain(gain: RgbCGain, outcome: Result<(), E>) returns (r: Result<(), Error<E>>)
      requires Valid()
      requires generation == Split
      modifies i2c
      ensures Valid() && Wrote([CMD | CONTROL, GainCode(gain)], outcome, r)
    {
      r := WriteRegister(CONTROL, GainCode(gain), outcome);
    }

    /** Writes a cycle count to a timing register, or rejects it without
        touching the bus if it is outside 1..256. */
    method SetCycles(register: U8, cycles: nat, outcome: Result<(), E>) returns (r: Result<(), Error<E>>)
      requires Valid() && register in {ATIME, WTIME}
      requires generation == Split
      modifies i2c
      ensures Valid()
      ensures !(1 <= cycles <= 256) ==> r == Err(InvalidInputData) && i2c.log == old(i2c.log)
      ensures 1 <= cycles <= 256 ==> Wrote([CMD | register, CyclesByte(cycles).value], outcome, r)
    {
      var code := CyclesByte(cycles);
      if code.None? {
        return Err(InvalidInputData);
      }
      r := WriteRegister(register, code.value, outcome);
    }

    /** Sets the RGBC integration time, in cycles (ATIME). */
    method SetIntegrationCycles(cycles: nat, outcome: Result<(), E>) returns (r: Result<(), Error<E>>)
      requires Valid()
      requires generation == Split
      modifies i2c
      ensures Valid()
      ensures !(1 <= cycles <= 256) ==> r == Err(InvalidInputData) && i2c.log == old(i2c.log)
      ensures 1 <= cycles <= 256 ==> Wrote([CMD | ATIME, CyclesByte(cycles).value], outcome, r)
    {
      r := SetCycles(ATIME, cycles, outcome);
    }

    /** Sets the wait time, in cycles (WTIME). */
    method SetWaitCycles(cycles: nat, outcome: Result<(), E>) returns (r: Result<(), Error<E>>)
      requires Valid()
      requires generation == Split
      modifies i2c
      ensures Valid()
      ensures !(1 <= cycles <= 256) ==> r == Err(InvalidInputData) && i2c.log == old(i2c.log)
      ensures 1 <= cycles <= 256 ==> Wrote([CMD | WTIME, CyclesByte(cycles).value], outcome, r)
    {
      r := SetCycles(WTIME, cycles, outcome);
    }

    /** Sets the RGBC interrupt low threshold (AILTL, AILTH). */
    method SetRgbcInterruptLowThreshold(threshold: U16, outcome: Result<(), E>) returns (r: Result<(), Error<E>>)
      requires Valid()
      requires generation == Split
      modifies i2c
      ensures Valid() && Wrote([CMD | CMD_AUTO_INC | AILTL] + EncodeLe16(threshold), outcome, r)
    {
      r := WriteRegisterPair(AILTL, threshold, outcome);
    }

    /** Sets the RGBC interrupt high threshold (AIHTL, AIHTH). */
    method SetRgbcInterruptHighThreshold(threshold: U16, outcome: Result<(), E>) returns (r: Result<(), Error<E>>)
      requires Valid()
      requires generation == Split
      modifies i2c
      ensures Valid() && Wrote([CMD | CMD_AUTO_INC | AIHTL] + EncodeLe16(threshold), outcome, r)
    {
      r := WriteRegisterPair(AIHTL, threshold, outcome);
    }

    /** Writes the persistence code to APERS. */
    method SetRgbcInterruptPersistence(p: RgbCInterruptPersistence, outcome: Result<(), E>)
      returns (r: Result<(), Error<E>>)
      requires Valid()
      requires generation == Split
      modifies i2c
      ensures Valid() && Wrote([CMD | APERS, PersistenceCode(p)], outcome, r)
    {
      r := WriteRegister(APERS, PersistenceCode(p), outcome);
    }

    // -------------------------------------------------------------------------
    // Reads

    /** Sends the command byte for `register` and lets the bus fill `data`
        with the device's `reply`. */
    method ReadRegister(register: U8, autoInc: bool, data: array<U8>, reply: seq<U8>, outcome: Result<(), E>)
      returns (r: Result<(), Error<E>>)
      requires Valid() && |reply| == data.Length
      modifies i2c, data
      ensures Valid() && Read(register, autoInc, data.Length, outcome)
      ensures r == FromBus(outcome)
      ensures outcome.Ok? ==> data[..] == reply
    {
      LastEnableWriteAppend(i2c.log, origin,
        WriteReadTx(DEVICE_ADDRESS, [CommandByte(register, autoInc)], data.Length, outcome));
      var res := i2c.WriteRead(DEVICE_ADDRESS, [CommandByte(register, autoInc)], data, reply, outcome);
      r := FromBus(res);
    }

    /** Reads STATUS and reports whether RGBC_VALID is set. */
    method IsRgbcStatusValid(reply: seq<U8>, outcome: Result<(), E>) returns (r: Result<bool, Error<E>>)
      requires Valid() && |reply| == 1
      modifies i2c
      ensures Valid() && Read(STATUS, ReadsAutoIncrement(), 1, outcome)
      ensures r == ReadResult(outcome, RgbcStatusValid(reply[0]))
    {
      var status := new U8[1];
      var res := ReadRegister(STATUS, ReadsAutoIncrement(), status, reply, outcome);
      if res.Err? {
        return Err(res.error);
      }
      r := Ok(RgbcStatusValid(status[0]));
    }

    /** Reads the two data bytes of a channel and decodes them, low byte first. */
    method ReadChannel(register: U8, reply: seq<U8>, outcome: Result<(), E>) returns (r: Result<U16, Error<E>>)
      requires Valid() && |reply| == 2
      modifies i2c
      ensures Valid() && Read(register, ReadsAutoIncrement(), 2, outcome)
      ensures r == ReadResult(outcome, DecodeLe16(reply[0], reply[1]))
    {
      var data := new U8[2];
      var res := ReadRegister(register, ReadsAutoIncrement(), data, reply, outcome);
      if res.Err? {
        return Err(res.error);
      }
      r := Ok(DecodeLe16(data[0], data[1]));
    }

    /** Reads the clear (unfiltered) channel. */
    method ReadClearChannel(reply: seq<U8>, outcome: Result<(), E>) returns (r: Result<U16, Error<E>>)
      requires Valid() && |reply| == 2
      modifies i2c
      ensures Valid() && Read(CDATA, ReadsAutoIncrement(), 2, outcome)
      ensures r == ReadResult(outcome, DecodeLe16(reply[0], reply[1]))
    {
      r := ReadChannel(CDATA, reply, outcome);
    }

    /** Reads the red channel. */
    method ReadRedChannel(reply: seq<U8>, outcome: Result<(), E>) returns (r: Result<U16, Error<E>>)
      requires Valid() && |reply| == 2
      modifies i2c
      ensures Valid() && Read(RDATA, ReadsAutoIncrement(), 2, outcome)
      ensures r == ReadResult(outcome, DecodeLe16(reply[0], reply[1]))
    {
      r := ReadChannel(RDATA, reply, outcome);
    }

    /** Reads the green channel. */
    method ReadGreenChannel(reply: seq<U8>, outcome: Result<(), E>) returns (r: Result<U16, Error<E>>)
      requires Valid() && |reply| == 2
      modifies i2c
      ensures Valid() && Read(GDATA, ReadsAutoIncrement(), 2, outcome)
      ensures r == ReadResult(outcome, DecodeLe16(reply[0], reply[1]))
    {
      r := ReadChannel(GDATA, reply, outcome);
    }

    /** Reads the blue channel. */
    method ReadBlueChannel(reply: seq<U8>, outcome: Result<(), E>) returns (r: Result<U16, Error<E>>)
      requires Valid() && |reply| == 2
      modifies i2c
      ensures Valid() && Read(BDATA, ReadsAutoIncrement(), 2, outcome)
      ensures r == ReadResult(outcome, DecodeLe16(reply[0], reply[1]))
    {
      r := ReadChannel(BDATA, reply, outcome);
    }

    /** Reads all four channels in one auto-incrementing eight-byte read from CDATA. */
    method ReadAllChannels(reply: seq<U8>, outcome: Result<(), E>) returns (r: Result<AllChannelMeasurement, Error<E>>)
      requires Valid() && |reply| == 8
      requires generation == Split
      modifies i2c
      ensures Valid() && Read(CDATA, true, 8, outcome)
      ensures r == ReadResult(outcome, DecodeAllChannels(reply))
    {
      var data := new U8[8];
      var res := ReadRegister(CDATA, true, data, reply, outcome);
      if res.Err? {
        return Err(res.error);
      }
      r := Ok(DecodeAllChannels(data[..]));
    }

    /** Reads the ID register and returns its raw value. */
    method ReadDeviceId(reply: seq<U8>, outcome: Result<(), E>) returns (r: Result<U8, Error<E>>)
      requires Valid() && |reply| == 1
      requires generation == Split
      modifies i2c
      ensures Valid() && Read(ID, false, 1, outcome)
      ensures r == ReadResult(outcome, reply[0])
    {
      var data := new U8[1];
      var res := ReadRegister(ID, false, data, reply, outcome);
      if res.Err? {
        return Err(res.error);
      }
      r := Ok(data[0]);
    }
  }
}
