/** The two-wire bus the driver owns, reduced to what the driver can observe:
    every transaction it issues is appended to a log, and whether the
    transaction succeeds, and which bytes a read returns, are supplied by the
    caller (the bus collaborator is not part of this model). */
module Bus {
  import opened Types

  /** One bus transaction: a plain write, or a write of `bytes` followed by a
      read of `readLength` bytes. */
  datatype Transaction<+E> =
    | WriteTx(address: U8, bytes: seq<U8>, outcome: Result<(), E>)
    | WriteReadTx(address: U8, bytes: seq<U8>, readLength: nat, outcome: Result<(), E>)

  class I2cBus<E> {
    /** Every transaction issued on this bus, oldest first. */
    var log: seq<Transaction<E>>

    constructor ()
      ensures log == []
    {
      log := [];
    }

    /** Writes `bytes` to the device at `address`; `outcome` is what the
        transport reports. */
    method Write(address: U8, bytes: seq<U8>, outcome: Result<(), E>) returns (r: Result<(), E>)
      modifies this
      ensures log == old(log) + [WriteTx(address, bytes, outcome)]
      ensures r == outcome
    {
      log := log + [WriteTx(address, bytes, outcome)];
      r := outcome;
    }

    /** Writes `bytes` to the device at `address`, then reads into `buffer`.
        On success the buffer holds `reply`, the bytes the device sent; on
        failure it is left as it was. */
    method WriteRead(address: U8, bytes: seq<U8>, buffer: array<U8>, reply: seq<U8>, outcome: Result<(), E>)
      returns (r: Result<(), E>)
      requires |reply| == buffer.Length
      modifies this, buffer
      ensures log == old(log) + [WriteReadTx(address, bytes, buffer.Length, outcome)]
      ensures r == outcome
      ensures buffer[..] == if outcome.Ok? then reply else old(buffer[..])
    {
      log := log + [WriteReadTx(address, bytes, buffer.Length, outcome)];
      if outcome.Ok? {
        forall i | 0 <= i < buffer.Length {
          buffer[i] := reply[i];
        }
      }
      r := outcome;
    }
  }
}
