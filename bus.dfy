/** What the driver calls on, seen as an append-only trace of the calls:
    the platform's I2C master transport and millisecond sleep, and the
    driver's own microsecond busy-wait. */
module Bus {

  /** Identity of the host's I2C peripheral handle, which the driver borrows. */
  type I2cHandle = nat

  /** One recorded call: a blocking platform master transmit of `data` to the
      16-bit device address, a platform millisecond sleep, or the driver's
      own microsecond busy-wait. */
  datatype Event =
    | Tx(bus: I2cHandle, devAddress: bv16, data: seq<bv8>, timeoutMs: nat)
    | DelayMs(ms: nat)
    | DelayUs(us: nat)

  /** The bytes the transmit events of a trace put on the wire, in order. */
  function TxBytes(trace: seq<Event>): seq<bv8>
  {
    if trace == [] then []
    else (if trace[0].Tx? then trace[0].data else []) + TxBytes(trace[1..])
  }

  lemma AppendAssoc(a: seq<Event>, b: seq<Event>, c: seq<Event>)
    ensures a + b + c == a + (b + c)
  {
  }

  lemma {:induction false} TxBytesAppend(a: seq<Event>, b: seq<Event>)
    ensures TxBytes(a + b) == TxBytes(a) + TxBytes(b)
  {
    if a != [] {
      assert (a + b)[1..] == a[1..] + b;
      TxBytesAppend(a[1..], b);
    } else {
      assert a + b == b;
    }
  }
}
