/** What each driver operation puts into the event trace, as functions of
    the bound I2C handle and device address. The class in module Lcd is
    proved to append exactly these events; module LcdProofs states what they
    mean on the wire. */
module LcdSpec {
  import opened LcdDefs
  import opened Bus
  import opened Wire

  datatype Option<T> = None | Some(value: T)

  /** The 32-bit handle address as the transmit call receives it: its 16-bit
      device-address parameter keeps the low half. */
  function DevAddress(addr: bv32): (d: bv16)
    ensures d as bv32 == addr & 0xFFFF
    ensures addr <= 0xFFFF ==> d as bv32 == addr
  {
    (addr & 0xFFFF) as bv16
  }

  /** One nibble transfer: the port image with EN high, a 1 ms dwell, the
      same image with EN low, and no trailing delay. */
  function Pulse(h: I2cHandle, a: bv16, nibble: bv8, rs: bv8): seq<Event>
    requires IsRs(rs)
  {
    [ Tx(h, a, [PortImage(nibble, rs, true)], TRANSMIT_TIMEOUT_MS),
      DelayMs(1),
      Tx(h, a, [PortImage(nibble, rs, false)], TRANSMIT_TIMEOUT_MS) ]
  }

  /** An 8-bit value sent as its high nibble, then its low nibble. */
  function ByteEvents(h: I2cHandle, a: bv16, v: bv8, rs: bv8): seq<Event>
    requires IsRs(rs)
  {
    Pulse(h, a, v >> 4, rs) + Pulse(h, a, v & 0x0F, rs)
  }

  function CommandEvents(h: I2cHandle, a: bv16, cmd: bv8): seq<Event>
  {
    ByteEvents(h, a, cmd, RS_PIN_RESET)
  }

  function CharEvents(h: I2cHandle, a: bv16, d: bv8): seq<Event>
  {
    ByteEvents(h, a, d, RS_PIN_SET)
  }

  /** The characters of `s` sent one after another to the data register. */
  function StringEvents(h: I2cHandle, a: bv16, s: seq<bv8>): seq<Event>
    decreases |s|
  {
    if s == [] then []
    else StringEvents(h, a, s[..|s| - 1]) + CharEvents(h, a, s[|s| - 1])
  }

  function ClearEvents(h: I2cHandle, a: bv16): seq<Event>
  {
    CommandEvents(h, a, LCD_CMD_CLEAR) + [DelayMs(LONG_COMMAND_DELAY_MS)]
  }

  function HomeEvents(h: I2cHandle, a: bv16): seq<Event>
  {
    CommandEvents(h, a, LCD_CMD_HOME) + [DelayMs(LONG_COMMAND_DELAY_MS)]
  }

  /** The HD44780 "initializing by instruction" procedure for 4-bit mode:
      the reset phase, then the configuration phase. */
  function InitEvents(h: I2cHandle, a: bv16): seq<Event>
  {
    ResetEvents(h, a) + ConfigEvents(h, a)
  }

  /** Power-up wait, a quiescent all-low port, three 0x3 reset nibbles with
      their waits, and the 0x2 nibble that selects the 4-bit interface. */
  function ResetEvents(h: I2cHandle, a: bv16): seq<Event>
  {
    [DelayMs(50), Tx(h, a, [0], TRANSMIT_TIMEOUT_MS), DelayMs(40)]
    + Pulse(h, a, INIT_3, RS_PIN_RESET) + [DelayMs(5)]
    + Pulse(h, a, INIT_3, RS_PIN_RESET) + [DelayUs(100)]
    + Pulse(h, a, INIT_3, RS_PIN_RESET)
    + Pulse(h, a, INIT_2, RS_PIN_RESET)
  }

  /** Function set, display control, clear and entry mode, now as full
      two-nibble instructions. */
  function ConfigEvents(h: I2cHandle, a: bv16): seq<Event>
  {
    CommandEvents(h, a, LCD_CMD_4DL_2L_5X8D)
    + CommandEvents(h, a, LCD_CMD_DON_C_NBL)
    + ClearEvents(h, a)
    + CommandEvents(h, a, LCD_CMD_CI_NDS)
  }

  /** The Set DDRAM Address command for a one-based (row, column) on a 16x2
      display, in 8-bit arithmetic; rows other than 1 and 2 have none. */
  function CursorCommand(row: bv8, column: bv8): (c: Option<bv8>)
    ensures c.Some? <==> row == 1 || row == 2
    ensures c.Some? ==> c.value & 0x80 == 0x80
    ensures row == 1 && 1 <= column <= 16 ==> c == Some(0x80 + (column - 1))
    ensures row == 2 && 1 <= column <= 16 ==> c == Some(0xC0 + (column - 1))
    ensures row == 1 && column == 0 ==> c == Some(0xFF)
  {
    var index := column - 1;
    if row == 1 then Some(index | 0x80)
    else if row == 2 then Some(index | 0xC0)
    else None
  }

  function CursorEvents(h: I2cHandle, a: bv16, row: bv8, column: bv8): seq<Event>
  {
    match CursorCommand(row, column)
    case Some(cmd) => CommandEvents(h, a, cmd)
    case None => []
  }

  /** The length of a null-terminated string: the index of its first zero. */
  function StrLen(message: seq<bv8>): (n: nat)
    requires 0 in message
    ensures n < |message| && message[n] == 0
    ensures forall i :: 0 <= i < n ==> message[i] != 0
    decreases |message|
  {
    if message[0] == 0 then 0
    else
      assert message == [message[0]] + message[1..];
      1 + StrLen(message[1..])
  }

  /** Every transmit of the trace goes to bus `h` at device address `a`,
      carries exactly one byte and uses the driver's timeout. */
  predicate AddressedTo(trace: seq<Event>, h: I2cHandle, a: bv16)
  {
    forall e :: e in trace && e.Tx? ==>
      e.bus == h && e.devAddress == a && |e.data| == 1 && e.timeoutMs == TRANSMIT_TIMEOUT_MS
  }
}
