/** The driver proper: a handle binding one display to an I2C peripheral and
    the expander's address, whose operations extend the event trace. */
module Lcd {
  import opened LcdDefs
  import opened Bus
  import opened Wire
  import opened LcdSpec

  class LcdHandle {
    var i2cHandle: I2cHandle
    var i2cAddr: bv32
    /** Every call made so far into the I2C transport and the time base. */
    ghost var trace: seq<Event>

    /** An unbound handle with zero fields and no events yet. */
    constructor ()
      ensures i2cHandle == 0 && i2cAddr == 0 && trace == []
    {
      i2cHandle := 0;
      i2cAddr := 0;
      trace := [];
    }

    /** The platform's blocking master transmit of one byte, as the driver
        calls it: the handle's bus and address, size 1, the fixed timeout.
        Its status is ignored by every caller, so none is modelled. */
    method Transmit(data: bv8)
      modifies this`trace
      ensures trace == old(trace) + [Tx(i2cHandle, DevAddress(i2cAddr), [data], TRANSMIT_TIMEOUT_MS)]
    {
      trace := trace + [Tx(i2cHandle, DevAddress(i2cAddr), [data], TRANSMIT_TIMEOUT_MS)];
    }

    /** The platform's blocking millisecond sleep. */
    method Delay(ms: nat)
      modifies this`trace
      ensures trace == old(trace) + [DelayMs(ms)]
    {
      trace := trace + [DelayMs(ms)];
    }

    /** The driver's microsecond busy-wait, recorded as its requested length. */
    method MicroDelay(us: nat)
      modifies this`trace
      ensures trace == old(trace) + [DelayUs(us)]
    {
      trace := trace + [DelayUs(us)];
    }

    /** Sends one nibble, strobing EN high for 1 ms and then low. */
    method Write(nibble: bv8, rs: bv8)
      requires IsRs(rs)
      modifies this`trace
      ensures trace == old(trace) + Pulse(i2cHandle, DevAddress(i2cAddr), nibble, rs)
    {
      var data: bv8 := nibble << LCD_IO_D4;
      data := data | (rs << LCD_IO_RS);
      data := data | (1 << LCD_IO_BL);
      data := data | (1 << LCD_IO_EN);
      Transmit(data);
      Delay(1);
      data := data & !(1 << LCD_IO_EN);
      Transmit(data);
    }

    method SendCommand(cmd: bv8)
      modifies this`trace
      ensures trace == old(trace) + CommandEvents(i2cHandle, DevAddress(i2cAddr), cmd)
    {
      Write(cmd >> 4, RS_PIN_RESET);
      Write(cmd & 0x0F, RS_PIN_RESET);
    }

    method PrintChar(data: bv8)
      modifies this`trace
      ensures trace == old(trace) + CharEvents(i2cHandle, DevAddress(i2cAddr), data)
    {
      Write(data >> 4, RS_PIN_SET);
      Write(data & 0x0F, RS_PIN_SET);
    }

    /** Prints a null-terminated string held in `message`. The first
        character is sent before the terminator is tested for, so the string
        must not be empty. */
    method PrintString(message: seq<bv8>)
      requires 0 in message && message[0] != 0
      modifies this`trace
      ensures trace == old(trace) + StringEvents(i2cHandle, DevAddress(i2cAddr), message[..StrLen(message)])
    {
      ghost var h, a := i2cHandle, DevAddress(i2cAddr);
      var p: nat := 0;
      assert message[..1][..0] == [];
      PrintChar(message[p]);
      p := p + 1;
      while message[p] != 0
        invariant 1 <= p <= StrLen(message)
        invariant trace == old(trace) + StringEvents(h, a, message[..p])
        decreases StrLen(message) - p
      {
        assert message[..p + 1][..p] == message[..p];
        AppendAssoc(old(trace), StringEvents(h, a, message[..p]), CharEvents(h, a, message[p]));
        PrintChar(message[p]);
        p := p + 1;
      }
    }

    /** Binds the handle to `handle` at the default expander address, then
        initialises the display. */
    method InitI2C(handle: I2cHandle)
      modifies this
      ensures i2cAddr == SLAVE_ADDRESS_PCF && i2cHandle == handle
      ensures DevAddress(i2cAddr) == 0x4E
      ensures trace == old(trace) + InitEvents(handle, 0x4E)
    {
      i2cAddr := SLAVE_ADDRESS_PCF;
      i2cHandle := handle;
      Init();
    }

    /** Puts the controller into 4-bit, two-line, 5x8 mode with the display
        and cursor on, cleared, and increment-on-write entry mode. */
    method Init()
      modifies this`trace
      ensures trace == old(trace) + InitEvents(i2cHandle, DevAddress(i2cAddr))
    {
      ghost var h, a := i2cHandle, DevAddress(i2cAddr);
      // `sent` follows what this call has appended so far.
      ghost var t0, sent := trace, [];
      Delay(50);
      var data: bv8 := 0;
      Transmit(data);
      Delay(40);
      sent := [DelayMs(50), Tx(h, a, [0], TRANSMIT_TIMEOUT_MS), DelayMs(40)];
      assert trace == t0 + sent;
      Write(INIT_3, RS_PIN_RESET);
      AppendAssoc(t0, sent, Pulse(h, a, INIT_3, RS_PIN_RESET));
      sent := sent + Pulse(h, a, INIT_3, RS_PIN_RESET);
      Delay(5);
      AppendAssoc(t0, sent, [DelayMs(5)]);
      sent := sent + [DelayMs(5)];
      Write(INIT_3, RS_PIN_RESET);
      AppendAssoc(t0, sent, Pulse(h, a, INIT_3, RS_PIN_RESET));
      sent := sent + Pulse(h, a, INIT_3, RS_PIN_RESET);
      MicroDelay(100);
      AppendAssoc(t0, sent, [DelayUs(100)]);
      sent := sent + [DelayUs(100)];
      Write(INIT_3, RS_PIN_RESET);
      AppendAssoc(t0, sent, Pulse(h, a, INIT_3, RS_PIN_RESET));
      sent := sent + Pulse(h, a, INIT_3, RS_PIN_RESET);
      Write(INIT_2, RS_PIN_RESET);
      AppendAssoc(t0, sent, Pulse(h, a, INIT_2, RS_PIN_RESET));
      sent := sent + Pulse(h, a, INIT_2, RS_PIN_RESET);
      assert sent == ResetEvents(h, a);
      ghost var t1 := trace;
      SendCommand(LCD_CMD_4DL_2L_5X8D);
      sent := CommandEvents(h, a, LCD_CMD_4DL_2L_5X8D);
      SendCommand(LCD_CMD_DON_C_NBL);
      AppendAssoc(t1, sent, CommandEvents(h, a, LCD_CMD_DON_C_NBL));
      sent := sent + CommandEvents(h, a, LCD_CMD_DON_C_NBL);
      DisplayClear();
      AppendAssoc(t1, sent, ClearEvents(h, a));
      sent := sent + ClearEvents(h, a);
      SendCommand(LCD_CMD_CI_NDS);
      AppendAssoc(t1, sent, CommandEvents(h, a, LCD_CMD_CI_NDS));
      sent := sent + CommandEvents(h, a, LCD_CMD_CI_NDS);
      assert sent == ConfigEvents(h, a);
      AppendAssoc(t0, ResetEvents(h, a), ConfigEvents(h, a));
    }

    method DisplayClear()
      modifies this`trace
      ensures trace == old(trace) + ClearEvents(i2cHandle, DevAddress(i2cAddr))
    {
      SendCommand(LCD_CMD_CLEAR);
      Delay(2);
    }

    method DisplayReturnHome()
      modifies this`trace
      ensures trace == old(trace) + HomeEvents(i2cHandle, DevAddress(i2cAddr))
    {
      SendCommand(LCD_CMD_HOME);
      Delay(2);
    }

    /** Moves the cursor to a one-based (row, column); any row other than 1
        or 2 is ignored. */
    method SetCursor(row: bv8, column: bv8)
      modifies this`trace
      ensures trace == old(trace) + CursorEvents(i2cHandle, DevAddress(i2cAddr), row, column)
    {
      var col := column - 1;
      if row == 1 {
        col := col | 0x80;
        SendCommand(col);
      } else if row == 2 {
        col := col | 0xC0;
        SendCommand(col);
      }
    }
  }
}
