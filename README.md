# HD44780 over PCF8574: a trace model of the I2C bridging driver

This project models the driver in `LCD_library/lcd.c`. The driver runs an
HD44780 character LCD through a PCF8574 I2C port expander. It turns each
instruction or character into single-byte writes to the expander. Each
write is an 8-bit port image: the nibble on D4-D7 (bits 4-7), the
register select RS (bit 0), RW (bit 1, never set), the enable strobe EN
(bit 2) and the backlight BL (bit 3, always on). A nibble is latched by
writing its image with EN high, waiting 1 ms, and writing it again with EN
low. A byte goes out high nibble first.

The driver never reads anything back, so the model describes it by what it
sends. The I2C master transmit, the millisecond sleep and the microsecond
busy-wait become events (`Bus.Event`: `Tx`, `DelayMs`, `DelayUs`). These
events are appended to a ghost `trace` field of the handle class
`Lcd.LcdHandle`. The class also holds the handle's two real fields, the
bus handle and the 32-bit expander address.

Modules:

- `LcdDefs`: the header's constants, and the timeout and delay literals of
  `lcd.c`. The header gives the port-line positions, the default address
  `0x27 << 1`, the reset nibbles, the RS levels and the opcodes used. The
  100 ms transmit timeout (`lcd.c:90`, `94`, `126`) and the 2 ms
  long-command wait (`lcd.c:168`, `182`) are literals in `lcd.c`.
- `Bus`: trace events and `TxBytes`, the bytes a trace puts on the wire.
- `Wire`: the port image (`PortImage`) and the steady-state wire contract
  (`WireByte`, `PulsePair`, `Pulses`, `Steady`). It also has the
  controller's side of the 4-bit interface: `Latches` gives the nibbles
  latched on each falling edge of EN, and `Join` pairs them into 8-bit
  transfers. A pair whose nibbles were latched with different RS levels
  is a `Mixed` pair, not a register transfer.
- `LcdSpec`: what each operation appends to the trace, as functions of the
  bound bus and address. This includes `CursorCommand`, the Set DDRAM
  Address computation in 8-bit arithmetic, and `StrLen` for C strings.
- `Lcd`: the class. Each method states its whole effect: which fields it
  binds (only `InitI2C` binds any, and the others leave them unchanged)
  and what it appends to `trace`. The stand-ins for the two HAL calls
  (`Transmit`, `Delay`) and for the driver's own `udelay` (`MicroDelay`)
  append one event each. Every driver
  operation appends the trace given by its `LcdSpec` function.
- `LcdProofs`: what those traces mean on the wire and to the controller.
  The controller receives exactly the byte sent, with both of its nibbles
  latched on the right RS. Every byte except the opening 0x00 of an
  initialisation is well formed. The initialisation stream is fixed down to its 25
  bytes.
- `LcdSession`: the wire contract from power-on over any sequence of
  public calls, re-initialisation included. Every all-low byte opens a
  complete initialisation, and every other byte belongs to a steady-state
  enable pulse.

Strings are `seq<bv8>`: the driver casts every `char` to `uint8_t` and
sends it unchanged. C's `uint8_t` arithmetic is `bv8` arithmetic here, so
`column--` on 0 wraps to 0xFF, and `nibble << 4` drops the bits that do not
fit, as the assignment to a `uint8_t` does.

## Behaviour worth noting

- No fault path. The status of every transmit is discarded (`lcd.c:90`,
  `94`, `126`). No operation can fail or stop early, so the model has no
  error results.
- Short strings. `lcd_print_string` sends its first character before it
  tests anything, and then tests the character after the one it sent
  (`lcd.c:67-71`). A single-character string is printed correctly. The
  empty string is the only one that goes wrong: the terminator is sent
  and the buffer is read past its end. `PrintString` therefore requires a
  non-empty string.
- One address. `lcd_init_I2C` always binds `0x27 << 1` (`lcd.c:107`).
  No initialiser takes another address.
- Cursor command. `lcd_set_cursor` ORs `0x80` (row 1) or `0xC0` (row 2)
  into `column - 1` (`lcd.c:196-205`). For columns 1 to 16 this equals
  Set DDRAM Address of line base 0x00 or 0x40 plus `column - 1`, as
  `LcdSpec.CursorCommand` and `LcdProofs.CursorWire` state.

## Model

| member | source | states |
|---|---|---|
| `Wire.PortImage` | LCD_library/lcd.c:85-88 | the image has the nibble's low four bits in bits 4-7, RS in bit 0, RW (bit 1) clear, BL (bit 3) set, and EN (bit 2) set exactly when asked |
| `LcdSpec.DevAddress` | LCD_library/lcd.c:90 | the 32-bit handle address reaches the transmit call as its low 16 bits; an address below 0x10000 is passed unchanged |
| `LcdSpec.CursorCommand` | LCD_library/lcd.c:194-210 | a command exists exactly for rows 1 and 2 and always has bit 7 set (Set DDRAM Address); for columns 1-16 it is 0x80 + (column-1) on row 1 and 0xC0 + (column-1) on row 2; column 0 on row 1 wraps to 0xFF |
| `LcdSpec.StrLen` | LCD_library/lcd.c:67-71 | the result indexes a zero byte of the buffer, and no byte before it is zero (the first terminator) |
| `Lcd.LcdHandle.constructor` | LCD_library/lcd.h:50-55 | a handle not yet bound to a bus: zero fields and an empty trace |
| `Lcd.LcdHandle.Transmit` | LCD_library/lcd.c:90 | one transmit event on the handle's bus and address, carrying one byte, with timeout 100 |
| `Lcd.LcdHandle.Delay` | LCD_library/lcd.c:91 | one millisecond-sleep event of the given length |
| `Lcd.LcdHandle.MicroDelay` | LCD_library/lcd.c:218-221 | one microsecond-wait event of the requested length |
| `Lcd.LcdHandle.Write` | LCD_library/lcd.c:83-96 | the image built by the in-place updates of the local byte, sent with EN set, then DelayMs(1), then the same image with EN cleared, and nothing after |
| `Lcd.LcdHandle.SendCommand` | LCD_library/lcd.c:33-39 | appends Write(cmd >> 4, 0) followed by Write(cmd & 0x0F, 0) |
| `Lcd.LcdHandle.PrintChar` | LCD_library/lcd.c:49-55 | appends Write(d >> 4, 1) followed by Write(d & 0x0F, 1) |
| `Lcd.LcdHandle.PrintString` | LCD_library/lcd.c:64-73 | for a non-empty terminated buffer, appends PrintChar of each byte before the first terminator, in order, and never of the terminator |
| `Lcd.LcdHandle.InitI2C` | LCD_library/lcd.c:105-111 | binds the given bus and address 0x27<<1 (device address 0x4E), then appends the initialisation trace for them |
| `Lcd.LcdHandle.Init` | LCD_library/lcd.c:119-155 | appends DelayMs(50), Tx(0x00), DelayMs(40), nibble 3, DelayMs(5), nibble 3, DelayUs(100), nibbles 3 and 2, then commands 0x28, 0x0E, clear (0x01 with its 2 ms wait) and 0x06 |
| `Lcd.LcdHandle.DisplayClear` | LCD_library/lcd.c:163-169 | appends command 0x01 and then DelayMs(2), nothing else |
| `Lcd.LcdHandle.DisplayReturnHome` | LCD_library/lcd.c:177-183 | appends command 0x02 and then DelayMs(2), nothing else |
| `Lcd.LcdHandle.SetCursor` | LCD_library/lcd.c:194-210 | appends the command of CursorCommand(row, column) for rows 1 and 2, and nothing for any other row |
| `LcdProofs.PulseWire` | LCD_library/lcd.c:83-96 | a nibble transfer is one enable pulse of bytes with BL set and RW clear; the controller latches the nibble with the given RS; every transmit uses the bound bus, address, length 1 and timeout 100 |
| `LcdProofs.NibbleHalves` | LCD_library/lcd.c:36-37 | the high nibble of a byte fits in four bits, and the high and low nibbles reassemble the byte |
| `LcdProofs.ByteWire` | LCD_library/lcd.c:33-55 | the controller receives exactly one transfer: the input byte, both nibbles latched with the given RS (0 for commands, 1 for characters) |
| `LcdProofs.StringWire` | LCD_library/lcd.c:64-73 | a string is four steady-state bytes per character; the controller receives its characters in order, each as a data-register transfer whose high and low nibbles were both latched with RS 1 |
| `LcdProofs.LongCommandWire` | LCD_library/lcd.c:163-183 | the 2 ms wait after a long instruction adds nothing to the wire |
| `LcdProofs.ClearWire` | LCD_library/lcd.c:163-169 | clear is one instruction transfer 0x01, both nibbles latched with RS 0, followed last by a 2 ms wait |
| `LcdProofs.HomeWire` | LCD_library/lcd.c:177-183 | return home is one instruction transfer 0x02, both nibbles latched with RS 0, followed last by a 2 ms wait |
| `LcdProofs.CursorWire` | LCD_library/lcd.c:194-210 | rows other than 1 and 2 send nothing; otherwise the controller receives one instruction transfer, both nibbles latched with RS 0, of Set DDRAM Address of line base 0x00 or 0x40 plus column-1 for columns 1-16 |
| `LcdProofs.ResetBytes` | LCD_library/lcd.c:122-142 | the reset phase's wire bytes are the zero byte followed by the pulses of nibbles 3, 3, 3 and 2 |
| `LcdProofs.ResetWire` | LCD_library/lcd.c:122-142 | the reset phase sends 9 bytes: 0x00, then steady bytes from which the controller latches instruction nibbles 3, 3, 3, 2 |
| `LcdProofs.ConfigWire` | LCD_library/lcd.c:145-153 | the configuration phase sends 16 steady bytes carrying instructions 0x28, 0x0E, 0x01, 0x06 in that order, each with both nibbles latched with RS 0 |
| `LcdProofs.InitWire` | LCD_library/lcd.c:119-155 | initialisation transmits 25 bytes; only the first is zero; the rest are steady and carry the reset nibbles (latched with RS 0) and then the four instructions, each with both nibbles latched with RS 0; every transmit uses the bound bus and address, length 1 and timeout 100 |
| `LcdSession.CallWire` | LCD_library/lcd.c:33-210 | any one public call, `lcd_init` included, sends only single-byte transmits to the bound address; a call other than initialisation sends only steady-state bytes; every zero byte it sends opens a complete initialisation |
| `LcdSession.SessionWire` | LCD_library/lcd.c:33-210 | for any sequence of public calls: the stream is steady enable pulses broken only by zero bytes, each zero opens a complete initialisation, all transmits go to the bound address, and without re-initialisation the whole stream is steady |
| `LcdSession.PoweredSessionWire` | LCD_library/lcd.c:105-210 | from power-on, the session `[Init] + calls` is the initialisation trace followed by the calls; its stream starts with the 25 initialisation bytes, the first being 0x00; without re-initialisation every later byte has BL set and RW clear, is non-zero and is part of an enable pulse (framing, zeros and addressing for this session are `SessionWire`) |

## Left out

- The STM32 HAL (`HAL_I2C_Master_Transmit`, `HAL_Delay`): foreign calls into
  code that is not part of this model. They appear only as trace events.
  Bus timing, the HAL's handle internals and the HAL's own rounding of
  delays are not modelled.
- Transmit status and bus faults: the code discards every status, so the
  model has no error path and no retries.
- `udelay`'s spin loop (`lcd.c:218-221`): its length depends on the
  compiler and the clock, so it is recorded only as `DelayUs(cnt)`.
- `lcd_print_string` on an empty string: it sends the terminator and reads
  past the buffer, which is undefined behaviour. `PrintString` requires a
  non-empty string.
- Controller-side state (cursor position, DDRAM contents, display mode):
  the driver neither tracks nor reads it. The model goes only as far as
  the transfers the controller receives.
- The row and column macros and the unused opcodes of `lcd.h`: plain
  constants with no behaviour.
- The I2C peripheral handle is an opaque identity (`Bus.I2cHandle`). The
  model does not represent pointers to it or aliasing between two LCD
  handles on one bus.
- `LcdSession.CallWire`, `LcdSession.SessionWire`,
  `LcdSession.PoweredSessionWire`: a session stays on one bus handle.
  `Call.Init` stands for `lcd_init`, and for `lcd_init_I2C` on the bus
  already bound. Calling `lcd_init_I2C` with another I2C handle moves the
  later traffic to that bus, and these lemmas do not cover that case.
