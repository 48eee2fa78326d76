/** Constants of the driver header (the PCF8574 port-line assignment, the
    expander's default slave address, the reset nibbles, the register-select
    levels and the HD44780 instruction opcodes the driver issues), and the
    transmit timeout and long-command delay that `lcd.c` writes as literals. */
module LcdDefs {

  // Bit positions of the expander port lines wired to the display.
  const LCD_IO_RS: nat := 0
  const LCD_IO_RW: nat := 1
  const LCD_IO_EN: nat := 2
  const LCD_IO_BL: nat := 3
  const LCD_IO_D4: nat := 4

  /** Default PCF8574 address 0x27, pre-shifted into the 8-bit write form. */
  const SLAVE_ADDRESS_PCF: bv32 := 0x27 << 1

  // Nibbles of the reset-into-4-bit-mode sequence.
  const INIT_3: bv8 := 0x3
  const INIT_2: bv8 := 0x2

  // Register-select levels: instruction register and data register.
  const RS_PIN_RESET: bv8 := 0
  const RS_PIN_SET: bv8 := 1

  // Instruction opcodes used by the driver.
  const LCD_CMD_CLEAR: bv8 := 0x01
  const LCD_CMD_HOME: bv8 := 0x02
  /** Entry mode: cursor increments, display does not shift. */
  const LCD_CMD_CI_NDS: bv8 := 0x06
  /** Display control: display on, cursor on, no blinking. */
  const LCD_CMD_DON_C_NBL: bv8 := 0x0E
  /** Function set: 4-bit interface, two lines, 5x8 font. */
  const LCD_CMD_4DL_2L_5X8D: bv8 := 0x28

  /** Timeout, in milliseconds, passed with every transmit. */
  const TRANSMIT_TIMEOUT_MS: nat := 100

  /** Delay after the long-running Clear and Return Home instructions. */
  const LONG_COMMAND_DELAY_MS: nat := 2
}
