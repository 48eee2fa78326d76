/** What the traces of the driver operations mean on the wire: the expander
    bytes they carry, the enable pulses those bytes form, and the transfers
    the HD44780 latches from them in 4-bit mode. */
module LcdProofs {
  import opened LcdDefs
  import opened Bus
  import opened Wire
  import opened LcdSpec

  /** A delay puts nothing on the wire. */
  lemma NoTxBytes(e: Event)
    requires !e.Tx?
    ensures TxBytes([e]) == []
  {
  }

  /** The two bytes of a nibble transfer: the port image with EN high, then
      with EN low. */
  lemma PulseBytes(h: I2cHandle, a: bv16, nibble: bv8, rs: bv8)
    requires IsRs(rs)
    ensures TxBytes(Pulse(h, a, nibble, rs)) == [PortImage(nibble, rs, true), PortImage(nibble, rs, false)]
  {
    var p := Pulse(h, a, nibble, rs);
    var lo := PortImage(nibble, rs, false);
    assert TxBytes(p[2..]) == [lo] by {
      assert p[2..][1..] == [];
    }
    assert TxBytes(p[1..]) == [lo] by {
      assert p[1..][1..] == p[2..];
    }
  }

  /** One nibble transfer: an enable pulse of well-formed port images, from
      which the controller latches the nibble and the register select, sent
      as single-byte transmits to the bound bus and address. */
  lemma PulseWire(h: I2cHandle, a: bv16, nibble: bv8, rs: bv8)
    requires IsRs(rs)
    ensures TxBytes(Pulse(h, a, nibble, rs)) == [PortImage(nibble, rs, true), PortImage(nibble, rs, false)]
    ensures Steady(TxBytes(Pulse(h, a, nibble, rs)))
    ensures Latches(TxBytes(Pulse(h, a, nibble, rs))) == [Latch(rs, nibble & 0x0F)]
    ensures AddressedTo(Pulse(h, a, nibble, rs), h, a)
  {
    PulseBytes(h, a, nibble, rs);
    var hi, lo := PortImage(nibble, rs, true), PortImage(nibble, rs, false);
    assert [hi, lo][2..] == [];
    assert PulsePair(hi, lo);
  }

  /** An 8-bit value goes out as four bytes, high nibble first; the
      controller reassembles exactly that value with the given register
      select, and the high nibbles of bytes 0 and 2 are the value's halves. */
  lemma ByteWire(h: I2cHandle, a: bv16, v: bv8, rs: bv8)
    requires IsRs(rs)
    ensures |TxBytes(ByteEvents(h, a, v, rs))| == 4
    ensures Steady(TxBytes(ByteEvents(h, a, v, rs)))
    ensures Latches(TxBytes(ByteEvents(h, a, v, rs))) == [Latch(rs, v >> 4), Latch(rs, v & 0x0F)]
    ensures Join(Latches(TxBytes(ByteEvents(h, a, v, rs)))) == [Transfer(rs, v)]
    ensures var tx := TxBytes(ByteEvents(h, a, v, rs));
      ((tx[0] >> LCD_IO_D4) << 4) | (tx[2] >> LCD_IO_D4) == v
    ensures AddressedTo(ByteEvents(h, a, v, rs), h, a)
  {
    ByteSteady(h, a, v, rs);
    ByteLatches(h, a, v, rs);
    ByteHighNibbles(h, a, v, rs);
    PulseWire(h, a, v >> 4, rs);
    PulseWire(h, a, v & 0x0F, rs);
    var ls := [Latch(rs, v >> 4), Latch(rs, v & 0x0F)];
    assert ls[2..] == [];
    NibbleHalves(v);
  }

  lemma ByteSteady(h: I2cHandle, a: bv16, v: bv8, rs: bv8)
    requires IsRs(rs)
    ensures |TxBytes(ByteEvents(h, a, v, rs))| == 4
    ensures Steady(TxBytes(ByteEvents(h, a, v, rs)))
  {
    var high, low := Pulse(h, a, v >> 4, rs), Pulse(h, a, v & 0x0F, rs);
    TxBytesAppend(high, low);
    PulseWire(h, a, v >> 4, rs);
    PulseWire(h, a, v & 0x0F, rs);
    SteadyAppend(TxBytes(high), TxBytes(low));
  }

  lemma ByteLatches(h: I2cHandle, a: bv16, v: bv8, rs: bv8)
    requires IsRs(rs)
    ensures Latches(TxBytes(ByteEvents(h, a, v, rs))) == [Latch(rs, v >> 4), Latch(rs, v & 0x0F)]
  {
    var high, low := Pulse(h, a, v >> 4, rs), Pulse(h, a, v & 0x0F, rs);
    TxBytesAppend(high, low);
    PulseWire(h, a, v >> 4, rs);
    PulseWire(h, a, v & 0x0F, rs);
    LatchesAppend(TxBytes(high), TxBytes(low));
    NibbleHalves(v);
  }

  lemma ByteHighNibbles(h: I2cHandle, a: bv16, v: bv8, rs: bv8)
    requires IsRs(rs)
    ensures var tx := TxBytes(ByteEvents(h, a, v, rs));
      |tx| == 4 && ((tx[0] >> LCD_IO_D4) << 4) | (tx[2] >> LCD_IO_D4) == v
  {
    var high, low := Pulse(h, a, v >> 4, rs), Pulse(h, a, v & 0x0F, rs);
    TxBytesAppend(high, low);
    PulseWire(h, a, v >> 4, rs);
    PulseWire(h, a, v & 0x0F, rs);
    NibbleHalves(v);
  }

  /** The two nibbles of a byte, and their reassembly. */
  lemma NibbleHalves(v: bv8)
    ensures (v >> 4) & 0x0F == v >> 4
    ensures ((v >> 4) << 4) | (v & 0x0F) == v
  {
  }

  /** A string goes out as four bytes per character, and the controller
      receives its characters, in order, as data-register transfers. */
  lemma {:induction false} StringWire(h: I2cHandle, a: bv16, s: seq<bv8>)
    ensures |TxBytes(StringEvents(h, a, s))| == 4 * |s|
    ensures Steady(TxBytes(StringEvents(h, a, s)))
    ensures |Join(Latches(TxBytes(StringEvents(h, a, s))))| == |s|
    ensures forall i :: 0 <= i < |s| ==>
      Join(Latches(TxBytes(StringEvents(h, a, s))))[i] == Transfer(RS_PIN_SET, s[i])
    ensures AddressedTo(StringEvents(h, a, s), h, a)
    decreases |s|
  {
    if s != [] {
      var init, last := s[..|s| - 1], s[|s| - 1];
      var before, after := StringEvents(h, a, init), CharEvents(h, a, last);
      StringWire(h, a, init);
      ByteWire(h, a, last, RS_PIN_SET);
      TxBytesAppend(before, after);
      SteadyAppend(TxBytes(before), TxBytes(after));
      LatchesAppend(TxBytes(before), TxBytes(after));
      JoinAppend(Latches(TxBytes(before)), Latches(TxBytes(after)));
      forall i | 0 <= i < |s|
        ensures Join(Latches(TxBytes(StringEvents(h, a, s))))[i] == Transfer(RS_PIN_SET, s[i])
      {
        if i < |init| {
          assert s[i] == init[i];
        }
      }
    }
  }

  /** A long-running instruction followed by its 2 ms wait carries exactly
      the instruction's bytes on the wire. */
  lemma LongCommandWire(h: I2cHandle, a: bv16, cmd: bv8)
    ensures TxBytes(CommandEvents(h, a, cmd) + [DelayMs(LONG_COMMAND_DELAY_MS)])
      == TxBytes(CommandEvents(h, a, cmd))
  {
    TxBytesAppend(CommandEvents(h, a, cmd), [DelayMs(LONG_COMMAND_DELAY_MS)]);
    NoTxBytes(DelayMs(LONG_COMMAND_DELAY_MS));
    assert TxBytes(CommandEvents(h, a, cmd)) + [] == TxBytes(CommandEvents(h, a, cmd));
  }

  /** Clear is the instruction 0x01 followed by a 2 ms wait, and nothing else. */
  lemma ClearWire(h: I2cHandle, a: bv16)
    ensures |TxBytes(ClearEvents(h, a))| == 4
    ensures Steady(TxBytes(ClearEvents(h, a)))
    ensures Join(Latches(TxBytes(ClearEvents(h, a)))) == [Transfer(RS_PIN_RESET, LCD_CMD_CLEAR)]
    ensures ClearEvents(h, a)[|ClearEvents(h, a)| - 1] == DelayMs(2)
    ensures AddressedTo(ClearEvents(h, a), h, a)
  {
    ByteWire(h, a, LCD_CMD_CLEAR, RS_PIN_RESET);
    LongCommandWire(h, a, LCD_CMD_CLEAR);
  }

  /** Return Home is the instruction 0x02 followed by a 2 ms wait, and
      nothing else. */
  lemma HomeWire(h: I2cHandle, a: bv16)
    ensures |TxBytes(HomeEvents(h, a))| == 4
    ensures Steady(TxBytes(HomeEvents(h, a)))
    ensures Join(Latches(TxBytes(HomeEvents(h, a)))) == [Transfer(RS_PIN_RESET, LCD_CMD_HOME)]
    ensures HomeEvents(h, a)[|HomeEvents(h, a)| - 1] == DelayMs(2)
    ensures AddressedTo(HomeEvents(h, a), h, a)
  {
    ByteWire(h, a, LCD_CMD_HOME, RS_PIN_RESET);
    LongCommandWire(h, a, LCD_CMD_HOME);
  }

  /** On a 16x2 display, positioning the cursor sends the Set DDRAM Address
      instruction for line base 0x00 (row 1) or 0x40 (row 2) plus the
      zero-based column; any other row sends nothing. */
  lemma CursorWire(h: I2cHandle, a: bv16, row: bv8, column: bv8)
    ensures row != 1 && row != 2 ==> CursorEvents(h, a, row, column) == []
    ensures Steady(TxBytes(CursorEvents(h, a, row, column)))
    ensures (row == 1 || row == 2) && 1 <= column <= 16 ==>
      Join(Latches(TxBytes(CursorEvents(h, a, row, column))))
        == [Transfer(RS_PIN_RESET, 0x80 | ((if row == 1 then 0x00 else 0x40) + (column - 1)))]
    ensures AddressedTo(CursorEvents(h, a, row, column), h, a)
  {
    match CursorCommand(row, column)
    case Some(cmd) => ByteWire(h, a, cmd, RS_PIN_RESET);
    case None =>
  }

  /** The reset phase puts one all-low byte on the wire (backlight off too),
      then four enable pulses from which the controller latches the reset
      nibbles 3, 3, 3 and 2 as instructions. */
  lemma ResetWire(h: I2cHandle, a: bv16)
    ensures |TxBytes(ResetEvents(h, a))| == 9
    ensures TxBytes(ResetEvents(h, a))[0] == 0
    ensures Steady(TxBytes(ResetEvents(h, a))[1..])
    ensures Latches(TxBytes(ResetEvents(h, a))[1..])
      == [Latch(RS_PIN_RESET, INIT_3), Latch(RS_PIN_RESET, INIT_3),
          Latch(RS_PIN_RESET, INIT_3), Latch(RS_PIN_RESET, INIT_2)]
    ensures AddressedTo(ResetEvents(h, a), h, a)
  {
    var n3, n2 := TxBytes(Pulse(h, a, INIT_3, RS_PIN_RESET)), TxBytes(Pulse(h, a, INIT_2, RS_PIN_RESET));
    PulseWire(h, a, INIT_3, RS_PIN_RESET);
    PulseWire(h, a, INIT_2, RS_PIN_RESET);
    ResetBytes(h, a);
    var nibbles := n3 + n3 + n3 + n2;
    assert TxBytes(ResetEvents(h, a))[1..] == nibbles;
    SteadyAppend(n3, n3);
    SteadyAppend(n3 + n3, n3);
    SteadyAppend(n3 + n3 + n3, n2);
    LatchesAppend(n3, n3);
    LatchesAppend(n3 + n3, n3);
    LatchesAppend(n3 + n3 + n3, n2);
  }

  lemma ResetBytes(h: I2cHandle, a: bv16)
    ensures TxBytes(ResetEvents(h, a))
      == [0] + TxBytes(Pulse(h, a, INIT_3, RS_PIN_RESET)) + TxBytes(Pulse(h, a, INIT_3, RS_PIN_RESET))
        + TxBytes(Pulse(h, a, INIT_3, RS_PIN_RESET)) + TxBytes(Pulse(h, a, INIT_2, RS_PIN_RESET))
  {
    var power := [DelayMs(50), Tx(h, a, [0], TRANSMIT_TIMEOUT_MS), DelayMs(40)];
    var p3, p2 := Pulse(h, a, INIT_3, RS_PIN_RESET), Pulse(h, a, INIT_2, RS_PIN_RESET);
    var w5, w100 := [DelayMs(5)], [DelayUs(100)];
    assert TxBytes(power) == [0] by {
      assert power == [power[0]] + [power[1]] + [power[2]];
      NoTxBytes(DelayMs(50));
      NoTxBytes(DelayMs(40));
      assert TxBytes([power[1]]) == [0] by {
        assert [power[1]][1..] == [];
      }
      TxBytesAppend([power[0]], [power[1]]);
      TxBytesAppend([power[0]] + [power[1]], [power[2]]);
    }
    NoTxBytes(DelayMs(5));
    NoTxBytes(DelayUs(100));
    TxBytesAppend(power, p3);
    TxBytesAppend(power + p3, w5);
    TxBytesAppend(power + p3 + w5, p3);
    TxBytesAppend(power + p3 + w5 + p3, w100);
    TxBytesAppend(power + p3 + w5 + p3 + w100, p3);
    TxBytesAppend(power + p3 + w5 + p3 + w100 + p3, p2);
  }

  /** The configuration phase: sixteen steady-state bytes from which the
      controller receives function set 0x28, display control 0x0E, clear
      0x01 and entry mode 0x06, in that order. */
  lemma ConfigWire(h: I2cHandle, a: bv16)
    ensures |TxBytes(ConfigEvents(h, a))| == 16
    ensures Steady(TxBytes(ConfigEvents(h, a)))
    ensures Join(Latches(TxBytes(ConfigEvents(h, a))))
      == [Transfer(RS_PIN_RESET, LCD_CMD_4DL_2L_5X8D), Transfer(RS_PIN_RESET, LCD_CMD_DON_C_NBL),
          Transfer(RS_PIN_RESET, LCD_CMD_CLEAR), Transfer(RS_PIN_RESET, LCD_CMD_CI_NDS)]
    ensures AddressedTo(ConfigEvents(h, a), h, a)
  {
    var fn, dc := CommandEvents(h, a, LCD_CMD_4DL_2L_5X8D), CommandEvents(h, a, LCD_CMD_DON_C_NBL);
    var cl, em := ClearEvents(h, a), CommandEvents(h, a, LCD_CMD_CI_NDS);
    ByteWire(h, a, LCD_CMD_4DL_2L_5X8D, RS_PIN_RESET);
    ByteWire(h, a, LCD_CMD_DON_C_NBL, RS_PIN_RESET);
    ByteWire(h, a, LCD_CMD_CI_NDS, RS_PIN_RESET);
    ClearWire(h, a);
    var bf, bd, bc, be := TxBytes(fn), TxBytes(dc), TxBytes(cl), TxBytes(em);
    assert TxBytes(ConfigEvents(h, a)) == bf + bd + bc + be by {
      TxBytesAppend(fn, dc);
      TxBytesAppend(fn + dc, cl);
      TxBytesAppend(fn + dc + cl, em);
    }
    SteadyAppend(bf, bd);
    SteadyAppend(bf + bd, bc);
    SteadyAppend(bf + bd + bc, be);
    LatchesAppend(bf, bd);
    LatchesAppend(bf + bd, bc);
    LatchesAppend(bf + bd + bc, be);
    var lf, ld, lc, le := Latches(bf), Latches(bd), Latches(bc), Latches(be);
    JoinAppend(lf, ld);
    JoinAppend(lf + ld, lc);
    JoinAppend(lf + ld + lc, le);
  }

  /** The whole initialisation: 25 transmitted bytes, of which only the
      first is zero; the rest is steady-state traffic carrying the reset
      nibbles (bytes 1 to 8) and then the four configuration instructions. */
  lemma InitWire(h: I2cHandle, a: bv16)
    ensures |TxBytes(InitEvents(h, a))| == 25
    ensures TxBytes(InitEvents(h, a))[0] == 0
    ensures forall i :: 1 <= i < 25 ==> TxBytes(InitEvents(h, a))[i] != 0
    ensures Steady(TxBytes(InitEvents(h, a))[1..])
    ensures Latches(TxBytes(InitEvents(h, a))[1..9])
      == [Latch(RS_PIN_RESET, INIT_3), Latch(RS_PIN_RESET, INIT_3),
          Latch(RS_PIN_RESET, INIT_3), Latch(RS_PIN_RESET, INIT_2)]
    ensures Join(Latches(TxBytes(InitEvents(h, a))[9..]))
      == [Transfer(RS_PIN_RESET, LCD_CMD_4DL_2L_5X8D), Transfer(RS_PIN_RESET, LCD_CMD_DON_C_NBL),
          Transfer(RS_PIN_RESET, LCD_CMD_CLEAR), Transfer(RS_PIN_RESET, LCD_CMD_CI_NDS)]
    ensures AddressedTo(InitEvents(h, a), h, a)
  {
    var reset, config := TxBytes(ResetEvents(h, a)), TxBytes(ConfigEvents(h, a));
    ResetWire(h, a);
    ConfigWire(h, a);
    TxBytesAppend(ResetEvents(h, a), ConfigEvents(h, a));
    var tx := TxBytes(InitEvents(h, a));
    assert tx == reset + config;
    assert tx[1..9] == reset[1..];
    assert tx[9..] == config;
    ZeroThenSteady(reset, config);
  }
}

/** The wire contract over any use of the driver, from power-on: the
    expander sees only single-byte transmits to the bound address; every
    all-low byte opens a complete initialisation, and every other byte is
    part of a steady-state enable pulse. Without re-initialisation, the
    first byte is the only zero. */
module LcdSession {
  import opened LcdDefs
  import opened Bus
  import opened Wire
  import opened LcdSpec
  import opened LcdProofs

  /** One public operation of the driver, with its arguments. `Init` is
      `lcd_init`, or `lcd_init_I2C` on the bus already bound. `Text(s)`
      stands for `PrintString(m)` with `s == m[..StrLen(m)]`, so in the
      driver's own use `s` is non-empty and holds no zero; the lemmas
      below hold for every `s`. */
  datatype Call =
    | Init
    | Command(cmd: bv8)
    | Char(data: bv8)
    | Text(chars: seq<bv8>)
    | Clear
    | Home
    | Cursor(row: bv8, column: bv8)

  function CallEvents(h: I2cHandle, a: bv16, c: Call): seq<Event>
  {
    match c
    case Init => InitEvents(h, a)
    case Command(cmd) => CommandEvents(h, a, cmd)
    case Char(d) => CharEvents(h, a, d)
    case Text(s) => StringEvents(h, a, s)
    case Clear => ClearEvents(h, a)
    case Home => HomeEvents(h, a)
    case Cursor(row, column) => CursorEvents(h, a, row, column)
  }

  /** The trace of a sequence of calls made one after another. */
  function SessionEvents(h: I2cHandle, a: bv16, calls: seq<Call>): seq<Event>
    decreases |calls|
  {
    if calls == [] then []
    else SessionEvents(h, a, calls[..|calls| - 1]) + CallEvents(h, a, calls[|calls| - 1])
  }

  /** The calls contain no re-initialisation. */
  predicate NoInit(calls: seq<Call>)
  {
    forall k :: 0 <= k < |calls| ==> !calls[k].Init?
  }

  /** Every all-low byte of `tx` is the first of a copy of `init`. */
  predicate ZerosStartInit(tx: seq<bv8>, init: seq<bv8>)
  {
    forall i :: 0 <= i < |tx| && tx[i] == 0 ==> i + |init| <= |tx| && tx[i..i + |init|] == init
  }

  lemma ZerosAppend(x: seq<bv8>, y: seq<bv8>, init: seq<bv8>)
    requires ZerosStartInit(x, init) && ZerosStartInit(y, init)
    ensures ZerosStartInit(x + y, init)
  {
    forall i | 0 <= i < |x + y| && (x + y)[i] == 0
      ensures i + |init| <= |x + y| && (x + y)[i..i + |init|] == init
    {
      if i < |x| {
        assert x[i] == 0;
        assert (x + y)[i..i + |init|] == x[i..i + |init|];
      } else {
        assert y[i - |x|] == 0;
        assert (x + y)[i..i + |init|] == y[i - |x|..i - |x| + |init|];
      }
    }
  }

  /** The initialisation on its own: framed, with its one zero opening it. */
  lemma InitFramed(h: I2cHandle, a: bv16)
    ensures Framed(TxBytes(InitEvents(h, a)))
    ensures ZerosStartInit(TxBytes(InitEvents(h, a)), TxBytes(InitEvents(h, a)))
  {
    var tx := TxBytes(InitEvents(h, a));
    InitWire(h, a);
    SteadyFramed(tx[1..]);
    assert tx[0..|tx|] == tx;
  }

  /** Steady traffic, as every call other than `Init` sends, is framed and
      free of zeros. */
  lemma SteadyCall(tx: seq<bv8>, init: seq<bv8>)
    requires Steady(tx)
    ensures Framed(tx)
    ensures ZerosStartInit(tx, init)
  {
    SteadyFramed(tx);
    SteadyNonZero(tx);
  }

  lemma CallWire(h: I2cHandle, a: bv16, c: Call)
    ensures !c.Init? ==> Steady(TxBytes(CallEvents(h, a, c)))
    ensures Framed(TxBytes(CallEvents(h, a, c)))
    ensures ZerosStartInit(TxBytes(CallEvents(h, a, c)), TxBytes(InitEvents(h, a)))
    ensures AddressedTo(CallEvents(h, a, c), h, a)
  {
    var tx, init := TxBytes(CallEvents(h, a, c)), TxBytes(InitEvents(h, a));
    match c
    case Init => InitWire(h, a); InitFramed(h, a);
    case Command(cmd) => ByteWire(h, a, cmd, RS_PIN_RESET); SteadyCall(tx, init);
    case Char(d) => ByteWire(h, a, d, RS_PIN_SET); SteadyCall(tx, init);
    case Text(s) => StringWire(h, a, s); SteadyCall(tx, init);
    case Clear => ClearWire(h, a); SteadyCall(tx, init);
    case Home => HomeWire(h, a); SteadyCall(tx, init);
    case Cursor(row, column) => CursorWire(h, a, row, column); SteadyCall(tx, init);
  }

  lemma {:induction false} SessionWire(h: I2cHandle, a: bv16, calls: seq<Call>)
    ensures NoInit(calls) ==> Steady(TxBytes(SessionEvents(h, a, calls)))
    ensures Framed(TxBytes(SessionEvents(h, a, calls)))
    ensures ZerosStartInit(TxBytes(SessionEvents(h, a, calls)), TxBytes(InitEvents(h, a)))
    ensures AddressedTo(SessionEvents(h, a, calls), h, a)
    decreases |calls|
  {
    if calls != [] {
      var prefix, c := calls[..|calls| - 1], calls[|calls| - 1];
      var before, last := SessionEvents(h, a, prefix), CallEvents(h, a, c);
      SessionWire(h, a, prefix);
      CallWire(h, a, c);
      TxBytesAppend(before, last);
      var tb, tl := TxBytes(before), TxBytes(last);
      assert TxBytes(SessionEvents(h, a, calls)) == tb + tl;
      FramedAppend(tb, tl);
      ZerosAppend(tb, tl, TxBytes(InitEvents(h, a)));
      if NoInit(calls) {
        assert NoInit(prefix) by {
          assert forall k :: 0 <= k < |prefix| ==> prefix[k] == calls[k];
        }
        SteadyAppend(tb, tl);
      }
    }
  }

  /** Prepending a call prepends its trace. */
  lemma {:induction false} SessionPrepend(h: I2cHandle, a: bv16, c: Call, calls: seq<Call>)
    ensures SessionEvents(h, a, [c] + calls) == CallEvents(h, a, c) + SessionEvents(h, a, calls)
    decreases |calls|
  {
    if calls == [] {
      assert [c] + calls == [c];
      assert ([c] + calls)[..0] == [];
    } else {
      var all, prefix := [c] + calls, calls[..|calls| - 1];
      assert all[..|all| - 1] == [c] + prefix;
      assert all[|all| - 1] == calls[|calls| - 1];
      SessionPrepend(h, a, c, prefix);
      AppendAssoc(CallEvents(h, a, c), SessionEvents(h, a, prefix), CallEvents(h, a, calls[|calls| - 1]));
    }
  }

  /** The bytes sent from power-on: the initialisation, then `calls`. */
  function PoweredBytes(h: I2cHandle, a: bv16, calls: seq<Call>): seq<bv8>
  {
    TxBytes(SessionEvents(h, a, [Init] + calls))
  }

  /** From power-on, the stream opens with the 25 initialisation bytes, the
      first of them all-low. When the later calls do not re-initialise, every
      later byte has the backlight on and RW low, the later bytes form enable
      pulses, and none of them is zero. (That the whole stream is framed, that
      every zero opens an initialisation and that every transmit is addressed
      to the bound device is `SessionWire` of the session `[Init] + calls`.) */
  lemma PoweredSessionWire(h: I2cHandle, a: bv16, calls: seq<Call>)
    ensures SessionEvents(h, a, [Init] + calls) == InitEvents(h, a) + SessionEvents(h, a, calls)
    ensures |PoweredBytes(h, a, calls)| >= 25
    ensures PoweredBytes(h, a, calls)[..25] == TxBytes(InitEvents(h, a))
    ensures PoweredBytes(h, a, calls)[0] == 0
    ensures NoInit(calls) ==> Steady(PoweredBytes(h, a, calls)[1..])
    ensures NoInit(calls) ==> forall i :: 1 <= i < |PoweredBytes(h, a, calls)| ==> PoweredBytes(h, a, calls)[i] != 0
  {
    var init, session := InitEvents(h, a), SessionEvents(h, a, calls);
    SessionPrepend(h, a, Init, calls);
    InitWire(h, a);
    SessionWire(h, a, calls);
    TxBytesAppend(init, session);
    assert PoweredBytes(h, a, calls) == TxBytes(init) + TxBytes(session);
    if NoInit(calls) {
      ZeroThenSteady(TxBytes(init), TxBytes(session));
    }
  }
}
