/** The expander's 8-bit port image and the HD44780 4-bit interface it
    drives: which bytes the driver may put on the wire, and what the
    controller latches from them. */
module Wire {
  import opened LcdDefs

  const RS_MASK: bv8 := 1 << LCD_IO_RS
  const RW_MASK: bv8 := 1 << LCD_IO_RW
  const EN_MASK: bv8 := 1 << LCD_IO_EN
  const BL_MASK: bv8 := 1 << LCD_IO_BL

  predicate IsRs(rs: bv8)
  {
    rs == RS_PIN_RESET || rs == RS_PIN_SET
  }

  /** The port image of one half-transfer: the nibble on D4-D7, the register
      select on bit 0, the backlight always on and the enable strobe as given. */
  function PortImage(nibble: bv8, rs: bv8, en: bool): (b: bv8)
    requires IsRs(rs)
    ensures b >> LCD_IO_D4 == nibble & 0x0F
    ensures b & RS_MASK == rs
    ensures b & RW_MASK == 0
    ensures (b & EN_MASK == EN_MASK) == en
    ensures b & BL_MASK == BL_MASK
  {
    (nibble << LCD_IO_D4) | (rs << LCD_IO_RS) | BL_MASK | (if en then EN_MASK else 0)
  }

  /** A byte the driver may send once the controller is out of reset:
      backlight on, RW low (the driver never reads). */
  predicate WireByte(b: bv8)
  {
    b & BL_MASK == BL_MASK && b & RW_MASK == 0
  }

  /** An enable pulse: two writes identical except for EN, high then low. */
  predicate PulsePair(high: bv8, low: bv8)
  {
    high == low | EN_MASK && low & EN_MASK == 0
  }

  /** The byte stream consists of enable pulses only. */
  predicate Pulses(tx: seq<bv8>)
    decreases |tx|
  {
    if tx == [] then true
    else |tx| >= 2 && PulsePair(tx[0], tx[1]) && Pulses(tx[2..])
  }

  /** The steady-state wire contract: enable pulses of well-formed bytes. */
  predicate Steady(tx: seq<bv8>)
  {
    Pulses(tx) && forall b :: b in tx ==> WireByte(b)
  }

  /** What the controller latches on one falling edge of EN. */
  datatype Latch = Latch(rs: bv8, nibble: bv8)

  /** One 8-bit transfer to the instruction (rs 0) or data (rs 1) register. */
  datatype Transfer =
    | Transfer(rs: bv8, value: bv8)
    /** Two nibbles latched with different RS levels: no register transfer. */
    | Mixed(high: Latch, low: Latch)

  /** What the controller samples from one port write: the RS line and D4-D7. */
  function Sample(b: bv8): Latch
  {
    Latch(b & RS_MASK, b >> LCD_IO_D4)
  }

  /** The nibbles latched from a stream of enable pulses, read from the EN-low
      write of each pair, where the HD44780 samples on the falling edge. */
  function Latches(tx: seq<bv8>): (ls: seq<Latch>)
    ensures |ls| == |tx| / 2
    decreases |tx|
  {
    if |tx| < 2 then []
    else [Sample(tx[1])] + Latches(tx[2..])
  }

  /** The transfer assembled from a high and a low nibble; it reaches a
      register only when both nibbles were latched with the same RS. */
  function Assemble(high: Latch, low: Latch): Transfer
  {
    if high.rs == low.rs then Transfer(high.rs, (high.nibble << 4) | low.nibble)
    else Mixed(high, low)
  }

  /** In 4-bit mode, the controller assembles each transfer from two latched
      nibbles, the high nibble first. */
  function Join(ls: seq<Latch>): (ts: seq<Transfer>)
    ensures |ts| == |ls| / 2
    decreases |ls|
  {
    if |ls| < 2 then []
    else [Assemble(ls[0], ls[1])] + Join(ls[2..])
  }

  /** A register transfer comes out of two nibbles exactly when both were
      latched with its RS. */
  lemma AssembleTransfer(high: Latch, low: Latch, rs: bv8, v: bv8)
    ensures Assemble(high, low) == Transfer(rs, v)
      <==> high.rs == rs && low.rs == rs && (high.nibble << 4) | low.nibble == v
  {
  }

  lemma {:induction false} PulsesAppend(x: seq<bv8>, y: seq<bv8>)
    requires Pulses(x) && Pulses(y)
    ensures Pulses(x + y)
    decreases |x|
  {
    if x == [] {
      assert x + y == y;
    } else {
      assert (x + y)[2..] == x[2..] + y;
      PulsesAppend(x[2..], y);
    }
  }

  lemma SteadyAppend(x: seq<bv8>, y: seq<bv8>)
    requires Steady(x) && Steady(y)
    ensures Steady(x + y)
  {
    PulsesAppend(x, y);
  }

  lemma {:induction false} LatchesAppend(x: seq<bv8>, y: seq<bv8>)
    requires |x| % 2 == 0
    ensures Latches(x + y) == Latches(x) + Latches(y)
    decreases |x|
  {
    if x == [] {
      assert x + y == y;
    } else {
      var head := [Sample(x[1])];
      assert (x + y)[1] == x[1];
      assert (x + y)[2..] == x[2..] + y;
      assert Latches(x + y) == head + Latches(x[2..] + y);
      LatchesAppend(x[2..], y);
      assert Latches(x) == head + Latches(x[2..]);
      assert head + (Latches(x[2..]) + Latches(y)) == head + Latches(x[2..]) + Latches(y);
    }
  }

  lemma {:induction false} JoinAppend(x: seq<Latch>, y: seq<Latch>)
    requires |x| % 2 == 0
    ensures Join(x + y) == Join(x) + Join(y)
    decreases |x|
  {
    if x == [] {
      assert x + y == y;
    } else {
      var head := [Assemble(x[0], x[1])];
      assert (x + y)[0] == x[0] && (x + y)[1] == x[1];
      assert (x + y)[2..] == x[2..] + y;
      assert Join(x + y) == head + Join(x[2..] + y);
      JoinAppend(x[2..], y);
      assert Join(x) == head + Join(x[2..]);
      assert head + (Join(x[2..]) + Join(y)) == head + Join(x[2..]) + Join(y);
    }
  }

  /** Every byte of a steady stream is non-zero, since its backlight bit is set. */
  lemma SteadyNonZero(tx: seq<bv8>)
    requires Steady(tx)
    ensures forall i :: 0 <= i < |tx| ==> tx[i] != 0
  {
    forall i | 0 <= i < |tx|
      ensures tx[i] != 0
    {
      assert tx[i] in tx;
    }
  }

  /** A stream of steady enable pulses, interrupted only by single all-low
      bytes such as the one that opens the initialisation. */
  predicate Framed(tx: seq<bv8>)
    decreases |tx|
  {
    if tx == [] then true
    else if tx[0] == 0 then Framed(tx[1..])
    else
      |tx| >= 2 && PulsePair(tx[0], tx[1]) && WireByte(tx[0]) && WireByte(tx[1])
      && Framed(tx[2..])
  }

  lemma {:induction false} SteadyFramed(tx: seq<bv8>)
    requires Steady(tx)
    ensures Framed(tx)
    decreases |tx|
  {
    if tx != [] {
      assert tx[0] in tx && tx[1] in tx;
      assert tx[0] != 0;
      assert forall b :: b in tx[2..] ==> b in tx;
      SteadyFramed(tx[2..]);
    }
  }

  lemma {:induction false} FramedAppend(x: seq<bv8>, y: seq<bv8>)
    requires Framed(x) && Framed(y)
    ensures Framed(x + y)
    decreases |x|
  {
    if x == [] {
      assert x + y == y;
    } else if x[0] == 0 {
      assert (x + y)[0] == 0;
      assert (x + y)[1..] == x[1..] + y;
      FramedAppend(x[1..], y);
    } else {
      assert (x + y)[0] == x[0] && (x + y)[1] == x[1];
      assert (x + y)[2..] == x[2..] + y;
      FramedAppend(x[2..], y);
    }
  }

  /** A stream that starts with one zero byte followed by steady traffic
      stays so when more steady traffic follows, and no byte after the
      first is zero. */
  lemma ZeroThenSteady(x: seq<bv8>, y: seq<bv8>)
    requires |x| >= 1 && x[0] == 0 && Steady(x[1..]) && Steady(y)
    ensures (x + y)[0] == 0 && Steady((x + y)[1..])
    ensures forall i :: 1 <= i < |x + y| ==> (x + y)[i] != 0
  {
    assert (x + y)[1..] == x[1..] + y;
    SteadyAppend(x[1..], y);
    SteadyNonZero((x + y)[1..]);
    assert forall i :: 1 <= i < |x + y| ==> (x + y)[i] == (x + y)[1..][i - 1];
  }
}
