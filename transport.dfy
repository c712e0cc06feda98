/**
 * The byte-level transports behind LCDWriteByte, LCDWrite8 and LCDReadByte.
 *
 * Whatever the wiring, the controller sees the same thing: when its enable
 * line E falls it takes what is on its data lines D7..D0 (a write, RW low)
 * or has answered on them (a read, RW high), together with the level of RS.
 * A `Strobe` records one such falling edge. On an 8-bit interface a strobe
 * is a whole transfer; on a 4-bit interface only D7..D4 are wired and a
 * transfer is two strobes, upper nibble first. `Transfers` is that rule,
 * and it is the reference every encoder below is proved against: the bytes
 * an encoder puts on the wire make the controller see exactly the transfer
 * the driver asked for.
 */
module Transport {
  import opened Hd44780
  import opened Layout

  /** One falling edge of E: a write latches `lines`, a read fetches. */
  datatype Strobe = Latch(lines: bv8, rs: bool) | Fetch(rs: bool)

  /** The transfers the controller assembles from a run of strobes. */
  function Transfers(fourBit: bool, s: seq<Strobe>): seq<Op>
    decreases |s|
  {
    if s == [] then []
    else if !fourBit then
      (match s[0]
       case Latch(lines, rs) => [Write(lines as int, rs)]
       case Fetch(rs) => [Read(rs)]) + Transfers(fourBit, s[1..])
    else if |s| < 2 then []
    else
      (match (s[0], s[1])
       case (Latch(hi, rs), Latch(lo, _)) => [Write(((hi & 0xF0) | (lo >> 4)) as int, rs)]
       case (Fetch(rs), Fetch(_)) => [Read(rs)]
       case _ => []) + Transfers(fourBit, s[2..])
  }

  /** The strobes that carry the byte `c`: one on eight data lines; on four,
      the upper nibble and then the lower nibble, each on D7..D4. */
  function ByteStrobes(fourBit: bool, c: bv8, rs: bool): seq<Strobe>
  {
    if fourBit then [Latch(c & 0xF0, rs), Latch((c << 4) & 0xF0, rs)] else [Latch(c, rs)]
  }

  /** The controller assembles those strobes into exactly the write of `c`:
      in 4-bit mode the two nibbles put back together give `c`. */
  lemma ByteStrobesTransfer(fourBit: bool, c: bv8, rs: bool)
    ensures Transfers(fourBit, ByteStrobes(fourBit, c, rs)) == [Write(c as int, rs)]
  {
    var s := ByteStrobes(fourBit, c, rs);
    if fourBit {
      assert s[2..] == [];
      assert (c & 0xF0) | (((c << 4) & 0xF0) >> 4) == c;
    } else {
      assert s[1..] == [];
    }
  }

  // ---------------------------------------------------------------------
  // LCD_MODE_EXP18 / LCD_MODE_EXP8: an MCP23S17 SPI port expander. Port B
  // carries D7..D0; on port A bit 7 is RS and bit 6 is E.
  // ---------------------------------------------------------------------

  const ExpPortA: bv8 := 0x12
  const ExpPortB: bv8 := 0x13
  const ExpRs: bv8 := 0x80
  const ExpE: bv8 := 0x40

  /** One WriteRegister(reg, value) call: an SPI write to an expander register. */
  datatype RegWrite = RegWrite(reg: bv8, value: bv8)

  /** The expander's two output latches. */
  datatype Expander = Expander(a: bv8, b: bv8)

  /** The expander after one register write; other registers (direction,
      configuration) do not drive the lines. */
  function ExpApply(x: Expander, w: RegWrite): Expander
  {
    if w.reg == ExpPortA then x.(a := w.value)
    else if w.reg == ExpPortB then x.(b := w.value)
    else x
  }

  /** The falling edges of E the controller sees while `ws` is applied to `x`. */
  function ExpStrobes(x: Expander, ws: seq<RegWrite>): seq<Strobe>
    decreases |ws|
  {
    if ws == [] then []
    else
      var y := ExpApply(x, ws[0]);
      (if x.a & ExpE != 0 && y.a & ExpE == 0 then [Latch(x.b, x.a & ExpRs != 0)] else [])
      + ExpStrobes(y, ws[1..])
  }

  /** The expander after the whole sequence `ws`. */
  function ExpAfter(x: Expander, ws: seq<RegWrite>): Expander
    decreases |ws|
  {
    if ws == [] then x else ExpAfter(ExpApply(x, ws[0]), ws[1..])
  }

  /** LCDWriteByte (EXP): RS on port A, the byte on port B, then E raised
      and lowered on port A with RS held. */
  function ExpWriteByte(c: bv8, rs: bool): seq<RegWrite>
  {
    var flags: bv8 := if rs then ExpRs else 0;
    [RegWrite(ExpPortA, flags), RegWrite(ExpPortB, c), RegWrite(ExpPortA, flags | ExpE), RegWrite(ExpPortA, flags)]
  }

  /** From any expander state with E low, the four register writes make the
      controller latch exactly the byte `c` with register select `rs`, and
      leave E low again, ready for the next byte. */
  lemma {:induction false} ExpWriteByteLatches(x: Expander, c: bv8, rs: bool)
    requires x.a & ExpE == 0
    ensures ExpStrobes(x, ExpWriteByte(c, rs)) == [Latch(c, rs)]
    ensures Transfers(false, ExpStrobes(x, ExpWriteByte(c, rs))) == [Write(c as int, rs)]
    ensures ExpAfter(x, ExpWriteByte(c, rs)).a & ExpE == 0
    ensures ExpAfter(x, ExpWriteByte(c, rs)).b == c
  {
    var ws := ExpWriteByte(c, rs);
    var flags: bv8 := if rs then ExpRs else 0;
    var x1 := x.(a := flags);
    var x2 := x1.(b := c);
    var x3 := x2.(a := flags | ExpE);
    var x4 := x3.(a := flags);
    assert ws[1..][1..][1..][1..] == [];
    assert ExpStrobes(x4, []) == [];
    assert ExpStrobes(x3, ws[3..]) == [Latch(c, rs)] by {
      assert ws[3..] == [ws[3]] && ws[3..][1..] == [];
    }
    assert ExpStrobes(x2, ws[2..]) == [Latch(c, rs)] by {
      assert ws[2..][1..] == ws[3..];
    }
    assert ExpStrobes(x1, ws[1..]) == [Latch(c, rs)] by {
      assert ws[1..][1..] == ws[2..];
    }
    assert ExpStrobes(x, ws) == [Latch(c, rs)];
    assert Transfers(false, [Latch(c, rs)]) == [Write(c as int, rs)] by {
      assert [Latch(c, rs)][1..] == [];
    }
    assert ExpAfter(x, ws) == x4 by {
      assert ExpAfter(x4, []) == x4;
      assert ws[3..] == [ws[3]] && ws[3..][1..] == [];
      assert ExpAfter(x3, ws[3..]) == x4;
      assert ws[2..][1..] == ws[3..];
      assert ExpAfter(x2, ws[2..]) == x4;
      assert ws[1..][1..] == ws[2..];
      assert ExpAfter(x1, ws[1..]) == x4;
    }
  }

  /** LCDReadByte (EXP): the expander is wired for writing only and the
      read gives 0. */
  function ExpReadByte(rs: bool): Byte
  {
    0
  }

  /** What the driver makes of the EXP read (both expander variants): the
      status reads as not busy with AC 0, so LCDBusy never waits and
      LCDGetPos always reports the home cell, whatever the controller holds. */
  lemma ExpStatusReadsIdle(g: Geometry)
    ensures !BusyOfStatus(ExpReadByte(false))
    ensures AcOfStatus(ExpReadByte(false)) == 0
    ensures PosFromAC(g, AcOfStatus(ExpReadByte(false))) == (0, 0)
  {
  }

  // ---------------------------------------------------------------------
  // LCD_MODE_I2C: a PCF8574 I2C backpack in 4-bit mode. P7..P4 carry
  // D7..D4, P3 the backlight, P2 E, P1 RW and P0 RS.
  // ---------------------------------------------------------------------

  const I2cRs: bv8 := 0x01
  const I2cRw: bv8 := 0x02
  const I2cE: bv8 := 0x04
  const Backlight: bv8 := 0x08

  /** The falling edges of E while the backpack outputs `frames` after `prev`. */
  function I2cStrobes(prev: bv8, frames: seq<bv8>): seq<Strobe>
    decreases |frames|
  {
    if frames == [] then []
    else
      (if prev & I2cE != 0 && frames[0] & I2cE == 0 then
         (if prev & I2cRw == 0 then [Latch(prev & 0xF0, prev & I2cRs != 0)] else [Fetch(prev & I2cRs != 0)])
       else [])
      + I2cStrobes(frames[0], frames[1..])
  }

  /** The backpack's control bits: backlight always, RS for data. */
  function I2cFlags(rs: bool): bv8
  {
    if rs then Backlight | I2cRs else Backlight
  }

  /** LCDWrite8 (I2C): the upper nibble, once with E high and once with E low. */
  function I2cWrite8(c: bv8, rs: bool): seq<bv8>
  {
    var hi := c & 0xF0;
    [hi | I2cE | I2cFlags(rs), hi | I2cFlags(rs)]
  }

  /** LCDWriteByte (I2C): the upper nibble and then the lower one, each
      with E high and then low, and a final byte with only the backlight. */
  function I2cWriteByte(c: bv8, rs: bool): seq<bv8>
  {
    var hi := c & 0xF0;
    var lo := (c << 4) & 0xF0;
    [hi | I2cE | I2cFlags(rs), hi | I2cFlags(rs), lo | I2cE | I2cFlags(rs), lo | I2cFlags(rs), Backlight]
  }

  /** The five bytes of LCDWriteByte (I2C), bit by bit: the backlight in
      all five; E exactly in the first and third; RS in the first four
      exactly when `rs`, and never in the last; RW never; the upper nibble
      of `c` in the first two and its lower nibble in the next two, so that
      the first and third reassemble `c`. */
  lemma I2cWriteByteFraming(c: bv8, rs: bool)
    ensures |I2cWriteByte(c, rs)| == 5
    ensures forall k :: 0 <= k < 5 ==> I2cWriteByte(c, rs)[k] & Backlight != 0
    ensures forall k :: 0 <= k < 5 ==> I2cWriteByte(c, rs)[k] & I2cRw == 0
    ensures forall k :: 0 <= k < 5 ==> (I2cWriteByte(c, rs)[k] & I2cE != 0 <==> k == 0 || k == 2)
    ensures forall k :: 0 <= k < 4 ==> (I2cWriteByte(c, rs)[k] & I2cRs != 0 <==> rs)
    ensures I2cWriteByte(c, rs)[4] & I2cRs == 0
    ensures I2cWriteByte(c, rs)[0] & 0xF0 == I2cWriteByte(c, rs)[1] & 0xF0 == c & 0xF0
    ensures I2cWriteByte(c, rs)[2] & 0xF0 == I2cWriteByte(c, rs)[3] & 0xF0 == (c << 4) & 0xF0
    ensures (I2cWriteByte(c, rs)[0] & 0xF0) | (I2cWriteByte(c, rs)[2] >> 4) == c
  {
    var f := I2cWriteByte(c, rs);
    forall k | 0 <= k < 5
      ensures f[k] & Backlight != 0 && f[k] & I2cRw == 0
      ensures f[k] & I2cE != 0 <==> k == 0 || k == 2
      ensures k < 4 ==> (f[k] & I2cRs != 0 <==> rs)
    {
    }
  }

  /** From a backpack output with E low, LCDWriteByte (I2C) makes the
      controller latch the two nibbles of `c`, which it assembles into the
      write of `c`, and leaves E low. */
  lemma {:induction false} I2cWriteByteLatches(prev: bv8, c: bv8, rs: bool)
    requires prev & I2cE == 0
    ensures I2cStrobes(prev, I2cWriteByte(c, rs)) == ByteStrobes(true, c, rs)
    ensures I2cWriteByte(c, rs)[|I2cWriteByte(c, rs)| - 1] & I2cE == 0
  {
    var f := I2cWriteByte(c, rs);
    I2cWriteByteFraming(c, rs);
    assert f[1..][1..][1..][1..][1..] == [];
    assert I2cStrobes(f[3], f[4..]) == [] by {
      assert f[4..] == [f[4]] && f[4..][1..] == [];
    }
    assert I2cStrobes(f[2], f[3..]) == [Latch((c << 4) & 0xF0, rs)] by {
      assert f[3..][1..] == f[4..];
    }
    assert I2cStrobes(f[1], f[2..]) == [Latch((c << 4) & 0xF0, rs)] by {
      assert f[2..][1..] == f[3..];
    }
    assert I2cStrobes(f[0], f[1..]) == [Latch(c & 0xF0, rs), Latch((c << 4) & 0xF0, rs)] by {
      assert f[1..][1..] == f[2..];
    }
  }

  /** From a backpack output with E low, LCDWrite8 (I2C) makes the
      controller latch one strobe carrying the upper nibble of `c` (the
      power-on sequence, while the controller still reads eight lines). */
  lemma {:induction false} I2cWrite8Latches(prev: bv8, c: bv8, rs: bool)
    requires prev & I2cE == 0
    ensures I2cStrobes(prev, I2cWrite8(c, rs)) == [Latch(c & 0xF0, rs)]
    ensures I2cWrite8(c, rs)[1] & I2cE == 0
  {
    var f := I2cWrite8(c, rs);
    assert f[1..][1..] == [];
    assert I2cStrobes(f[0], f[1..]) == [Latch(c & 0xF0, rs)];
  }

  // ---------------------------------------------------------------------
  // LCD_MODE_DIRECT: the controller on port pins of the microcontroller.
  // The data lines are the bits ON_MASK of LCD_LAT / LCD_PORT / LCD_TRIS
  // (all eight, or the upper four in 4-bit mode); the other bits of those
  // registers belong to other functions and must be left alone.
  // ---------------------------------------------------------------------

  /** ON_MASK: the data-line bits of the port. */
  function OnMask(fourBit: bool): (m: bv8)
    ensures m | OffMask(fourBit) == 0xFF && m & OffMask(fourBit) == 0
  {
    if fourBit then 0xF0 else 0xFF
  }

  /** OFF_MASK: the bits of the port that are not data lines. */
  function OffMask(fourBit: bool): bv8
  {
    if fourBit then 0x0F else 0x00
  }

  /** The port value read while the controller drives `driven` on the data
      lines and the other pins are at `other`. */
  function PortPins(fourBit: bool, driven: bv8, other: bv8): bv8
  {
    (driven & OnMask(fourBit)) | (other & OffMask(fourBit))
  }

  /** LCD_LAT = (LCD_LAT & OFF_MASK) | (v & ON_MASK) puts `v` on the data
      lines and leaves the other bits as they were. */
  lemma MaskedUpdate(fourBit: bool, lat: bv8, v: bv8)
    ensures ((lat & OffMask(fourBit)) | (v & OnMask(fourBit))) & OffMask(fourBit) == lat & OffMask(fourBit)
    ensures ((lat & OffMask(fourBit)) | (v & OnMask(fourBit))) & OnMask(fourBit) == v & OnMask(fourBit)
  {
  }

  class DirectPort {
    const fourBit: bool
    /** LCD_LAT, LCD_TRIS and the three control lines. */
    var lat: bv8
    var tris: bv8
    var rsPin: bool
    var rwPin: bool
    var ePin: bool
    /** The falling edges of E so far, as the controller saw them. */
    var strobes: seq<Strobe>

    constructor(fourBit: bool, lat: bv8, tris: bv8)
      ensures this.fourBit == fourBit && this.lat == lat && this.tris == tris
      ensures !rsPin && !rwPin && !ePin && strobes == []
    {
      this.fourBit := fourBit;
      this.lat := lat;
      this.tris := tris;
      rsPin, rwPin, ePin := false, false, false;
      strobes := [];
    }

    /** E raised and lowered: the controller latches the data lines. */
    method PulseWrite()
      requires !rwPin
      modifies this
      ensures strobes == old(strobes) + [Latch(lat & OnMask(fourBit), rsPin)]
      ensures !ePin && lat == old(lat) && tris == old(tris) && rsPin == old(rsPin) && !rwPin
    {
      ePin := true;
      ePin := false;
      strobes := strobes + [Latch(lat & OnMask(fourBit), rsPin)];
    }

    /** LCDWrite8 (DIRECT): the byte's bits on the data lines, one strobe. */
    method Write8(c: bv8, rs: bool)
      modifies this
      ensures strobes == old(strobes) + [Latch(c & OnMask(fourBit), rs)]
      ensures lat == (old(lat) & OffMask(fourBit)) | (c & OnMask(fourBit))
      ensures lat & OffMask(fourBit) == old(lat) & OffMask(fourBit)
      ensures tris == old(tris) && rsPin == rs && !rwPin && !ePin
    {
      MaskedUpdate(fourBit, lat, c);
      lat := (lat & OffMask(fourBit)) | (c & OnMask(fourBit));
      rsPin := rs;
      rwPin := false;
      PulseWrite();
    }

    /** LCDWriteByte (DIRECT): the whole byte in 8-bit mode; in 4-bit mode
        the upper nibble and then the lower one. The controller receives the
        write of `c`, and the port bits outside the data lines keep their
        values. */
    method WriteByte(c: bv8, rs: bool)
      modifies this
      ensures fourBit ==> strobes == old(strobes) + [Latch(c & 0xF0, rs), Latch((c << 4) & 0xF0, rs)]
      ensures !fourBit ==> strobes == old(strobes) + [Latch(c, rs)]
      ensures strobes == old(strobes) + ByteStrobes(fourBit, c, rs)
      ensures lat & OnMask(fourBit) == (if fourBit then (c << 4) & 0xF0 else c)
      ensures lat & OffMask(fourBit) == old(lat) & OffMask(fourBit)
      ensures tris == old(tris) && rsPin == rs && !rwPin && !ePin
    {
      Write8(c, rs);
      if fourBit {
        MaskedUpdate(fourBit, lat, c << 4);
        lat := (lat & OffMask(fourBit)) | ((c << 4) & OnMask(fourBit));
        PulseWrite();
        AppendAssoc(old(strobes), [Latch(c & 0xF0, rs)], [Latch((c << 4) & 0xF0, rs)]);
      }
    }

    /** LCDReadByte (DIRECT): the data lines turned to inputs, RW high and
        E pulsed (twice in 4-bit mode, upper nibble first), the byte put
        together from the data lines, and the data lines turned back to
        outputs. `answer` is the byte the controller presents and `other`
        the level of the port's other pins. The result is `answer` whatever
        the other pins hold, and only the data lines change direction. */
    method ReadByte(rs: bool, answer: bv8, other: bv8) returns (b: bv8)
      modifies this
      ensures b == answer
      ensures strobes == old(strobes) + (if fourBit then [Fetch(rs), Fetch(rs)] else [Fetch(rs)])
      ensures Transfers(fourBit, strobes[|old(strobes)|..]) == [Read(rs)]
      ensures tris == old(tris) & OffMask(fourBit)
      ensures lat == old(lat) && rsPin == rs && rwPin && !ePin
    {
      ghost var s0 := strobes;
      tris := tris | OnMask(fourBit);
      rsPin := rs;
      rwPin := true;
      ePin := true;
      b := PortPins(fourBit, answer, other) & OnMask(fourBit);
      ePin := false;
      strobes := strobes + [Fetch(rs)];
      if fourBit {
        ePin := true;
        b := b | ((PortPins(fourBit, answer << 4, other) >> 4) & OffMask(fourBit));
        ePin := false;
        strobes := strobes + [Fetch(rs)];
        assert strobes[|s0|..] == [Fetch(rs), Fetch(rs)];
        assert [Fetch(rs), Fetch(rs)][2..] == [];
      } else {
        assert strobes[|s0|..] == [Fetch(rs)];
        assert [Fetch(rs)][1..] == [];
      }
      tris := tris & OffMask(fourBit);
    }
  }
}
