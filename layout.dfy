/**
 * Address arithmetic of the driver: where each (row, column) of the display
 * lives in DDRAM, the instruction bytes that select an address, the reverse
 * mapping from AC to (row, column), the display-control byte and the fields
 * of the status byte.
 */
module Layout {
  import opened Hd44780

  datatype Option<T> = None | Some(value: T)

  /** LCD_ROWS and LCD_CHARS, fixed when the driver is built. */
  datatype Geometry = Geometry(rows: nat, chars: nat)

  /** The geometries this model covers: one to four rows, at most 40
      columns on a one- or two-row display and at most 20 on a three- or
      four-row one (the sizes one HD44780 drives). */
  predicate Supported(g: Geometry)
  {
    1 <= g.rows <= 4 && 1 <= g.chars && g.chars <= (if g.rows <= 2 then 40 else 20)
  }

  /** calculateBase: the DDRAM address of column 0 of `line`, which is the
      usual 0x00, 0x40, 0x14, 0x54 layout of four-line modules. */
  function CalculateBase(line: nat): (base: nat)
    requires line < 4
    ensures base == [0x00, 0x40, 0x14, 0x54][line]
  {
    if line % 2 == 0 then line * 10 else 54 + line * 10
  }

  /** The "set DDRAM address" instruction for `addr` (0x80 | addr). */
  function AddressCommand(addr: nat): (cmd: Byte)
    requires addr < DdramSize
    ensures forall c: Chip {:trigger Instruction(c, cmd)} :: Instruction(c, cmd) == c.(ac := addr, cg := false)
  {
    128 + addr
  }

  /** The "set CGRAM address" instruction that selects the first pattern
      row of glyph `slot`, 64 + slot * 8. */
  function GlyphCommand(slot: nat): (cmd: Byte)
    requires slot < 8
    ensures forall c: Chip {:trigger Instruction(c, cmd)} :: Instruction(c, cmd) == c.(ac := slot * 8, cg := true)
  {
    64 + slot * 8
  }

  /** The address of (row, col), when the geometry contains it. */
  function CellAddress(g: Geometry, row: nat, col: nat): (addr: nat)
    requires Supported(g) && row < g.rows && col < g.chars
    ensures addr + g.chars - col <= 124
  {
    CalculateBase(row) + col
  }

  /** The instruction LCDSetPos issues for (row, col), or None when the
      position lies outside the geometry and nothing is issued. */
  function SetPosCommand(g: Geometry, row: int, col: int): (cmd: Option<Byte>)
    requires Supported(g)
    ensures cmd.Some? <==> 0 <= row < g.rows && 0 <= col < g.chars
    ensures cmd.Some? ==> cmd.value == 128 + CalculateBase(row) + col
    ensures cmd.Some? ==> forall c: Chip {:trigger Instruction(c, cmd.value)} ::
              Instruction(c, cmd.value) == c.(ac := CalculateBase(row) + col, cg := false)
  {
    if row < 0 || col < 0 || row >= g.rows || col >= g.chars then None
    else Some(AddressCommand(CalculateBase(row) + col))
  }

  /** LCDGetPos's arithmetic: (row, col) from the value of AC. */
  function PosFromAC(g: Geometry, ac: nat): (int, int)
  {
    var row := ac / 64 + (if g.rows > 2 && ac % 64 >= 20 then 1 else 0);
    var col := if g.rows > 2 then ac % 64 % 20 else ac % 64;
    (row, col)
  }

  /** On one- and two-row displays, LCDGetPos inverts LCDSetPos. */
  lemma GetPosInvertsSetPos(g: Geometry, row: nat, col: nat)
    requires Supported(g) && g.rows <= 2 && row < g.rows && col < g.chars
    ensures PosFromAC(g, CellAddress(g, row, col)) == (row, col)
  {
    assert CalculateBase(row) == 64 * row;
  }

  /** On three- and four-row displays the column comes back, but the row
      formula maps rows 2 and 3 to rows 1 and 2. */
  lemma GetPosBeyondTwoRows(g: Geometry, row: nat, col: nat)
    requires Supported(g) && g.rows > 2 && row < g.rows && col < g.chars
    ensures PosFromAC(g, CellAddress(g, row, col)) == (if row < 2 then row else row - 1, col)
  {
    var a := CellAddress(g, row, col);
    if row == 0 {
      assert a / 64 == 0 && a % 64 == col;
    } else if row == 1 {
      assert a / 64 == 1 && a % 64 == col;
    } else if row == 2 {
      assert a / 64 == 0 && a % 64 == 20 + col;
    } else {
      assert a / 64 == 1 && a % 64 == 20 + col;
    }
  }

  /** The row formula as evidently intended for the 0x00/0x40/0x14/0x54
      layout: the second 20 addresses of each 64-byte bank belong to the
      row two below. */
  function IntendedPosFromAC(g: Geometry, ac: nat): (int, int)
  {
    var row := ac / 64 + (if g.rows > 2 && ac % 64 >= 20 then 2 else 0);
    var col := if g.rows > 2 then ac % 64 % 20 else ac % 64;
    (row, col)
  }

  /** The intended formula inverts LCDSetPos on every supported geometry. */
  lemma IntendedGetPosInvertsSetPos(g: Geometry, row: nat, col: nat)
    requires Supported(g) && row < g.rows && col < g.chars
    ensures IntendedPosFromAC(g, CellAddress(g, row, col)) == (row, col)
  {
    var a := CellAddress(g, row, col);
    if row == 0 {
      assert a / 64 == 0 && a % 64 == col;
    } else if row == 1 {
      assert a / 64 == 1 && a % 64 == col;
    } else if row == 2 {
      assert a / 64 == 0 && a % 64 == 20 + col;
    } else {
      assert a / 64 == 1 && a % 64 == 20 + col;
    }
  }

  /** An input on which LCDGetPos, as written, does not invert LCDSetPos:
      on a 4x20 display the first cell of row 2 is reported as row 1. */
  lemma GetPosMisplacesRowTwo()
    ensures var g := Geometry(4, 20);
            Supported(g) && CellAddress(g, 2, 0) == 20 && PosFromAC(g, 20) == (1, 0)
  {
  }

  /** The AC field of a status byte, as LCDGetAC masks it. */
  function AcOfStatus(status: Byte): (ac: nat)
    ensures ac < 128
  {
    status % 128
  }

  /** The busy flag (bit 7) of a status byte, as LCDBusy tests it. */
  function BusyOfStatus(status: Byte): bool
  {
    status >= 128
  }

  /** LCDGetAC and LCDBusy recover the two fields the controller reports. */
  lemma StatusFields(c: Chip)
    ensures AcOfStatus(Answer(c, false)) == c.ac
    ensures BusyOfStatus(Answer(c, false)) == c.busy
  {
  }

  /** LCDDisplay's instruction: display control (0x08) with bit 2, 1, 0
      set exactly when display, cursor, blink are non-zero. */
  function DisplayControl(display: Byte, cursor: Byte, blink: Byte): (cmd: Byte)
    ensures 8 <= cmd <= 15
    ensures Bit(cmd, 2) == (display != 0)
    ensures Bit(cmd, 1) == (cursor != 0)
    ensures Bit(cmd, 0) == (blink != 0)
    ensures forall c: Chip {:trigger Instruction(c, cmd)} :: Instruction(c, cmd) == c
  {
    var command := 0x08;
    var command := if display != 0 then command + 0x04 else command;
    var command := if cursor != 0 then command + 0x02 else command;
    if blink != 0 then command + 0x01 else command
  }

  /** Bit `k` of `b`. */
  function Bit(b: Byte, k: nat): bool
    requires k < 8
  {
    b / [1, 2, 4, 8, 16, 32, 64, 128][k] % 2 == 1
  }

  /** Whether DDRAM address `a` shows a cell of `row`. */
  predicate InRow(g: Geometry, a: nat, row: nat)
    requires Supported(g) && row < g.rows
  {
    CalculateBase(row) <= a < CalculateBase(row) + g.chars
  }

  /** No DDRAM address belongs to two rows. */
  lemma RowsDisjoint(g: Geometry, a: nat, r1: nat, r2: nat)
    requires Supported(g) && r1 < g.rows && r2 < g.rows
    requires InRow(g, a, r1) && InRow(g, a, r2)
    ensures r1 == r2
  {
  }

  /** The first row at or after `from` that address `a` belongs to, or -1. */
  function FindRow(g: Geometry, a: nat, from: nat): (r: int)
    requires Supported(g)
    ensures r == -1 || (from <= r < g.rows && InRow(g, a, r))
    ensures r == -1 ==> forall row :: from <= row < g.rows ==> !InRow(g, a, row)
    decreases g.rows - from
  {
    if from >= g.rows then -1
    else if InRow(g, a, from) then from
    else FindRow(g, a, from + 1)
  }

  /** The row address `a` belongs to, or -1 when no cell shows it. */
  function RowOf(g: Geometry, a: nat): (r: int)
    requires Supported(g)
    ensures r == -1 || (0 <= r < g.rows && InRow(g, a, r))
    ensures forall row :: 0 <= row < g.rows && InRow(g, a, row) ==> r == row
  {
    var r := FindRow(g, a, 0);
    assert forall row :: 0 <= row < g.rows && InRow(g, a, row) ==> r == row by {
      forall row | 0 <= row < g.rows && InRow(g, a, row) ensures r == row {
        RowsDisjoint(g, a, r, row);
      }
    }
    r
  }

  /** The cells of `row` in the DDRAM image `d`, column 0 first. */
  function Row(g: Geometry, d: seq<Byte>, row: nat): (s: seq<Byte>)
    requires Supported(g) && |d| == DdramSize && row < g.rows
    ensures |s| == g.chars && forall k :: 0 <= k < g.chars ==> s[k] == d[CalculateBase(row) + k]
  {
    d[CalculateBase(row)..CalculateBase(row) + g.chars]
  }

  /** Every row of the DDRAM image `d`, top row first. */
  function Rows(g: Geometry, d: seq<Byte>): (rs: seq<seq<Byte>>)
    requires Supported(g) && |d| == DdramSize
    ensures |rs| == g.rows && forall r :: 0 <= r < g.rows ==> rs[r] == Row(g, d, r)
  {
    seq(g.rows, r requires 0 <= r < g.rows => Row(g, d, r))
  }

  /** A screenful of text: one line of exactly `g.chars` cells per row. */
  predicate Screen(g: Geometry, rs: seq<seq<Byte>>)
  {
    |rs| == g.rows && forall r :: 0 <= r < |rs| ==> |rs[r]| == g.chars
  }

  /** The DDRAM image `d` with every row replaced by the line of `rs`;
      addresses that no cell shows keep their value. */
  function Paint(g: Geometry, d: seq<Byte>, rs: seq<seq<Byte>>): (p: seq<Byte>)
    requires Supported(g) && |d| == DdramSize && Screen(g, rs)
    ensures |p| == DdramSize
  {
    seq(DdramSize, a requires 0 <= a < DdramSize =>
      var r := RowOf(g, a);
      if r >= 0 then rs[r][a - CalculateBase(r)] else d[a])
  }

  /** Reading a row of a painted image gives the line painted there. */
  lemma PaintRow(g: Geometry, d: seq<Byte>, rs: seq<seq<Byte>>, row: nat)
    requires Supported(g) && |d| == DdramSize && Screen(g, rs) && row < g.rows
    ensures Row(g, Paint(g, d, rs), row) == rs[row]
  {
    var p := Paint(g, d, rs);
    forall k | 0 <= k < g.chars ensures Row(g, p, row)[k] == rs[row][k] {
      assert InRow(g, CalculateBase(row) + k, row);
      assert RowOf(g, CalculateBase(row) + k) == row;
    }
  }

  /** Writing a line over a row of a painted image paints that line there. */
  lemma PaintOverwrite(g: Geometry, d: seq<Byte>, rs: seq<seq<Byte>>, row: nat, s: seq<Byte>)
    requires Supported(g) && |d| == DdramSize && Screen(g, rs) && row < g.rows && |s| == g.chars
    ensures Overwrite(Paint(g, d, rs), CalculateBase(row), s) == Paint(g, d, rs[row := s])
  {
    var lhs := Overwrite(Paint(g, d, rs), CalculateBase(row), s);
    var rhs := Paint(g, d, rs[row := s]);
    forall a | 0 <= a < DdramSize ensures lhs[a] == rhs[a] {
      if InRow(g, a, row) {
        assert RowOf(g, a) == row;
      }
    }
  }

  /** Painting an image's own rows back leaves it as it was. */
  lemma PaintOwnRows(g: Geometry, d: seq<Byte>)
    requires Supported(g) && |d| == DdramSize
    ensures Paint(g, d, Rows(g, d)) == d
  {
    var p := Paint(g, d, Rows(g, d));
    forall a | 0 <= a < DdramSize ensures p[a] == d[a] {
      var r := RowOf(g, a);
      if r >= 0 {
        assert Rows(g, d)[r][a - CalculateBase(r)] == d[a];
      }
    }
  }
}
