/**
 * The transfer sequences each driver operation issues, as functions of
 * their arguments (and, for the operations that read back, of the
 * controller state), together with their effect on the controller.
 */
module Protocol {
  import opened Hd44780
  import opened Layout

  const Nul: Byte := 0x00
  const LineFeed: Byte := 0x0A
  const CarriageReturn: Byte := 0x0D

  /** Function set: 8-bit bus, two lines, 5x8 font. */
  const FunctionSet8: Byte := 0x38
  /** Function set: 4-bit bus, two lines, 5x8 font. */
  const FunctionSet4: Byte := 0x28
  /** Display control: display on, cursor and blink off. */
  const DisplayOn: Byte := 0x0C
  /** Clear display. */
  const ClearDisplay: Byte := 0x01
  /** Entry mode: increment AC, no display shift. */
  const EntryIncrement: Byte := 0x06

  /** LCDInit: in 4-bit mode three half transfers switch the bus width;
      then function set, display on, clear and entry mode. */
  function InitOps(fourBit: bool): seq<Op>
  {
    (if fourBit then [Write8(FunctionSet8, false), Write8(FunctionSet8, false), Write8(FunctionSet4, false)] else [])
    + [Write(if fourBit then FunctionSet4 else FunctionSet8, false), Write(DisplayOn, false),
       Write(ClearDisplay, false), Write(EntryIncrement, false)]
  }

  /** After LCDInit the screen is blank and AC is at the top-left cell;
      CGRAM keeps its patterns. */
  lemma InitEffect(c: Chip, fourBit: bool)
    ensures Run(c, InitOps(fourBit)) == c.(ddram := Spaces(DdramSize), ac := 0, cg := false)
  {
    var w1, w2 := Write8(FunctionSet8, false), Write8(FunctionSet4, false);
    var prefix: seq<Op> := if fourBit then [w1, w1, w2] else [];
    assert Run(c, prefix) == c by {
      if fourBit {
        RunSnoc(c, [], w1);
        assert [] + [w1] == [w1];
        RunSnoc(c, [w1], w1);
        assert [w1] + [w1] == [w1, w1];
        RunSnoc(c, [w1, w1], w2);
        assert [w1, w1] + [w2] == prefix;
      }
    }
    var a := Write(if fourBit then FunctionSet4 else FunctionSet8, false);
    var b, d, e := Write(DisplayOn, false), Write(ClearDisplay, false), Write(EntryIncrement, false);
    RunSnoc(c, [], a);
    assert [] + [a] == [a];
    RunSnoc(c, [a], b);
    assert [a] + [b] == [a, b];
    RunSnoc(c, [a, b], d);
    assert [a, b] + [d] == [a, b, d];
    RunSnoc(c, [a, b, d], e);
    assert [a, b, d] + [e] == [a, b, d, e];
    assert InitOps(fourBit) == prefix + [a, b, d, e];
    RunAppend(c, prefix, [a, b, d, e]);
  }

  /** LCDSetPos: one instruction when (row, col) is on the display, none otherwise. */
  function SetPosOps(g: Geometry, row: int, col: int): (ops: seq<Op>)
    requires Supported(g)
  {
    match SetPosCommand(g, row, col)
    case None => []
    case Some(cmd) => [Write(cmd, false)]
  }

  /** LCDSetPos moves AC to the cell, in DDRAM. */
  lemma SetPosEffect(g: Geometry, c: Chip, row: nat, col: nat)
    requires Supported(g) && row < g.rows && col < g.chars
    ensures Run(c, SetPosOps(g, row, col)) == c.(ac := CalculateBase(row) + col, cg := false)
  {
    RunSnoc(c, [], Write(SetPosCommand(g, row, col).value, false));
  }

  /** The row after `line`, wrapping to the top. */
  function NextRow(g: Geometry, line: nat): (next: nat)
    requires line < g.rows
    ensures next == (line + 1) % g.rows
  {
    if line + 1 == g.rows then 0 else line + 1
  }

  /** The text of a C string: the bytes before the first NUL. */
  function Text(s: seq<Byte>): (t: seq<Byte>)
    ensures t <= s && Nul !in t
    ensures |t| == |s| || s[|t|] == Nul
  {
    if s == [] || s[0] == Nul then [] else [s[0]] + Text(s[1..])
  }

  /** The text of `s` is its longest NUL-free prefix: the prefix of length
      `i` is the text exactly when it holds no NUL and is followed by a NUL
      or by nothing. */
  lemma {:induction false} TextIsPrefix(s: seq<Byte>, i: nat)
    requires i <= |s| && Nul !in s[..i] && (i == |s| || s[i] == Nul)
    ensures Text(s) == s[..i]
    decreases i
  {
    if i > 0 {
      assert s[0] in s[..i];
      assert s[1..][..i - 1] == s[1..i];
      TextIsPrefix(s[1..], i - 1);
      assert s[..i] == [s[0]] + s[1..i];
    }
  }

  /** The transfers LCDWriteLine issues for the rest `s` of its string while
      on row `line`: a line feed moves to column 0 of the next row, a
      carriage return to column 0 of the same row; every other byte is
      written as data; a NUL ends the string. */
  function LineOps(g: Geometry, s: seq<Byte>, line: nat): seq<Op>
    requires Supported(g) && line < g.rows
    decreases |s|
  {
    if s == [] || s[0] == Nul then []
    else if s[0] == LineFeed then
      var next := NextRow(g, line);
      SetPosOps(g, next, 0) + LineOps(g, s[1..], next)
    else if s[0] == CarriageReturn then SetPosOps(g, line, 0) + LineOps(g, s[1..], line)
    else [Write(s[0], true)] + LineOps(g, s[1..], line)
  }

  /** LCDWriteLine: nothing when `line` is off the display, otherwise
      column 0 of `line` and then the string. */
  function WriteLineOps(g: Geometry, s: seq<Byte>, line: nat): seq<Op>
    requires Supported(g)
  {
    if line >= g.rows then [] else SetPosOps(g, line, 0) + LineOps(g, s, line)
  }

  /** The data bytes of a trace, in order. */
  function DataBytes(ops: seq<Op>): seq<Byte>
  {
    if ops == [] then []
    else (if ops[0].Write? && ops[0].rs then [ops[0].b] else []) + DataBytes(ops[1..])
  }

  lemma {:induction false} DataBytesAppend(a: seq<Op>, b: seq<Op>)
    ensures DataBytes(a + b) == DataBytes(a) + DataBytes(b)
    decreases |a|
  {
    if a == [] {
      assert a + b == b;
    } else {
      assert (a + b)[1..] == a[1..] + b;
      DataBytesAppend(a[1..], b);
    }
  }

  /** The bytes of a string that reach the display as characters: its
      text without line feeds and carriage returns. */
  function Printable(s: seq<Byte>): seq<Byte>
  {
    if s == [] then [] else (if s[0] in {LineFeed, CarriageReturn} then [] else [s[0]]) + Printable(s[1..])
  }

  /** LCDWriteLine writes exactly the printable bytes of its text, in order. */
  lemma {:induction false} LineOpsData(g: Geometry, s: seq<Byte>, line: nat)
    requires Supported(g) && line < g.rows
    ensures DataBytes(LineOps(g, s, line)) == Printable(Text(s))
    decreases |s|
  {
    if s == [] || s[0] == Nul {
    } else {
      assert Text(s)[1..] == Text(s[1..]);
      var next := if s[0] == LineFeed then NextRow(g, line) else line;
      var head := if s[0] == LineFeed then SetPosOps(g, next, 0)
                  else if s[0] == CarriageReturn then SetPosOps(g, line, 0)
                  else [Write(s[0], true)];
      assert LineOps(g, s, line) == head + LineOps(g, s[1..], next);
      DataBytesAppend(head, LineOps(g, s[1..], next));
      assert DataBytes(head) == (if s[0] in {LineFeed, CarriageReturn} then [] else [s[0]]) by {
        assert head[1..] == [];
      }
      LineOpsData(g, s[1..], next);
    }
  }

  /** The instruction that moves to column 0 of `row`. */
  function HomeCommand(g: Geometry, row: nat): Byte
    requires Supported(g) && row < g.rows
  {
    SetPosCommand(g, row, 0).value
  }

  /** Every instruction LCDWriteLine issues moves to column 0 of a row of
      the display; everything else it issues is a data write. */
  lemma {:induction false} LineOpsInstructions(g: Geometry, s: seq<Byte>, line: nat)
    requires Supported(g) && line < g.rows
    ensures forall op <- LineOps(g, s, line) ::
              op.Write? && (op.rs || exists r :: 0 <= r < g.rows && op.b == HomeCommand(g, r))
    decreases |s|
  {
    if s == [] || s[0] == Nul {
    } else {
      var next := if s[0] == LineFeed then NextRow(g, line) else line;
      LineOpsInstructions(g, s[1..], next);
      if s[0] == LineFeed || s[0] == CarriageReturn {
        assert SetPosOps(g, next, 0) == [Write(HomeCommand(g, next), false)];
      }
    }
  }

  /** A line that LCDWriteLine copies verbatim: no NUL, line feed or carriage return. */
  predicate Clean(s: seq<Byte>)
  {
    forall k :: 0 <= k < |s| ==> s[k] != Nul && s[k] != LineFeed && s[k] != CarriageReturn
  }

  /** A clean prefix of a string is written as plain data. */
  lemma {:induction false} CleanLineOps(g: Geometry, s: seq<Byte>, t: seq<Byte>, line: nat)
    requires Supported(g) && line < g.rows && Clean(s)
    ensures LineOps(g, s + t, line) == DataOps(s) + LineOps(g, t, line)
    decreases |s|
  {
    if s == [] {
      assert s + t == t;
    } else {
      assert (s + t)[1..] == s[1..] + t;
      CleanLineOps(g, s[1..], t, line);
      assert DataOps(s) == [Write(s[0], true)] + DataOps(s[1..]);
    }
  }

  /** LCDWriteLine with a clean line of at most one row, followed by the
      end of the string, writes it over the row from column 0. */
  lemma WriteCleanLine(g: Geometry, c: Chip, s: seq<Byte>, t: seq<Byte>, line: nat)
    requires Supported(g) && line < g.rows && Clean(s) && |s| <= g.chars
    requires t == [] || t[0] == Nul
    ensures Run(c, WriteLineOps(g, s + t, line))
            == c.(ddram := Overwrite(c.ddram, CalculateBase(line), s), ac := CalculateBase(line) + |s|, cg := false)
  {
    CleanLineOps(g, s, t, line);
    assert LineOps(g, t, line) == [];
    assert WriteLineOps(g, s + t, line) == SetPosOps(g, line, 0) + DataOps(s);
    RunAppend(c, SetPosOps(g, line, 0), DataOps(s));
    SetPosEffect(g, c, line, 0);
    RunDataOps(c.(ac := CalculateBase(line), cg := false), s);
  }

  /** LCDClearLine: column 0 of `line`, then one space per column. */
  function ClearLineOps(g: Geometry, line: nat): seq<Op>
    requires Supported(g)
  {
    if line >= g.rows then [] else SetPosOps(g, line, 0) + DataOps(Spaces(g.chars))
  }

  /** LCDClearLine fills the row with spaces and nothing else. */
  lemma ClearLineEffect(g: Geometry, c: Chip, line: nat)
    requires Supported(g) && line < g.rows
    ensures Run(c, ClearLineOps(g, line))
            == c.(ddram := Overwrite(c.ddram, CalculateBase(line), Spaces(g.chars)),
                  ac := CalculateBase(line) + g.chars, cg := false)
  {
    RunAppend(c, SetPosOps(g, line, 0), DataOps(Spaces(g.chars)));
    SetPosEffect(g, c, line, 0);
    RunDataOps(c.(ac := CalculateBase(line), cg := false), Spaces(g.chars));
  }

  /** LCDReadLine: column 0 of `line`, then one data read per column. */
  function ReadLineOps(g: Geometry, line: nat): seq<Op>
    requires Supported(g)
  {
    if line >= g.rows then [] else SetPosOps(g, line, 0) + DataReads(g.chars)
  }

  /** LCDReadLine leaves DDRAM as it was, with AC just after the row. */
  lemma ReadLineEffect(g: Geometry, c: Chip, line: nat)
    requires Supported(g) && line < g.rows
    ensures Run(c, ReadLineOps(g, line)) == c.(ac := CalculateBase(line) + g.chars, cg := false)
  {
    RunAppend(c, SetPosOps(g, line, 0), DataReads(g.chars));
    SetPosEffect(g, c, line, 0);
    RunDataReads(c.(ac := CalculateBase(line), cg := false), g.chars);
  }

  /** LCDLoadCustomChar: nothing for a slot of 8 or more; otherwise read
      AC, select the slot's CGRAM rows, write the eight pattern rows and
      select the DDRAM address that was read. */
  function LoadCustomCharOps(c: Chip, pixels: seq<Byte>, slot: nat): seq<Op>
    requires slot < 8 ==> |pixels| >= 8
  {
    if slot >= 8 then []
    else [Read(false), Write(GlyphCommand(slot), false)] + DataOps(pixels[..8])
         + [Write(AddressCommand(AcOfStatus(Answer(c, false))), false)]
  }

  /** LCDLoadCustomChar stores the pattern in the slot and puts AC back
      where it was, addressing DDRAM. */
  lemma LoadCustomCharEffect(c: Chip, pixels: seq<Byte>, slot: nat)
    requires slot < 8 && |pixels| >= 8
    ensures Run(c, LoadCustomCharOps(c, pixels, slot))
            == c.(cgram := Overwrite(c.cgram, slot * 8, pixels[..8]), cg := false)
  {
    var head := [Read(false), Write(GlyphCommand(slot), false)];
    var restore := Write(AddressCommand(AcOfStatus(Answer(c, false))), false);
    RunSnoc(c, [], Read(false));
    RunSnoc(c, [Read(false)], Write(GlyphCommand(slot), false));
    var selected := c.(ac := slot * 8, cg := true);
    assert Run(c, head) == selected;
    RunAppend(c, head, DataOps(pixels[..8]));
    RunPatternOps(selected, pixels[..8]);
    RunSnoc(c, head + DataOps(pixels[..8]), restore);
    StatusFields(c);
  }

  /** The screen after scrolling: up moves every row one higher and blanks
      the bottom row; down moves every row one lower and blanks the top row. */
  function Scrolled(g: Geometry, rs: seq<seq<Byte>>, up: bool): (r: seq<seq<Byte>>)
    requires Supported(g) && Screen(g, rs)
    ensures Screen(g, r)
    ensures up ==> (forall k :: 0 <= k < g.rows - 1 ==> r[k] == rs[k + 1]) && r[g.rows - 1] == Spaces(g.chars)
    ensures !up ==> (forall k :: 1 <= k < g.rows ==> r[k] == rs[k - 1]) && r[0] == Spaces(g.chars)
  {
    if up then rs[1..] + [Spaces(g.chars)] else [Spaces(g.chars)] + rs[..g.rows - 1]
  }

  /** The rows LCDScroll reads are clean: rows 1 .. rows-1 going up, rows 0 .. rows-2 going down. */
  predicate CopiedRowsClean(g: Geometry, rs: seq<seq<Byte>>, up: bool)
    requires |rs| == g.rows
  {
    forall k :: 0 <= k < g.rows && (if up then 1 <= k else k < g.rows - 1) ==> Clean(rs[k])
  }

  /** The screen part-way through an upward scroll, before row `i` is
      copied: rows 0 .. i-2 already hold their successors. */
  function UpPartial(g: Geometry, rs: seq<seq<Byte>>, i: nat): (r: seq<seq<Byte>>)
    requires Screen(g, rs) && 1 <= i <= |rs|
    ensures Screen(g, r)
  {
    rs[1..i] + rs[i - 1..]
  }

  /** The screen part-way through a downward scroll, before row `i` is
      copied: rows i+2 .. rows-1 already hold their predecessors. */
  function DownPartial(g: Geometry, rs: seq<seq<Byte>>, i: int): (r: seq<seq<Byte>>)
    requires Screen(g, rs) && -1 <= i <= |rs| - 2
    ensures Screen(g, r)
  {
    rs[..i + 2] + rs[i + 1..|rs| - 1]
  }

  lemma UpShift<T>(rs: seq<T>, i: nat)
    requires 1 <= i < |rs|
    ensures (rs[1..i] + rs[i - 1..])[i] == rs[i]
    ensures (rs[1..i] + rs[i - 1..])[i - 1 := rs[i]] == rs[1..i + 1] + rs[i..]
  {
    var x := rs[1..i] + rs[i - 1..];
    var y := rs[1..i + 1] + rs[i..];
    assert |x| == |y| == |rs|;
    forall k | 0 <= k < |rs| ensures x[i - 1 := rs[i]][k] == y[k] {
      if k < i - 1 {
        assert x[k] == rs[k + 1] && y[k] == rs[k + 1];
      } else if k > i - 1 {
        assert x[k] == rs[i - 1..][k - (i - 1)] == rs[k];
        assert y[k] == rs[i..][k - i] == rs[k];
      }
    }
  }

  lemma DownShift<T>(rs: seq<T>, i: nat)
    requires i <= |rs| - 2
    ensures (rs[..i + 2] + rs[i + 1..|rs| - 1])[i] == rs[i]
    ensures (rs[..i + 2] + rs[i + 1..|rs| - 1])[i + 1 := rs[i]] == rs[..i + 1] + rs[i..|rs| - 1]
  {
    var x := rs[..i + 2] + rs[i + 1..|rs| - 1];
    var y := rs[..i + 1] + rs[i..|rs| - 1];
    assert |x| == |y| == |rs|;
    forall k | 0 <= k < |rs| ensures x[i + 1 := rs[i]][k] == y[k] {
      if k < i + 1 {
        assert x[k] == rs[k] && y[k] == rs[k];
      } else if k > i + 1 {
        assert x[k] == rs[i + 1..|rs| - 1][k - (i + 2)] == rs[k - 1];
        assert y[k] == rs[i..|rs| - 1][k - (i + 1)] == rs[k - 1];
      }
    }
  }

  /** Upward scroll of the screen in `d0`, about to copy row `i`: DDRAM is
      `d` and the transfers so far are `done`. */
  predicate UpScrolling(g: Geometry, d0: seq<Byte>, d: seq<Byte>, i: nat)
    requires Supported(g) && |d0| == DdramSize && 1 <= i <= g.rows
  {
    d == Paint(g, d0, UpPartial(g, Rows(g, d0), i))
  }

  /** Downward scroll of the screen in `d0`, about to copy row `i`. */
  predicate DownScrolling(g: Geometry, d0: seq<Byte>, d: seq<Byte>, i: int)
    requires Supported(g) && |d0| == DdramSize && -1 <= i <= g.rows - 2
  {
    d == Paint(g, d0, DownPartial(g, Rows(g, d0), i))
  }

  lemma UpScrollStart(g: Geometry, d0: seq<Byte>)
    requires Supported(g) && |d0| == DdramSize
    ensures UpScrolling(g, d0, d0, 1)
  {
    PaintOwnRows(g, d0);
    assert UpPartial(g, Rows(g, d0), 1) == Rows(g, d0);
  }

  lemma DownScrollStart(g: Geometry, d0: seq<Byte>)
    requires Supported(g) && |d0| == DdramSize
    ensures DownScrolling(g, d0, d0, g.rows - 2)
  {
    PaintOwnRows(g, d0);
    assert DownPartial(g, Rows(g, d0), g.rows - 2) == Rows(g, d0);
  }

  /** Copying row i to row i-1 during an upward scroll reads the original
      row i; when that row is clean the copy is exact and the scroll moves
      on to row i+1. */
  lemma UpScrollStep(g: Geometry, d0: seq<Byte>, d: seq<Byte>, i: nat, d': seq<Byte>)
    requires Supported(g) && |d0| == DdramSize && 1 <= i < g.rows
    requires UpScrolling(g, d0, d, i) && Clean(Rows(g, d0)[i])
    requires Clean(Row(g, d, i)) ==> d' == Overwrite(d, CalculateBase(i - 1), Row(g, d, i))
    ensures UpScrolling(g, d0, d', i + 1)
  {
    UpPaintStep(g, d0, i);
  }

  /** Part-way through an upward scroll, row `i` still holds the original
      row `i`, and writing it to row i-1 gives the next partial screen. */
  lemma UpPaintStep(g: Geometry, d0: seq<Byte>, i: nat)
    requires Supported(g) && |d0| == DdramSize && 1 <= i < g.rows
    ensures Row(g, Paint(g, d0, UpPartial(g, Rows(g, d0), i)), i) == Rows(g, d0)[i]
    ensures Overwrite(Paint(g, d0, UpPartial(g, Rows(g, d0), i)), CalculateBase(i - 1), Rows(g, d0)[i])
            == Paint(g, d0, UpPartial(g, Rows(g, d0), i + 1))
  {
    var rs := Rows(g, d0);
    var x := UpPartial(g, rs, i);
    UpShift(rs, i);
    PaintRow(g, d0, x, i);
    PaintOverwrite(g, d0, x, i - 1, rs[i]);
  }

  /** Copying row i to row i+1 during a downward scroll. */
  lemma DownScrollStep(g: Geometry, d0: seq<Byte>, d: seq<Byte>, i: nat, d': seq<Byte>)
    requires Supported(g) && |d0| == DdramSize && i <= g.rows - 2
    requires DownScrolling(g, d0, d, i) && Clean(Rows(g, d0)[i])
    requires Clean(Row(g, d, i)) ==> d' == Overwrite(d, CalculateBase(i + 1), Row(g, d, i))
    ensures DownScrolling(g, d0, d', i - 1)
  {
    DownPaintStep(g, d0, i);
  }

  /** Part-way through a downward scroll, row `i` still holds the original
      row `i`, and writing it to row i+1 gives the next partial screen. */
  lemma DownPaintStep(g: Geometry, d0: seq<Byte>, i: nat)
    requires Supported(g) && |d0| == DdramSize && i <= g.rows - 2
    ensures Row(g, Paint(g, d0, DownPartial(g, Rows(g, d0), i)), i) == Rows(g, d0)[i]
    ensures Overwrite(Paint(g, d0, DownPartial(g, Rows(g, d0), i)), CalculateBase(i + 1), Rows(g, d0)[i])
            == Paint(g, d0, DownPartial(g, Rows(g, d0), i - 1))
  {
    var rs := Rows(g, d0);
    var x := DownPartial(g, rs, i);
    DownShift(rs, i);
    PaintRow(g, d0, x, i);
    PaintOverwrite(g, d0, x, i + 1, rs[i]);
    var y := DownPartial(g, rs, i - 1);
    assert y == rs[..i + 1] + rs[i..|rs| - 1];
    assert x[i + 1 := rs[i]] == y;
  }

  /** Clearing the bottom row after the last upward copy finishes the scroll. */
  lemma UpScrollEnd(g: Geometry, d0: seq<Byte>, d: seq<Byte>)
    requires Supported(g) && |d0| == DdramSize && UpScrolling(g, d0, d, g.rows)
    ensures Overwrite(d, CalculateBase(g.rows - 1), Spaces(g.chars)) == Paint(g, d0, Scrolled(g, Rows(g, d0), true))
  {
    var rs := Rows(g, d0);
    var x := UpPartial(g, rs, g.rows);
    PaintOverwrite(g, d0, x, g.rows - 1, Spaces(g.chars));
    assert x[g.rows - 1 := Spaces(g.chars)] == Scrolled(g, rs, true);
  }

  /** Clearing the top row after the last downward copy finishes the scroll. */
  lemma DownScrollEnd(g: Geometry, d0: seq<Byte>, d: seq<Byte>)
    requires Supported(g) && |d0| == DdramSize && DownScrolling(g, d0, d, -1)
    ensures Overwrite(d, CalculateBase(0), Spaces(g.chars)) == Paint(g, d0, Scrolled(g, Rows(g, d0), false))
  {
    var rs := Rows(g, d0);
    var x := DownPartial(g, rs, -1);
    PaintOverwrite(g, d0, x, 0, Spaces(g.chars));
    assert x[0 := Spaces(g.chars)] == Scrolled(g, rs, false);
  }

  /** One copy of LCDScroll: LCDReadLine of row `src` into the buffer, then
      LCDWriteLine of the buffer (the row's cells and a NUL) to row `dst`. */
  function CopyOps(g: Geometry, d: seq<Byte>, src: nat, dst: nat): seq<Op>
    requires Supported(g) && |d| == DdramSize && src < g.rows
  {
    ReadLineOps(g, src) + WriteLineOps(g, Row(g, d, src) + [Nul], dst)
  }

  /** The upward loop of LCDScroll from row `i` on, starting from `c`: row
      i is copied to row i-1 as DDRAM then holds it, then row i+1 from the
      state that copy leaves, and so on up to the last row. */
  function UpCopyOps(g: Geometry, c: Chip, i: nat): seq<Op>
    requires Supported(g) && 1 <= i
    decreases g.rows - i
  {
    if i >= g.rows then []
    else
      var step := CopyOps(g, c.ddram, i, i - 1);
      step + UpCopyOps(g, Run(c, step), i + 1)
  }

  /** The downward loop of LCDScroll from row `i` down to row 0: row i is
      copied to row i+1, then row i-1 from the state that copy leaves. */
  function DownCopyOps(g: Geometry, c: Chip, i: int): seq<Op>
    requires Supported(g) && i <= g.rows - 2
    decreases i + 1
  {
    if i < 0 then []
    else
      var step := CopyOps(g, c.ddram, i, i + 1);
      step + DownCopyOps(g, Run(c, step), i - 1)
  }

  /** One more upward copy extends a prefix of the loop's transfers. */
  lemma UpCopyAdvance(g: Geometry, c0: Chip, done: seq<Op>, i: nat, step: seq<Op>)
    requires Supported(g) && 1 <= i < g.rows
    requires done + UpCopyOps(g, Run(c0, done), i) == UpCopyOps(g, c0, 1)
    requires step == CopyOps(g, Run(c0, done).ddram, i, i - 1)
    ensures Run(c0, done + step) == Run(Run(c0, done), step)
    ensures (done + step) + UpCopyOps(g, Run(c0, done + step), i + 1) == UpCopyOps(g, c0, 1)
  {
    RunAppend(c0, done, step);
    AppendAssoc(done, step, UpCopyOps(g, Run(c0, done + step), i + 1));
  }

  /** One more downward copy extends a prefix of the loop's transfers. */
  lemma DownCopyAdvance(g: Geometry, c0: Chip, done: seq<Op>, i: nat, step: seq<Op>)
    requires Supported(g) && i <= g.rows - 2
    requires done + DownCopyOps(g, Run(c0, done), i) == DownCopyOps(g, c0, g.rows - 2)
    requires step == CopyOps(g, Run(c0, done).ddram, i, i + 1)
    ensures Run(c0, done + step) == Run(Run(c0, done), step)
    ensures (done + step) + DownCopyOps(g, Run(c0, done + step), i - 1) == DownCopyOps(g, c0, g.rows - 2)
  {
    RunAppend(c0, done, step);
    AppendAssoc(done, step, DownCopyOps(g, Run(c0, done + step), i - 1));
  }

  /** LCDWriteLine's loop, started in DDRAM, stays in DDRAM and leaves
      CGRAM alone, whatever the string holds. */
  lemma {:induction false} LineOpsKeep(g: Geometry, c: Chip, s: seq<Byte>, line: nat)
    requires Supported(g) && line < g.rows && !c.cg
    ensures !Run(c, LineOps(g, s, line)).cg
    ensures Run(c, LineOps(g, s, line)).cgram == c.cgram
    decreases |s|
  {
    if s == [] || s[0] == Nul {
    } else {
      var next := if s[0] == LineFeed then NextRow(g, line) else line;
      var head := if s[0] == LineFeed || s[0] == CarriageReturn then SetPosOps(g, next, 0) else [Write(s[0], true)];
      assert LineOps(g, s, line) == head + LineOps(g, s[1..], next);
      RunAppend(c, head, LineOps(g, s[1..], next));
      if s[0] == LineFeed || s[0] == CarriageReturn {
        SetPosEffect(g, c, next, 0);
      } else {
        RunOne(c, Write(s[0], true));
      }
      LineOpsKeep(g, Run(c, head), s[1..], next);
    }
  }

  /** One row copy of LCDScroll ends in DDRAM with CGRAM as it was,
      whatever the source row holds. */
  lemma CopyKeeps(g: Geometry, c: Chip, src: nat, dst: nat)
    requires Supported(g) && src < g.rows && dst < g.rows
    ensures !Run(c, CopyOps(g, c.ddram, src, dst)).cg
    ensures Run(c, CopyOps(g, c.ddram, src, dst)).cgram == c.cgram
  {
    var line := Row(g, c.ddram, src) + [Nul];
    RunAppend(c, ReadLineOps(g, src), WriteLineOps(g, line, dst));
    ReadLineEffect(g, c, src);
    var c1 := Run(c, ReadLineOps(g, src));
    RunAppend(c1, SetPosOps(g, dst, 0), LineOps(g, line, dst));
    SetPosEffect(g, c1, dst, 0);
    LineOpsKeep(g, Run(c1, SetPosOps(g, dst, 0)), line, dst);
  }

  /** A clean source row lands verbatim on the destination row and nothing
      else in DDRAM changes. */
  lemma CopyClean(g: Geometry, c: Chip, src: nat, dst: nat)
    requires Supported(g) && src < g.rows && dst < g.rows && Clean(Row(g, c.ddram, src))
    ensures Run(c, CopyOps(g, c.ddram, src, dst)).ddram == Overwrite(c.ddram, CalculateBase(dst), Row(g, c.ddram, src))
  {
    var line := Row(g, c.ddram, src) + [Nul];
    RunAppend(c, ReadLineOps(g, src), WriteLineOps(g, line, dst));
    ReadLineEffect(g, c, src);
    WriteCleanLine(g, Run(c, ReadLineOps(g, src)), Row(g, c.ddram, src), [Nul], dst);
  }

  /** The upward copies from row `i` on keep CGRAM. */
  lemma {:induction false} UpCopyKeeps(g: Geometry, c: Chip, i: nat)
    requires Supported(g) && 1 <= i <= g.rows
    ensures Run(c, UpCopyOps(g, c, i)).cgram == c.cgram
    decreases g.rows - i
  {
    if i < g.rows {
      var step := CopyOps(g, c.ddram, i, i - 1);
      RunAppend(c, step, UpCopyOps(g, Run(c, step), i + 1));
      CopyKeeps(g, c, i, i - 1);
      UpCopyKeeps(g, Run(c, step), i + 1);
    }
  }

  /** When the rows still to be read are clean, the upward copies from row
      `i` on carry a partial upward scroll through to the last row. */
  lemma {:induction false} UpCopyScreen(g: Geometry, d0: seq<Byte>, c: Chip, i: nat)
    requires Supported(g) && |d0| == DdramSize && 1 <= i <= g.rows
    requires CopiedRowsClean(g, Rows(g, d0), true) && UpScrolling(g, d0, c.ddram, i)
    ensures UpScrolling(g, d0, Run(c, UpCopyOps(g, c, i)).ddram, g.rows)
    decreases g.rows - i
  {
    if i < g.rows {
      var step := CopyOps(g, c.ddram, i, i - 1);
      var c1 := Run(c, step);
      RunAppend(c, step, UpCopyOps(g, c1, i + 1));
      if Clean(Row(g, c.ddram, i)) {
        CopyClean(g, c, i, i - 1);
      }
      UpScrollStep(g, d0, c.ddram, i, c1.ddram);
      UpCopyScreen(g, d0, c1, i + 1);
    }
  }

  /** The downward copies from row `i` down to row 0 keep CGRAM. */
  lemma {:induction false} DownCopyKeeps(g: Geometry, c: Chip, i: int)
    requires Supported(g) && -1 <= i <= g.rows - 2
    ensures Run(c, DownCopyOps(g, c, i)).cgram == c.cgram
    decreases i + 1
  {
    if i >= 0 {
      var step := CopyOps(g, c.ddram, i, i + 1);
      RunAppend(c, step, DownCopyOps(g, Run(c, step), i - 1));
      CopyKeeps(g, c, i, i + 1);
      DownCopyKeeps(g, Run(c, step), i - 1);
    }
  }

  /** When the rows still to be read are clean, the downward copies from
      row `i` down carry a partial downward scroll through to row 0. */
  lemma {:induction false} DownCopyScreen(g: Geometry, d0: seq<Byte>, c: Chip, i: int)
    requires Supported(g) && |d0| == DdramSize && -1 <= i <= g.rows - 2
    requires CopiedRowsClean(g, Rows(g, d0), false) && DownScrolling(g, d0, c.ddram, i)
    ensures DownScrolling(g, d0, Run(c, DownCopyOps(g, c, i)).ddram, -1)
    decreases i + 1
  {
    if i >= 0 {
      var step := CopyOps(g, c.ddram, i, i + 1);
      var c1 := Run(c, step);
      RunAppend(c, step, DownCopyOps(g, c1, i - 1));
      if Clean(Row(g, c.ddram, i)) {
        CopyClean(g, c, i, i + 1);
      }
      DownScrollStep(g, d0, c.ddram, i, c1.ddram);
      DownCopyScreen(g, d0, c1, i - 1);
    }
  }

  /** The copies LCDScroll makes in direction `up`. */
  function ScrollCopyOps(g: Geometry, c: Chip, up: bool): seq<Op>
    requires Supported(g)
  {
    if up then UpCopyOps(g, c, 1) else DownCopyOps(g, c, g.rows - 2)
  }

  /** The row LCDScroll clears after the copies. */
  function ScrollClearedRow(g: Geometry, up: bool): nat
    requires Supported(g)
  {
    if up then g.rows - 1 else 0
  }

  /** LCDScroll: read AC, copy the rows one up (or down), clear the row
      left behind and select the DDRAM address that was read. */
  function ScrollOps(g: Geometry, c: Chip, up: bool): seq<Op>
    requires Supported(g)
  {
    [Read(false)] + (ScrollCopyOps(g, c, up) + ClearLineOps(g, ScrollClearedRow(g, up)))
    + [Write(AddressCommand(AcOfStatus(Answer(c, false))), false)]
  }

  /** The state after LCDScroll's transfers, stage by stage: the status read
      changes nothing, then the copies, the cleared row and the address. */
  lemma ScrollStages(g: Geometry, c: Chip, up: bool)
    requires Supported(g)
    ensures Run(c, ScrollOps(g, c, up))
            == Instruction(Run(Run(c, ScrollCopyOps(g, c, up)), ClearLineOps(g, ScrollClearedRow(g, up))),
                           AddressCommand(c.ac))
  {
    var copies, clear := ScrollCopyOps(g, c, up), ClearLineOps(g, ScrollClearedRow(g, up));
    var head, tail := [Read(false)], Write(AddressCommand(AcOfStatus(Answer(c, false))), false);
    RunOne(c, Read(false));
    RunAppend(c, head, copies + clear);
    RunAppend(c, copies, clear);
    RunSnoc(c, head + (copies + clear), tail);
    StatusFields(c);
  }

  /** When the rows the upward copies read are clean, clearing the bottom
      row after them gives the screen scrolled up. */
  lemma UpScrollEffect(g: Geometry, c: Chip)
    requires Supported(g) && CopiedRowsClean(g, Rows(g, c.ddram), true)
    ensures Overwrite(Run(c, UpCopyOps(g, c, 1)).ddram, CalculateBase(g.rows - 1), Spaces(g.chars))
            == Paint(g, c.ddram, Scrolled(g, Rows(g, c.ddram), true))
  {
    UpScrollStart(g, c.ddram);
    UpCopyScreen(g, c.ddram, c, 1);
    UpScrollEnd(g, c.ddram, Run(c, UpCopyOps(g, c, 1)).ddram);
  }

  /** When the rows the downward copies read are clean, clearing the top
      row after them gives the screen scrolled down. */
  lemma DownScrollEffect(g: Geometry, c: Chip)
    requires Supported(g) && CopiedRowsClean(g, Rows(g, c.ddram), false)
    ensures Overwrite(Run(c, DownCopyOps(g, c, g.rows - 2)).ddram, CalculateBase(0), Spaces(g.chars))
            == Paint(g, c.ddram, Scrolled(g, Rows(g, c.ddram), false))
  {
    DownScrollStart(g, c.ddram);
    DownCopyScreen(g, c.ddram, c, g.rows - 2);
    DownScrollEnd(g, c.ddram, Run(c, DownCopyOps(g, c, g.rows - 2)).ddram);
  }

  /** The upward row copies keep CGRAM. */
  lemma UpCopiesKeep(g: Geometry, c: Chip)
    requires Supported(g)
    ensures Run(c, ScrollCopyOps(g, c, true)).cgram == c.cgram
  {
    UpCopyKeeps(g, c, 1);
  }

  /** The downward row copies keep CGRAM. */
  lemma DownCopiesKeep(g: Geometry, c: Chip)
    requires Supported(g)
    ensures Run(c, ScrollCopyOps(g, c, false)).cgram == c.cgram
  {
    DownCopyKeeps(g, c, g.rows - 2);
  }

  /** The row copies of either direction keep CGRAM. */
  lemma ScrollCopiesKeep(g: Geometry, c: Chip, up: bool)
    requires Supported(g)
    ensures Run(c, ScrollCopyOps(g, c, up)).cgram == c.cgram
  {
    if up {
      UpCopiesKeep(g, c);
    } else {
      DownCopiesKeep(g, c);
    }
  }

  /** The upward row copies and the cleared row give the scrolled screen. */
  lemma UpCopiesScreen(g: Geometry, c: Chip)
    requires Supported(g) && CopiedRowsClean(g, Rows(g, c.ddram), true)
    ensures Overwrite(Run(c, ScrollCopyOps(g, c, true)).ddram, CalculateBase(ScrollClearedRow(g, true)), Spaces(g.chars))
            == Paint(g, c.ddram, Scrolled(g, Rows(g, c.ddram), true))
  {
    UpScrollEffect(g, c);
  }

  /** The downward row copies and the cleared row give the scrolled screen. */
  lemma DownCopiesScreen(g: Geometry, c: Chip)
    requires Supported(g) && CopiedRowsClean(g, Rows(g, c.ddram), false)
    ensures Overwrite(Run(c, ScrollCopyOps(g, c, false)).ddram, CalculateBase(ScrollClearedRow(g, false)), Spaces(g.chars))
            == Paint(g, c.ddram, Scrolled(g, Rows(g, c.ddram), false))
  {
    DownScrollEffect(g, c);
  }

  /** The row copies of either direction, followed by clearing the row the
      copies vacate, give the scrolled screen when the copied rows are clean. */
  lemma ScrollCopiesScreen(g: Geometry, c: Chip, up: bool)
    requires Supported(g) && CopiedRowsClean(g, Rows(g, c.ddram), up)
    ensures Overwrite(Run(c, ScrollCopyOps(g, c, up)).ddram, CalculateBase(ScrollClearedRow(g, up)), Spaces(g.chars))
            == Paint(g, c.ddram, Scrolled(g, Rows(g, c.ddram), up))
  {
    if up {
      UpCopiesScreen(g, c);
    } else {
      DownCopiesScreen(g, c);
    }
  }

  /** LCDScroll puts AC back where it was, in DDRAM, and keeps CGRAM and
      the busy flag, whatever the rows hold. */
  lemma ScrollKeeps(g: Geometry, c: Chip, up: bool)
    requires Supported(g)
    ensures Run(c, ScrollOps(g, c, up)).ac == c.ac && !Run(c, ScrollOps(g, c, up)).cg
    ensures Run(c, ScrollOps(g, c, up)).cgram == c.cgram && Run(c, ScrollOps(g, c, up)).busy == c.busy
  {
    ScrollStages(g, c, up);
    ScrollCopiesKeep(g, c, up);
    ClearLineEffect(g, Run(c, ScrollCopyOps(g, c, up)), ScrollClearedRow(g, up));
    RunKeepsBusy(c, ScrollOps(g, c, up));
  }

  /** When the rows LCDScroll copies are clean, the screen after it is the
      scrolled one, and DDRAM addresses outside the rows keep their bytes. */
  lemma ScrollScreen(g: Geometry, c: Chip, up: bool)
    requires Supported(g) && CopiedRowsClean(g, Rows(g, c.ddram), up)
    ensures Run(c, ScrollOps(g, c, up)).ddram == Paint(g, c.ddram, Scrolled(g, Rows(g, c.ddram), up))
  {
    ScrollStages(g, c, up);
    ScrollCopiesScreen(g, c, up);
    ClearLineEffect(g, Run(c, ScrollCopyOps(g, c, up)), ScrollClearedRow(g, up));
  }

  /** An example trace: "AB\nCD" from row 0 of a 2x16 display. */
  lemma WriteLineExample()
    ensures var g := Geometry(2, 16);
            Supported(g) &&
            WriteLineOps(g, [0x41, 0x42, LineFeed, 0x43, 0x44], 0)
            == [Write(0x80, false), Write(0x41, true), Write(0x42, true),
                Write(0xC0, false), Write(0x43, true), Write(0x44, true)]
  {
    var g := Geometry(2, 16);
    assert SetPosOps(g, 0, 0) == [Write(0x80, false)];
    assert SetPosOps(g, 1, 0) == [Write(0xC0, false)];
    assert LineOps(g, [], 1) == [];
    assert LineOps(g, [0x44], 1) == [Write(0x44, true)];
    assert LineOps(g, [0x43, 0x44], 1) == [Write(0x43, true), Write(0x44, true)];
    assert LineOps(g, [LineFeed, 0x43, 0x44], 0) == [Write(0xC0, false), Write(0x43, true), Write(0x44, true)];
    assert LineOps(g, [0x42, LineFeed, 0x43, 0x44], 0)
           == [Write(0x42, true), Write(0xC0, false), Write(0x43, true), Write(0x44, true)];
  }
}
