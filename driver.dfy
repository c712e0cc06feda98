/**
 * The transaction layer of LCD.c over an abstract transport: `Lcd` keeps
 * the build-time configuration, the controller behind the transport and
 * the trace of every transfer issued. Each operation states the transfers
 * it appends (a function of Protocol) and what they do to the controller.
 * Busy waiting and delays are not modelled: `wait()` is taken to return at
 * once.
 */
module Driver {
  import opened Hd44780
  import opened Layout
  import opened Protocol

  class Lcd {
    /** LCD_ROWS and LCD_CHARS. */
    const geo: Geometry
    /** LCD_DATA_WIDTH == 4. */
    const fourBit: bool
    /** The controller at the other end of the transport. */
    var chip: Chip
    /** Every transfer issued so far, oldest first. */
    var trace: seq<Op>

    predicate Valid()
    {
      Supported(geo)
    }

    constructor (geo: Geometry, fourBit: bool, chip: Chip)
      requires Supported(geo)
      ensures Valid()
      ensures this.geo == geo && this.fourBit == fourBit && this.chip == chip && trace == []
    {
      this.geo := geo;
      this.fourBit := fourBit;
      this.chip := chip;
      trace := [];
    }

    /** LCDWriteByte: one byte to the instruction (rs = false) or data register. */
    method WriteByte(b: Byte, rs: bool)
      modifies this
      ensures trace == old(trace) + [Write(b, rs)]
      ensures chip == Step(old(chip), Write(b, rs))
    {
      trace := trace + [Write(b, rs)];
      chip := Step(chip, Write(b, rs));
    }

    /** LCDWrite8: the upper four lines only (4-bit power-on sequence). */
    method Write8(b: Byte, rs: bool)
      modifies this
      ensures trace == old(trace) + [Op.Write8(b, rs)]
      ensures chip == old(chip)
    {
      trace := trace + [Op.Write8(b, rs)];
    }

    /** LCDReadByte: the controller answers from its current state. */
    method ReadByte(rs: bool) returns (b: Byte)
      modifies this
      ensures b == Answer(old(chip), rs)
      ensures trace == old(trace) + [Read(rs)]
      ensures chip == Step(old(chip), Read(rs))
    {
      b := Answer(chip, rs);
      trace := trace + [Read(rs)];
      chip := Step(chip, Read(rs));
    }

    /** LCDCommand (and LCDInitCommand): an instruction, rs = 0. */
    method Command(command: Byte)
      modifies this
      ensures trace == old(trace) + [Write(command, false)]
      ensures chip == Instruction(old(chip), command)
    {
      WriteByte(command, false);
    }

    /** LCDWriteData: a data byte, rs = 1. */
    method WriteData(c: Byte)
      modifies this
      ensures trace == old(trace) + [Write(c, true)]
      ensures chip == StoreData(old(chip), c)
    {
      WriteByte(c, true);
    }

    /** LCDReadData: the byte at AC, which then moves on. */
    method ReadData() returns (c: Byte)
      modifies this
      ensures c == Answer(old(chip), true)
      ensures trace == old(trace) + [Read(true)]
      ensures chip == Advance(old(chip))
    {
      c := ReadByte(true);
    }

    /** LCDGetAC: the address counter, from the status byte masked to 7 bits. */
    method GetAC() returns (ac: nat)
      modifies this
      ensures ac == old(chip).ac && ac < 128
      ensures trace == old(trace) + [Read(false)]
      ensures chip == old(chip)
    {
      var b := ReadByte(false);
      StatusFields(chip);
      ac := AcOfStatus(b);
    }

    /** LCDBusy: bit 7 of the status byte. */
    method Busy() returns (busy: bool)
      modifies this
      ensures busy == old(chip).busy
      ensures trace == old(trace) + [Read(false)]
      ensures chip == old(chip)
    {
      var b := ReadByte(false);
      StatusFields(chip);
      busy := BusyOfStatus(b);
    }

    /** LCDInit: the power-on instruction sequence, which blanks the screen
        and homes AC. */
    method Init()
      modifies this
      ensures trace == old(trace) + InitOps(fourBit)
      ensures chip == old(chip).(ddram := Spaces(DdramSize), ac := 0, cg := false)
    {
      var functionSet := FunctionSet8;
      if fourBit {
        Write8(functionSet, false);
        Write8(functionSet, false);
        functionSet := FunctionSet4;
        Write8(functionSet, false);
      }
      Command(functionSet);
      Command(DisplayOn);
      Command(ClearDisplay);
      Command(EntryIncrement);
    }

    /** LCDClear: the clear-display instruction. */
    method Clear()
      modifies this
      ensures trace == old(trace) + [Write(ClearDisplay, false)]
      ensures chip == old(chip).(ddram := Spaces(DdramSize), ac := 0, cg := false)
    {
      Command(ClearDisplay);
    }

    /** LCDDisplay: the display-control instruction for the three flags,
        which changes nothing the controller model keeps. */
    method Display(enableDisplay: Byte, enableCursor: Byte, blink: Byte)
      modifies this
      ensures trace == old(trace) + [Write(DisplayControl(enableDisplay, enableCursor, blink), false)]
      ensures chip == old(chip)
    {
      Command(DisplayControl(enableDisplay, enableCursor, blink));
    }

    /** LCDPutChar: one data byte. */
    method PutChar(c: Byte)
      modifies this
      ensures trace == old(trace) + [Write(c, true)]
      ensures chip == StoreData(old(chip), c)
    {
      WriteData(c);
    }

    /** LCDGetChar: the byte at AC. */
    method GetChar() returns (c: Byte)
      modifies this
      ensures c == Answer(old(chip), true)
      ensures trace == old(trace) + [Read(true)]
      ensures chip == Advance(old(chip))
    {
      c := ReadData();
    }

    /** LCDPutStr: one data write per byte of the string's text. */
    method PutStr(s: seq<Byte>)
      modifies this
      ensures trace == old(trace) + DataOps(Text(s))
      ensures chip == Run(old(chip), DataOps(Text(s)))
    {
      var i := 0;
      while i < |s| && s[i] != Nul
        invariant 0 <= i <= |s| && Nul !in s[..i]
        invariant trace == old(trace) + DataOps(s[..i]) && chip == Run(old(chip), DataOps(s[..i]))
      {
        WriteData(s[i]);
        RunSnoc(old(chip), DataOps(s[..i]), Write(s[i], true));
        DataOpsPrefix(s, i);
        i := i + 1;
      }
      TextIsPrefix(s, i);
    }

    /** LCDSetPos: nothing when (row, col) is off the display; otherwise the
        set-DDRAM-address instruction 128 + calculateBase(row) + col. */
    method SetPos(row: int, col: int)
      requires Valid()
      modifies this
      ensures trace == old(trace) + SetPosOps(geo, row, col)
      ensures chip == Run(old(chip), SetPosOps(geo, row, col))
    {
      if row < 0 || col < 0 || row >= geo.rows || col >= geo.chars {
        return;
      }
      var pos := CalculateBase(row) + col;
      Command(128 + pos);
      RunOne(old(chip), Write(128 + pos, false));
    }

    /** LCDGetPos: (row, col) computed from AC. */
    method GetPos() returns (row: int, col: int)
      modifies this
      ensures (row, col) == PosFromAC(geo, old(chip).ac)
      ensures trace == old(trace) + [Read(false)]
      ensures chip == old(chip)
    {
      var ac := GetAC();
      row := ac / 64;
      if geo.rows > 2 && ac % 64 >= 20 {
        row := row + 1;
      }
      col := ac % 64;
      if geo.rows > 2 {
        col := col % 20;
      }
    }

    /** One byte of LCDWriteLine's loop: a line feed moves to column 0 of
        the next row, a carriage return to column 0 of this row, and any other
        byte is written as data. */
    method LineByte(s: seq<Byte>, i: nat, row: nat) returns (next: nat, ghost step: seq<Op>)
      requires Valid() && i < |s| && s[i] != Nul && row < geo.rows && !chip.cg
      modifies this
      ensures next < geo.rows
      ensures next == if s[i] == LineFeed then NextRow(geo, row) else row
      ensures step == if s[i] == LineFeed || s[i] == CarriageReturn then SetPosOps(geo, next, 0) else [Write(s[i], true)]
      ensures LineOps(geo, s[i..], row) == step + LineOps(geo, s[i + 1..], next)
      ensures trace == old(trace) + step && chip == Run(old(chip), step)
      ensures !chip.cg && chip.cgram == old(chip).cgram && chip.busy == old(chip).busy
    {
      assert s[i..][1..] == s[i + 1..];
      next := row;
      if s[i] == LineFeed {
        next := NextRow(geo, row);
      }
      if s[i] == CarriageReturn || s[i] == LineFeed {
        SetPos(next, 0);
        step := SetPosOps(geo, next, 0);
        SetPosEffect(geo, old(chip), next, 0);
      } else {
        WriteData(s[i]);
        step := [Write(s[i], true)];
        RunOne(old(chip), Write(s[i], true));
      }
    }

    /** The loop of LCDWriteLine, from column 0 of `line`: every byte of
        the string's text, a line feed or carriage return as a cursor move. */
    method WriteText(s: seq<Byte>, line: nat)
      requires Valid() && line < geo.rows && !chip.cg
      modifies this
      ensures trace == old(trace) + LineOps(geo, s, line)
      ensures chip == Run(old(chip), LineOps(geo, s, line))
      ensures !chip.cg && chip.cgram == old(chip).cgram && chip.busy == old(chip).busy
    {
      ghost var done: seq<Op> := [];
      var row: nat := line;
      var i := 0;
      while i < |s| && s[i] != Nul
        invariant 0 <= i <= |s| && row < geo.rows
        invariant trace == old(trace) + done && chip == Run(old(chip), done)
        invariant done + LineOps(geo, s[i..], row) == LineOps(geo, s, line)
        invariant !chip.cg && chip.cgram == old(chip).cgram && chip.busy == old(chip).busy
      {
        ghost var step;
        var next;
        next, step := LineByte(s, i, row);
        RunAppend(old(chip), done, step);
        AppendAssoc(done, step, LineOps(geo, s[i + 1..], next));
        AppendAssoc(old(trace), done, step);
        done, row, i := done + step, next, i + 1;
      }
      assert done == LineOps(geo, s, line) by {
        assert LineOps(geo, s[i..], row) == [];
      }
    }

    /** LCDWriteLine: from column 0 of `line`, the string's bytes, where a
        line feed moves to the next row (wrapping) and a carriage return to
        column 0 of the same row. */
    method WriteLine(s: seq<Byte>, line: nat)
      requires Valid()
      modifies this
      ensures trace == old(trace) + WriteLineOps(geo, s, line)
      ensures chip == Run(old(chip), WriteLineOps(geo, s, line))
      ensures line < geo.rows ==> !chip.cg && chip.cgram == old(chip).cgram && chip.busy == old(chip).busy
    {
      if line >= geo.rows {
        return;
      }
      SetPos(line, 0);
      SetPosEffect(geo, old(chip), line, 0);
      WriteText(s, line);
      RunAppend(old(chip), SetPosOps(geo, line, 0), LineOps(geo, s, line));
    }

    /** The loop of LCDClearLine: `n` spaces written from AC on. */
    method WriteSpaces(n: nat)
      requires !chip.cg && chip.ac + n < DdramSize
      modifies this
      ensures trace == old(trace) + DataOps(Spaces(n))
      ensures chip == old(chip).(ddram := Overwrite(old(chip).ddram, old(chip).ac, Spaces(n)), ac := old(chip).ac + n)
    {
      var c: nat := 0;
      while c < n
        invariant c <= n
        invariant trace == old(trace) + DataOps(Spaces(c))
        invariant chip == old(chip).(ddram := Overwrite(old(chip).ddram, old(chip).ac, Spaces(c)), ac := old(chip).ac + c)
      {
        WriteData(Space);
        assert Spaces(c + 1) == Spaces(c) + [Space];
        DataOpsAppend(Spaces(c), [Space]);
        AppendAssoc(old(trace), DataOps(Spaces(c)), [Write(Space, true)]);
        OverwriteSnoc(old(chip).ddram, old(chip).ac, Spaces(c), Space);
        c := c + 1;
      }
    }

    /** LCDClearLine: nothing when `line` is off the display; otherwise a
        space in every column of the row. */
    method ClearLine(line: nat)
      requires Valid()
      modifies this
      ensures trace == old(trace) + ClearLineOps(geo, line)
      ensures chip == Run(old(chip), ClearLineOps(geo, line))
      ensures line >= geo.rows ==> chip == old(chip)
      ensures line < geo.rows ==>
                chip == old(chip).(ddram := Overwrite(old(chip).ddram, CalculateBase(line), Spaces(geo.chars)),
                                   ac := CalculateBase(line) + geo.chars, cg := false)
    {
      if line >= geo.rows {
        return;
      }
      SetPos(line, 0);
      SetPosEffect(geo, old(chip), line, 0);
      assert CalculateBase(line) + geo.chars <= 124 by {
        assert CellAddress(geo, line, 0) == CalculateBase(line);
      }
      WriteSpaces(geo.chars);
      ClearLineEffect(geo, old(chip), line);
    }

    /** The loop of LCDReadLine: `n` bytes of DDRAM from AC on, into str[0 .. n). */
    method ReadCells(str: array<Byte>, n: nat)
      requires !chip.cg && chip.ac + n < DdramSize && n <= str.Length
      modifies this, str
      ensures trace == old(trace) + DataReads(n)
      ensures chip == old(chip).(ac := old(chip).ac + n)
      ensures str[..n] == old(chip).ddram[old(chip).ac..old(chip).ac + n]
      ensures str[n..] == old(str[n..])
    {
      ghost var d, a := chip.ddram, chip.ac;
      var i: nat := 0;
      while i < n
        invariant i <= n
        invariant trace == old(trace) + DataReads(i)
        invariant chip == old(chip).(ac := a + i)
        invariant forall k :: 0 <= k < i ==> str[k] == d[a + k]
        invariant forall k :: i <= k < str.Length ==> str[k] == old(str[k])
      {
        var c := ReadData();
        str[i] := c;
        assert DataReads(i + 1) == DataReads(i) + [Read(true)];
        AppendAssoc(old(trace), DataReads(i), [Read(true)]);
        i := i + 1;
      }
    }

    /** LCDReadLine: when `line` is on the display, the row's cells into
        str[0 .. chars) and a NUL at str[chars]; otherwise an empty string. */
    method ReadLine(str: array<Byte>, line: nat)
      requires Valid() && str.Length >= geo.chars + 1
      modifies this, str
      ensures trace == old(trace) + ReadLineOps(geo, line)
      ensures line >= geo.rows ==> chip == old(chip) && str[0] == Nul && str[1..] == old(str[1..])
      ensures line < geo.rows ==>
                && chip == old(chip).(ac := CalculateBase(line) + geo.chars, cg := false)
                && str[..geo.chars] == Row(geo, old(chip).ddram, line)
                && str[geo.chars] == Nul
                && str[geo.chars + 1..] == old(str[geo.chars + 1..])
    {
      if line >= geo.rows {
        str[0] := Nul;
        return;
      }
      SetPos(line, 0);
      SetPosEffect(geo, old(chip), line, 0);
      var base := CalculateBase(line);
      assert base + geo.chars <= 124 by {
        assert CellAddress(geo, line, 0) == base;
      }
      ReadCells(str, geo.chars);
      str[geo.chars] := Nul;
    }

    /** The loop of LCDLoadCustomChar: the pattern rows into CGRAM from AC on. */
    method WritePattern(rows: seq<Byte>)
      requires chip.cg && chip.ac + |rows| <= CgramSize
      modifies this
      ensures trace == old(trace) + DataOps(rows)
      ensures chip == old(chip).(cgram := Overwrite(old(chip).cgram, old(chip).ac, rows),
                                 ac := if old(chip).ac + |rows| == CgramSize then 0 else old(chip).ac + |rows|)
    {
      ghost var a := chip.ac;
      var i: nat := 0;
      while i < |rows|
        invariant i <= |rows|
        invariant trace == old(trace) + DataOps(rows[..i])
        invariant chip == old(chip).(cgram := Overwrite(old(chip).cgram, a, rows[..i]),
                                     ac := if a + i == CgramSize then 0 else a + i)
      {
        WriteData(rows[i]);
        DataOpsPrefix(rows, i);
        AppendAssoc(old(trace), DataOps(rows[..i]), [Write(rows[i], true)]);
        OverwriteSnoc(old(chip).cgram, a, rows[..i], rows[i]);
        i := i + 1;
      }
      assert rows[..i] == rows;
    }

    /** LCDLoadCustomChar: nothing for a slot of 8 or more; otherwise the
        eight pattern rows into the slot's CGRAM, then AC put back. */
    method LoadCustomChar(pixels: seq<Byte>, pattern: nat)
      requires pattern < 8 ==> |pixels| >= 8
      modifies this
      ensures trace == old(trace) + LoadCustomCharOps(old(chip), pixels, pattern)
      ensures pattern >= 8 ==> chip == old(chip)
      ensures pattern < 8 ==> chip == old(chip).(cgram := Overwrite(old(chip).cgram, pattern * 8, pixels[..8]), cg := false)
    {
      if pattern < 8 {
        var ac := GetAC();
        Command(64 + pattern * 8);
        WritePattern(pixels[..8]);
        StatusFields(old(chip));
        Command(128 + ac);
      }
    }

    /** One step of LCDScroll: row `src` read into `str`, then written back
        to row `dst`. When the row is clean this copies it exactly. */
    method CopyRow(str: array<Byte>, src: nat, dst: nat)
      requires Valid() && str.Length == geo.chars + 1 && src < geo.rows && dst < geo.rows
      modifies this, str
      ensures trace == old(trace) + CopyOps(geo, old(chip).ddram, src, dst)
      ensures chip == Run(old(chip), CopyOps(geo, old(chip).ddram, src, dst))
      ensures !chip.cg && chip.cgram == old(chip).cgram && chip.busy == old(chip).busy
      ensures Clean(Row(geo, old(chip).ddram, src)) ==>
                chip.ddram == Overwrite(old(chip).ddram, CalculateBase(dst), Row(geo, old(chip).ddram, src))
    {
      ghost var line := Row(geo, old(chip).ddram, src) + [Nul];
      ReadLine(str, src);
      ReadLineEffect(geo, old(chip), src);
      assert str[..] == line;
      WriteLine(str[..], dst);
      RunAppend(old(chip), ReadLineOps(geo, src), WriteLineOps(geo, line, dst));
      AppendAssoc(old(trace), ReadLineOps(geo, src), WriteLineOps(geo, line, dst));
      CopyKeeps(geo, old(chip), src, dst);
      RunKeepsBusy(old(chip), CopyOps(geo, old(chip).ddram, src, dst));
      if Clean(Row(geo, old(chip).ddram, src)) {
        CopyClean(geo, old(chip), src, dst);
      }
    }

    /** The upward loop of LCDScroll: rows 1 .. rows-1 each copied one row
        up through `str`, in ascending order. */
    method CopyRowsUp(str: array<Byte>) returns (ghost added: seq<Op>)
      requires Valid() && str.Length == geo.chars + 1
      modifies this, str
      ensures added == UpCopyOps(geo, old(chip), 1)
      ensures trace == old(trace) + added && chip == Run(old(chip), added)
    {
      ghost var c0, t0 := chip, trace;
      added := [];
      var i: nat := 1;
      while i < geo.rows
        invariant 1 <= i <= geo.rows
        invariant trace == t0 + added && chip == Run(c0, added)
        invariant added + UpCopyOps(geo, Run(c0, added), i) == UpCopyOps(geo, c0, 1)
      {
        ghost var step := CopyOps(geo, chip.ddram, i, i - 1);
        CopyRow(str, i, i - 1);
        UpCopyAdvance(geo, c0, added, i, step);
        AppendAssoc(t0, added, step);
        added := added + step;
        i := i + 1;
      }
    }

    /** The downward loop of LCDScroll: rows rows-2 .. 0 each copied one
        row down through `str`, in descending order. */
    method CopyRowsDown(str: array<Byte>) returns (ghost added: seq<Op>)
      requires Valid() && str.Length == geo.chars + 1
      modifies this, str
      ensures added == DownCopyOps(geo, old(chip), geo.rows - 2)
      ensures trace == old(trace) + added && chip == Run(old(chip), added)
    {
      ghost var c0, t0 := chip, trace;
      added := [];
      var i: int := geo.rows - 2;
      while i >= 0
        invariant -1 <= i <= geo.rows - 2
        invariant trace == t0 + added && chip == Run(c0, added)
        invariant added + DownCopyOps(geo, Run(c0, added), i) == DownCopyOps(geo, c0, geo.rows - 2)
      {
        ghost var step := CopyOps(geo, chip.ddram, i, i + 1);
        CopyRow(str, i, i + 1);
        DownCopyAdvance(geo, c0, added, i, step);
        AppendAssoc(t0, added, step);
        added := added + step;
        i := i - 1;
      }
    }

    /** The middle of LCDScroll: the rows copied one up (or down), then the
        row left behind cleared. */
    method ShiftRows(str: array<Byte>, up: bool) returns (ghost copied: seq<Op>)
      requires Valid() && str.Length == geo.chars + 1
      modifies this, str
      ensures copied == ScrollCopyOps(geo, old(chip), up)
      ensures trace == old(trace) + (copied + ClearLineOps(geo, ScrollClearedRow(geo, up)))
      ensures chip == Run(Run(old(chip), copied), ClearLineOps(geo, ScrollClearedRow(geo, up)))
    {
      if up {
        copied := CopyRowsUp(str);
      } else {
        copied := CopyRowsDown(str);
      }
      var row := ScrollClearedRow(geo, up);
      ClearLine(row);
      AppendAssoc(old(trace), copied, ClearLineOps(geo, row));
    }

    /** LCDScroll: AC read, every row moved one up (or down), the row left
        behind cleared and AC put back. Whatever the rows hold, AC ends
        where it was, addressing DDRAM, with CGRAM untouched; when the
        copied rows are clean the screen is the scrolled one and DDRAM
        outside the rows keeps its contents. */
    method Scroll(up: bool)
      requires Valid()
      modifies this
      ensures trace == old(trace) + ScrollOps(geo, old(chip), up)
      ensures chip == Run(old(chip), ScrollOps(geo, old(chip), up))
      ensures chip.ac == old(chip).ac && !chip.cg && chip.cgram == old(chip).cgram && chip.busy == old(chip).busy
      ensures CopiedRowsClean(geo, Rows(geo, old(chip).ddram), up) ==>
                chip.ddram == Paint(geo, old(chip).ddram, Scrolled(geo, Rows(geo, old(chip).ddram), up))
    {
      var str := new Byte[geo.chars + 1];
      var ac := GetAC();
      ghost var copied := ShiftRows(str, up);
      Command(AddressCommand(ac));
      ghost var head, body := [Read(false)], copied + ClearLineOps(geo, ScrollClearedRow(geo, up));
      AppendAssoc(old(trace), head, body);
      AppendAssoc(old(trace), head + body, [Write(AddressCommand(ac), false)]);
      StatusFields(old(chip));
      ScrollStages(geo, old(chip), up);
      ScrollKeeps(geo, old(chip), up);
      if CopiedRowsClean(geo, Rows(geo, old(chip).ddram), up) {
        ScrollScreen(geo, old(chip), up);
      }
    }
  }
}
