# HD44780 character-LCD driver (LCD.c), modelled and verified in Dafny

This project models the transaction layer of `LCD.c`, a driver for
HD44780-family character LCDs on PIC microcontrollers, together with the
byte encoders of its SPI-expander (EXP), I2C-backpack and direct-GPIO
transports.

- `hd44780.dfy` (module `Hd44780`) models the controller at the far end of
  the bus. It holds a 128-byte DDRAM, a 64-byte CGRAM, the address counter
  AC (7 bits into DDRAM, 6 bits into CGRAM), which memory AC points into,
  and the busy flag. A transfer (`Op`) is a write to the instruction or data
  register, a half write (`Write8`, the 4-bit power-on sequence), or a read
  of the status or data register. `Run` applies a trace of transfers in
  order.
- `layout.dfy` (module `Layout`) holds the address arithmetic:
  - `calculateBase`;
  - the set-DDRAM-address, set-CGRAM-address and display-control
    instruction bytes;
  - the reverse mapping `LCDGetPos` applies to AC;
  - the status-byte fields;
  - the view of DDRAM as a screen of rows (`Row`, `Rows`, `Paint`).
- `protocol.dfy` (module `Protocol`) gives, as functions of their
  arguments, the traces of the operations that issue more than one
  transfer: `LCDInit`, `LCDSetPos`, `LCDWriteLine`, `LCDClearLine`,
  `LCDReadLine`, `LCDLoadCustomChar` and `LCDScroll`, the last down to
  each row copy in loop order. Lemmas state what those traces do to the
  controller, e.g. the text that `LCDWriteLine` puts on screen. For
  `LCDScroll` they state, for any DDRAM contents, where AC, CGRAM and the
  busy flag end. They state the resulting screen only when the copied
  rows are clean (no NUL, line feed or carriage return).
- `driver.dfy` (module `Driver`) is the driver itself. Class `Lcd` holds
  the build-time geometry (`LCD_ROWS`, `LCD_CHARS`), the data width, the
  controller and the trace so far. Each method's contract gives the
  exact transfers it appends and the exact controller state it leaves,
  the latter as `Run` of those transfers or as an explicit record. The
  operations of `Protocol` are named there; single-transfer operations
  spell out their one transfer. The loops of `LCDPutStr`,
  `LCDWriteLine`, `LCDClearLine`, `LCDReadLine`, `LCDLoadCustomChar` and
  `LCDScroll` carry their invariants. `ReadLine` fills a caller's array
  in place.
- `transport.dfy` (module `Transport`) covers the byte encoders.
  - What the controller receives is taken from the falling edges of its
    E line (`Strobe`). `Transfers` assembles strobes into transfers: one
    per strobe on 8 data lines, two nibbles per transfer on 4.
  - The EXP and I2C encoders are functions producing the register writes
    or I2C bytes they send. Each is proved to make the controller see
    exactly the intended transfer.
  - The direct-GPIO transport is class `DirectPort`, with the
    read-modify-write of `LCD_LAT` and `LCD_TRIS`.

The geometry is a parameter bounded by `Supported`:
- 1 to 4 rows;
- at most 40 columns on one or two rows, at most 20 on three or four.

Under these bounds every address stays below 128 and the rows do not
overlap in DDRAM.

Two details of `LCD.c` worth knowing:
- The EXP `LCDWriteByte` makes four expander writes: RS, data, E high,
  E low.
- On three- and four-row displays `LCDGetPos` reports rows 2 and 3 as
  rows 1 and 2 (see Findings).

## Model

| member | source | states |
|---|---|---|
| Layout.CalculateBase | LCD.c:225-233 | The base address of lines 0..3 is 0x00, 0x40, 0x14, 0x54, the HD44780 four-line DDRAM layout. |
| Layout.AddressCommand | LCD.c:129 | The byte 128 + addr, written as an instruction, moves AC to DDRAM address addr. |
| Layout.GlyphCommand | LCD.c:123 | The byte 64 + 8·slot, written as an instruction, moves AC to CGRAM address 8·slot. |
| Layout.CellAddress | LCD.c:101 | The address of a cell on a supported display is at most 124 - (chars - col), so a whole row fits below 128. |
| Layout.SetPosCommand | LCD.c:96-103 | There is a command exactly when 0 ≤ row < LCD_ROWS and 0 ≤ col < LCD_CHARS. It is 128 + calculateBase(row) + col, and it moves AC to that cell. |
| Layout.GetPosInvertsSetPos | LCD.c:105-116 | On one- and two-row displays, the (row, col) computed from AC is the cell that LCDSetPos addressed, for every valid cell. |
| Layout.GetPosBeyondTwoRows | LCD.c:108-114 | On three- and four-row displays, the computed column is right, and rows 2 and 3 are reported as 1 and 2. |
| Layout.GetPosMisplacesRowTwo | LCD.c:108-111 | On a 4x20 display the first cell of row 2 is at address 20, and GetPos reports it as (1, 0). |
| Layout.IntendedGetPosInvertsSetPos | LCD.c:108-111 | With the row offset 2 instead of 1, GetPos inverts SetPos on every supported geometry. |
| Layout.AcOfStatus | LCD.c:217-223 | Masking the status byte to 7 bits gives a value below 128. |
| Layout.StatusFields | LCD.c:203-207 | The 7-bit mask of the status byte is the controller's AC, and bit 7 is its busy flag. |
| Layout.DisplayControl | LCD.c:173-185 | The byte is in 8..15. Bits 2, 1 and 0 are set exactly when the display, cursor and blink arguments are non-zero. As an instruction it changes nothing the model keeps. |
| Layout.RowsDisjoint | LCD.c:225-233 | No DDRAM address lies in two rows of a supported display. |
| Layout.Row | LCD.c:140-142 | A row's text is the chars bytes of DDRAM from calculateBase(row) on. |
| Layout.PaintRow | LCD.c:140-142 | After painting a screen into DDRAM, each row reads back as the painted row. |
| Layout.PaintOverwrite | LCD.c:85-89 | Overwriting one row of a painted DDRAM is painting the screen with that row replaced. |
| Layout.PaintOwnRows | LCD.c:140-142 | Painting DDRAM's own rows back changes nothing. |
| Hd44780.RunAppend | LCD.c:187-201 | Issuing two traces one after the other has the effect of their concatenation. |
| Hd44780.RunDataOps | LCD.c:197-201 | Data writes to DDRAM store the bytes at consecutive addresses from AC and advance AC by their number. |
| Hd44780.RunPatternOps | LCD.c:124-128 | Data writes to CGRAM store the bytes at consecutive addresses from AC, with AC wrapping modulo 64. |
| Hd44780.RunDataReads | LCD.c:209-215 | n data reads from DDRAM advance AC by n and change nothing else. |
| Protocol.InitEffect | LCD.c:24-45 | After the LCDInit sequence, in 8- or 4-bit mode, DDRAM is all spaces, AC is 0 in DDRAM, and CGRAM is untouched. |
| Protocol.SetPosEffect | LCD.c:96-103 | LCDSetPos on a valid cell leaves AC at calculateBase(row) + col, in DDRAM. |
| Protocol.NextRow | LCD.c:65-70 | The row after a line feed is (line + 1) mod LCD_ROWS. |
| Protocol.Text | LCD.c:64 | The text of a C string is a NUL-free prefix that ends at the string's end or at its first NUL. |
| Protocol.TextIsPrefix | LCD.c:53 | A NUL-free prefix followed by a NUL, or by the end, is the text. |
| Protocol.LineOpsData | LCD.c:64-77 | The data bytes LCDWriteLine sends are exactly the text's bytes other than line feed and carriage return, in order. |
| Protocol.LineOpsInstructions | LCD.c:65-72 | Every instruction in LCDWriteLine's loop moves to column 0 of a row on the display. |
| Protocol.CleanLineOps | LCD.c:73-75 | A prefix with no NUL, line feed or carriage return is sent as one data write per byte. |
| Protocol.WriteCleanLine | LCD.c:59-78 | Writing such a line of at most LCD_CHARS bytes copies it into the row's DDRAM cells. AC ends just after it, and nothing else changes. |
| Protocol.ClearLineEffect | LCD.c:80-90 | LCDClearLine on a valid row fills exactly that row with spaces and leaves AC after it. |
| Protocol.ReadLineEffect | LCD.c:133-144 | LCDReadLine on a valid row leaves DDRAM unchanged, with AC just after the row. |
| Protocol.LoadCustomCharEffect | LCD.c:118-131 | Loading a glyph stores the 8 pattern bytes at CGRAM 8·slot..8·slot+7. AC ends where it was, in DDRAM, and DDRAM is unchanged. |
| Protocol.Scrolled | LCD.c:152-171 | Scrolled up, row k holds old row k+1 and the last row is spaces. Scrolled down, row k holds old row k-1 and row 0 is spaces. |
| Protocol.UpPaintStep | LCD.c:158-161 | Part-way through an upward scroll, row i still holds the original row i, and writing it to row i-1 gives the next partial screen. |
| Protocol.DownPaintStep | LCD.c:164-167 | Part-way through a downward scroll, row i still holds the original row i, and writing it to row i+1 gives the next partial screen. |
| Protocol.UpScrollStep | LCD.c:158-161 | Copying row i to row i-1, in ascending order, keeps DDRAM equal to the partly scrolled screen, because every row is read before it is overwritten. |
| Protocol.DownScrollStep | LCD.c:164-167 | Copying row i to row i+1, in descending order, keeps DDRAM equal to the partly scrolled screen. |
| Protocol.UpScrollEnd | LCD.c:162 | Clearing the last row after the upward copies gives exactly the scrolled-up screen. |
| Protocol.DownScrollEnd | LCD.c:168 | Clearing row 0 after the downward copies gives exactly the scrolled-down screen. |
| Protocol.UpCopyAdvance | LCD.c:158-161 | The transfers of the upward copies made so far, followed by the loop from the next row, are the whole loop's transfers. One more copy, from the state the earlier ones left, keeps this so. |
| Protocol.DownCopyAdvance | LCD.c:164-167 | The same for the downward loop, which runs from row LCD_ROWS-2 down to row 0. |
| Protocol.LineOpsKeep | LCD.c:64-77 | LCDWriteLine's loop, whatever the string holds, ends addressing DDRAM and leaves CGRAM unchanged. |
| Protocol.CopyKeeps | LCD.c:159-160 | One row copy (LCDReadLine of src, then LCDWriteLine of the buffer to dst) ends addressing DDRAM with CGRAM unchanged, whatever the row holds. |
| Protocol.CopyClean | LCD.c:159-160 | When the source row holds no NUL, line feed or carriage return, the copy writes it verbatim over the destination row and changes no other DDRAM byte. |
| Protocol.UpCopyKeeps | LCD.c:158-161 | The upward copies from any row on leave CGRAM unchanged. |
| Protocol.UpCopyScreen | LCD.c:158-161 | With clean rows, the upward copies from row i, each reading the state the previous one left, carry the partly scrolled screen through to the last row. |
| Protocol.DownCopyKeeps | LCD.c:164-167 | The downward copies from any row down to row 0 leave CGRAM unchanged. |
| Protocol.DownCopyScreen | LCD.c:164-167 | With clean rows, the downward copies from row i down to row 0 carry the partly scrolled screen through to row 0. |
| Protocol.UpScrollEffect | LCD.c:158-162 | With clean copied rows, the upward loop followed by clearing the last row gives exactly the scrolled-up screen. |
| Protocol.DownScrollEffect | LCD.c:164-168 | With clean copied rows, the downward loop followed by clearing row 0 gives exactly the scrolled-down screen. |
| Protocol.ScrollCopiesKeep | LCD.c:157-168 | The copies of either direction leave CGRAM unchanged. |
| Protocol.ScrollCopiesScreen | LCD.c:157-168 | With clean copied rows, the copies of either direction, followed by clearing the row they vacate, give the scrolled screen. |
| Protocol.ScrollStages | LCD.c:152-171 | The state after LCDScroll's trace is built in stages. The status read changes nothing. Then come the copies and the cleared row, and last the address instruction with the AC that was read. |
| Protocol.ScrollKeeps | LCD.c:152-171 | Whatever the rows hold, LCDScroll ends with AC as it was, addressing DDRAM, and with CGRAM and the busy flag unchanged. |
| Protocol.ScrollScreen | LCD.c:152-171 | With clean copied rows, DDRAM after LCDScroll is the scrolled screen, and addresses outside the rows keep their bytes. |
| Protocol.WriteLineExample | LCD.c:59-78 | "AB\nCD" from row 0 of a 2x16 display sends: address row 0, 'A', 'B', address row 1, 'C', 'D'. |
| Driver.Lcd.WriteByte | LCD.c:5 | Appends one transfer to the trace and applies it to the controller. |
| Driver.Lcd.Write8 | LCD.c:8 | Appends one half-width Write8 transfer. The controller model is unchanged. |
| Driver.Lcd.ReadByte | LCD.c:6 | Returns the controller's answer (status, or the byte at AC) and applies the read. |
| Driver.Lcd.Command | LCD.c:187-191 | An instruction transfer (rs = 0) with its effect on AC and DDRAM. |
| Driver.Lcd.WriteData | LCD.c:197-201 | A data transfer (rs = 1), stored at AC, which then advances. |
| Driver.Lcd.ReadData | LCD.c:209-215 | Returns the byte at AC and advances AC. |
| Driver.Lcd.GetAC | LCD.c:217-223 | Returns the controller's AC, which is below 128, and changes nothing. |
| Driver.Lcd.Busy | LCD.c:203-207 | Returns the controller's busy flag and changes nothing. |
| Driver.Lcd.Init | LCD.c:24-45 | Issues three Write8 transfers in 4-bit mode, then function set, display on, clear and entry mode. Leaves a blank screen with AC 0. |
| Driver.Lcd.Clear | LCD.c:47-50 | One clear instruction. DDRAM becomes all spaces and AC 0. |
| Driver.Lcd.Display | LCD.c:173-185 | One display-control instruction built from the three flags, with no effect on memory or AC. |
| Driver.Lcd.PutChar | LCD.c:92-94 | One data write of the character. |
| Driver.Lcd.GetChar | LCD.c:146-150 | Returns the byte at AC and advances AC. |
| Driver.Lcd.PutStr | LCD.c:52-57 | One data write per byte of the string's text, i.e. up to its first NUL, in order. |
| Driver.Lcd.SetPos | LCD.c:96-103 | Issues the SetPosCommand transfer when the cell is valid, and nothing otherwise. |
| Driver.Lcd.GetPos | LCD.c:105-116 | Returns PosFromAC of the controller's AC, as the C arithmetic computes it. |
| Driver.Lcd.LineByte | LCD.c:65-76 | One iteration of LCDWriteLine's loop. The new row is NextRow(row) after a line feed (the next row, wrapping to 0) and the same row otherwise. A line feed or carriage return issues exactly SetPos(new row, 0). Any other byte is exactly one data write of it. The row stays below LCD_ROWS. |
| Driver.Lcd.WriteText | LCD.c:64-77 | LCDWriteLine's loop issues exactly the string's line transfers. CGRAM and the busy flag are untouched, and AC stays in DDRAM. |
| Driver.Lcd.WriteLine | LCD.c:59-78 | Nothing for a start row ≥ LCD_ROWS. Otherwise SetPos(line, 0) followed by the line transfers, with their effect on the controller. |
| Driver.Lcd.WriteSpaces | LCD.c:86-89 | n spaces written from AC into DDRAM, with AC advanced by n. |
| Driver.Lcd.ClearLine | LCD.c:80-90 | Appends exactly ClearLineOps. Nothing for an invalid row. Otherwise exactly that row becomes spaces, with AC after it. |
| Driver.Lcd.ReadCells | LCD.c:140-142 | The buffer's first n bytes become DDRAM[AC..AC+n), the rest of the buffer is untouched, and AC advances by n. |
| Driver.Lcd.ReadLine | LCD.c:133-144 | An invalid row gives the empty string. Otherwise the buffer holds the row's LCD_CHARS bytes and a NUL, and nothing after it changes. DDRAM is unchanged. |
| Driver.Lcd.WritePattern | LCD.c:124-128 | The pattern bytes go into CGRAM from AC on. |
| Driver.Lcd.LoadCustomChar | LCD.c:118-131 | Nothing for a slot ≥ 8. Otherwise it issues: read AC, 64 + 8·slot, the 8 pattern bytes, 128 + AC. CGRAM gets the glyph, and AC and DDRAM are as before. |
| Driver.Lcd.CopyRow | LCD.c:159-160 | Appends exactly CopyOps: ReadLine(src), then WriteLine of the row's bytes and a NUL to dst. Ends addressing DDRAM with CGRAM and the busy flag unchanged. A clean row is copied exactly over dst. |
| Driver.Lcd.CopyRowsUp | LCD.c:158-161 | Appends exactly UpCopyOps from row 1: rows 1..LCD_ROWS-1 each copied one row up, in ascending order, each copy reading the DDRAM the previous one left. |
| Driver.Lcd.CopyRowsDown | LCD.c:164-167 | Appends exactly DownCopyOps from row LCD_ROWS-2: rows LCD_ROWS-2..0 each copied one row down, in descending order. |
| Driver.Lcd.ShiftRows | LCD.c:157-168 | Appends the copies of the chosen direction, then LCDClearLine of the row they vacate: the last row going up, row 0 going down. |
| Driver.Lcd.Scroll | LCD.c:152-171 | Appends exactly ScrollOps: the AC read, the row copies, the cleared row and 128 + AC. AC, CGRAM and the busy flag end as before, in DDRAM. With clean copied rows, DDRAM is the scrolled screen and bytes outside the rows are untouched. |
| Transport.ByteStrobesTransfer | LCD.c:456-473 | The strobes of a byte make the controller assemble exactly that byte. On 4 lines, the upper and lower nibbles reassemble it. |
| Transport.ExpWriteByteLatches | LCD.c:260-269 | From any expander state with E low, the four register writes latch exactly (c, rs) once, leave E low, and leave c on port B. |
| Transport.ExpStatusReadsIdle | LCD.c:271-273 | The EXP LCDReadByte returns 0, here and in the second expander variant at lines 354-356. So the status reads as not busy with AC 0: LCDBusy never waits and LCDGetPos always reports (0, 0). |
| Transport.I2cWriteByteFraming | LCD.c:571-591 | Five bytes. Backlight is in all five and RW in none. E is in bytes 1 and 3 only. RS is in bytes 1-4 exactly when rs, and never in byte 5. Bytes 1-2 carry c & 0xF0 and bytes 3-4 (c << 4) & 0xF0. Bytes 1 and 3 reassemble c. |
| Transport.I2cWriteByteLatches | LCD.c:571-591 | From an output with E low, the controller latches the two nibbles of c, upper first, and E ends low. |
| Transport.I2cWrite8Latches | LCD.c:556-569 | From an output with E low, the controller latches one strobe with the upper nibble of c, and E ends low. |
| Transport.OnMask | LCD.c:435-443 | ON_MASK and OFF_MASK are complementary for both data widths. |
| Transport.MaskedUpdate | LCD.c:457 | (LAT & OFF_MASK) \| (v & ON_MASK) puts v on the data lines and keeps the other port bits. |
| Transport.DirectPort.Write8 | LCD.c:475-486 | One strobe with c on the data lines and RS as requested. LAT becomes (LAT & OFF_MASK) \| (c & ON_MASK): c's bits on the data lines, the other bits as before. RW and E end low. |
| Transport.DirectPort.WriteByte | LCD.c:456-473 | 8-bit mode makes one strobe of c. 4-bit mode makes the upper nibble then the lower nibble, i.e. ByteStrobes. The data lines of LAT end holding c (8-bit) or its lower nibble (4-bit), and the other LAT bits keep their values. TRIS is unchanged. |
| Transport.DirectPort.ReadByte | LCD.c:488-510 | Returns the byte the controller presents, whatever the other port pins hold, with one or two fetch strobes forming one read transfer. The data lines end as outputs and the other TRIS bits are kept. |

## Left out

- Timing: `__delay_us`, `__delay_ms`, `longDelay` and `shortDelay` only pause. `wait()` is modelled as returning at once. Under `LCD_POLLING` it would first issue status reads, and those reads are not in the traces.
- `LCDInitPort` in every variant, `WriteRegister` and the PMP transport: they configure peripherals and poll hardware flags, with no logic beyond "send these bytes". `WriteRegister` appears only as the `RegWrite` it performs.
- I2C `LCDReadNibble` and `LCDReadByte`: the read ORs in an uninitialised local, so it has no defined result to model.
- `LCD.h` is not part of this model. `LCD_ROWS`, `LCD_CHARS`, `LCD_DATA_WIDTH` and the transport choice are parameters.
- C `char` is taken as unsigned 8-bit (XC8). `calculateBase` and the position arithmetic are kept in range by `Supported`, not by modelling 8-bit wrap-around.
- The controller model has no display shift, cursor or font state. Instructions that only change those (entry mode, display control, function set) leave the model unchanged.
- The EXP and I2C `LCDReadByte` cannot feed the class `Lcd`, which answers reads from the controller. The EXP read is modelled separately (`ExpReadByte`).
- Reading the port pins is I/O: in the direct-GPIO read the byte the controller presents and the level of the other pins are parameters.
- Driver.Lcd.Scroll: the resulting screen is stated only when the copied rows hold no NUL, line feed or carriage return. Each row goes through LCDWriteLine as a C string, so other rows are cut short or moved. The trace and the state of AC, CGRAM and the busy flag are stated for all contents.

- DDRAM addressing: the controller model has one flat 128-byte DDRAM, and AC wraps modulo 128. A real HD44780 in the two-line mode that LCDInit selects has DDRAM at 0x00-0x27 and 0x40-0x67 only. Its AC jumps from 0x27 to 0x40 and from 0x67 to 0x00. So "AC ends just after the row" in WriteCleanLine, ClearLineEffect and ReadLineEffect is not true of the chip for rows that end at 0x27 or 0x67: both rows of a 2x40 display, and rows 2 and 3 of a 4x20. Likewise, text that runs past the end of such a row lands elsewhere on the chip than in the model.

## Findings

| source | as written | input that shows it | evidently intended | confidence | as-written member | corrected member |
|---|---|---|---|---|---|---|
| LCD.c:108-111 | On displays with more than 2 rows, `row = ac / 64`, plus 1 when `ac % 64 >= 20` | 4x20 display, cell (2, 0): SetPos sends address 20 and GetPos returns (1, 0). Row 3 is likewise reported as 2. | Add 2, so that addresses 20-39 and 84-103 map to rows 2 and 3 and GetPos inverts SetPos | not executed | Layout.GetPosMisplacesRowTwo | Layout.IntendedGetPosInvertsSetPos |
