/**
 * A model of the HD44780 controller as the driver sees it: two registers
 * (instruction, rs = false; data, rs = true) behind a byte-wide bus.
 *
 * The controller holds DDRAM (the character codes on screen), CGRAM (the
 * custom glyph patterns) and an address counter AC that points into one of
 * the two and moves forward after every data read or write. Timing is not
 * modelled: the busy flag is part of the state but no operation changes it.
 */
module Hd44780 {

  /** One transfer on the controller's bus. `Write` sends a whole byte to the
      instruction register (rs = false) or the data register (rs = true);
      `Write8` sends only the upper four lines, as the 4-bit power-on
      sequence does; `Read` reads the status register (rs = false) or data. */
  datatype Op = Write(b: Byte, rs: bool) | Write8(b: Byte, rs: bool) | Read(rs: bool)

  /** An 8-bit bus value (C `char`, unsigned on this compiler). Bit masks of
      the source are written as the equivalent arithmetic: `b & 0x7F` is
      `b % 128` and `b & 0x80 != 0` is `b >= 128`. */
  type Byte = b: int | 0 <= b < 256

  const DdramSize: nat := 128
  const CgramSize: nat := 64
  const Space: Byte := 0x20

  datatype State = State(ddram: seq<Byte>, cgram: seq<Byte>, ac: nat, cg: bool, busy: bool)

  /** A controller state: `cg` says whether AC addresses CGRAM (6-bit) or DDRAM (7-bit). */
  type Chip = s: State | |s.ddram| == DdramSize && |s.cgram| == CgramSize && s.ac < (if s.cg then CgramSize else DdramSize)
    witness State(seq(128, _ => 0x20), seq(64, _ => 0), 0, false, false)

  lemma ModBelow(x: nat, m: nat)
    requires x < m
    ensures x % m == x
  {
  }

  /** `n` space characters. */
  function Spaces(n: nat): (s: seq<Byte>)
    ensures |s| == n && forall k :: 0 <= k < n ==> s[k] == Space
  {
    seq(n, _ => Space)
  }

  /** `d` with the bytes from address `a` on replaced by `s`. */
  function Overwrite(d: seq<Byte>, a: nat, s: seq<Byte>): (r: seq<Byte>)
    requires a + |s| <= |d|
    ensures |r| == |d|
    ensures forall k :: 0 <= k < |d| ==> r[k] == if a <= k < a + |s| then s[k - a] else d[k]
  {
    d[..a] + s + d[a + |s|..]
  }

  /** Overwriting with one more byte is one more single-cell update. */
  lemma OverwriteSnoc(d: seq<Byte>, a: nat, s: seq<Byte>, b: Byte)
    requires a + |s| < |d|
    ensures Overwrite(d, a, s + [b]) == Overwrite(d, a, s)[a + |s| := b]
  {
    assert Overwrite(d, a, s + [b]) == Overwrite(d, a, s)[a + |s| := b];
  }

  /** Effect of a byte written to the instruction register (HD44780U
      instruction set): set DDRAM address, set CGRAM address, clear display
      and return home move AC. Entry mode, display control and function set
      change nothing this model keeps: AC always increments after a data
      transfer, the entry mode LCDInit selects. Cursor and display shift
      (0x10-0x1F) are not modelled; LCD.c never issues them. */
  function Instruction(c: Chip, b: Byte): Chip
  {
    if b >= 0x80 then c.(ac := b - 0x80, cg := false)
    else if b >= 0x40 then c.(ac := b - 0x40, cg := true)
    else if b == 0x01 then c.(ddram := Spaces(DdramSize), ac := 0, cg := false)
    else if b == 0x02 || b == 0x03 then c.(ac := 0, cg := false)
    else c
  }

  /** The address counter after one data transfer: it increments and wraps
      within the memory it addresses. */
  function Advance(c: Chip): Chip
  {
    if c.cg then c.(ac := (c.ac + 1) % CgramSize) else c.(ac := (c.ac + 1) % DdramSize)
  }

  /** Below the end of DDRAM, AC simply increments. */
  lemma AdvanceInDdram(c: Chip)
    requires !c.cg && c.ac + 1 < DdramSize
    ensures Advance(c) == c.(ac := c.ac + 1)
  {
    ModBelow(c.ac + 1, DdramSize);
  }

  /** A CGRAM address one past the end wraps to 0. */
  lemma CgramWrap(x: nat)
    requires x <= CgramSize
    ensures x % CgramSize == if x < CgramSize then x else 0
  {
    if x < CgramSize {
      ModBelow(x, CgramSize);
    }
  }

  /** In CGRAM, AC increments and wraps to 0 after the last address. */
  lemma AdvanceInCgram(c: Chip)
    requires c.cg
    ensures Advance(c) == c.(ac := if c.ac + 1 < CgramSize then c.ac + 1 else 0)
  {
    CgramWrap(c.ac + 1);
  }

  /** Effect of a byte written to the data register. */
  function StoreData(c: Chip, b: Byte): Chip
  {
    if c.cg then Advance(c.(cgram := c.cgram[c.ac := b])) else Advance(c.(ddram := c.ddram[c.ac := b]))
  }

  /** What a read of register `rs` returns: the byte at AC, or the status
      byte (busy flag in bit 7, AC in bits 0-6). */
  function Answer(c: Chip, rs: bool): Byte
  {
    if rs then (if c.cg then c.cgram[c.ac] else c.ddram[c.ac])
    else (if c.busy then 0x80 else 0x00) + c.ac
  }

  function Step(c: Chip, op: Op): Chip
  {
    match op
    case Write(b, rs) => if rs then StoreData(c, b) else Instruction(c, b)
    case Write8(_, _) => c
    case Read(rs) => if rs then Advance(c) else c
  }

  /** The state after the transfers `ops`, in order, starting from `c`. */
  function Run(c: Chip, ops: seq<Op>): Chip
    decreases |ops|
  {
    if ops == [] then c else Step(Run(c, ops[..|ops| - 1]), ops[|ops| - 1])
  }

  lemma RunSnoc(c: Chip, ops: seq<Op>, op: Op)
    ensures Run(c, ops + [op]) == Step(Run(c, ops), op)
  {
    assert (ops + [op])[..|ops|] == ops;
  }

  lemma RunOne(c: Chip, op: Op)
    ensures Run(c, [op]) == Step(c, op)
  {
    RunSnoc(c, [], op);
    assert [] + [op] == [op];
  }

  lemma AppendAssoc<T>(a: seq<T>, b: seq<T>, c: seq<T>)
    ensures (a + b) + c == a + (b + c)
  {
  }

  /** Running two traces one after the other is running their concatenation. */
  lemma {:induction false} RunAppend(c: Chip, a: seq<Op>, b: seq<Op>)
    ensures Run(c, a + b) == Run(Run(c, a), b)
    decreases |b|
  {
    if b == [] {
      assert a + b == a;
    } else {
      var b' := b[..|b| - 1];
      assert a + b == (a + b') + [b[|b| - 1]];
      assert b == b' + [b[|b| - 1]];
      RunSnoc(c, a + b', b[|b| - 1]);
      RunAppend(c, a, b');
      RunSnoc(Run(c, a), b', b[|b| - 1]);
    }
  }

  /** No transfer changes the busy flag: timing is not modelled. */
  lemma {:induction false} RunKeepsBusy(c: Chip, ops: seq<Op>)
    ensures Run(c, ops).busy == c.busy
    decreases |ops|
  {
    if ops != [] {
      RunKeepsBusy(c, ops[..|ops| - 1]);
    }
  }

  /** One data write per byte of `s`, in order. */
  function DataOps(s: seq<Byte>): (ops: seq<Op>)
    ensures |ops| == |s| && forall k :: 0 <= k < |s| ==> ops[k] == Write(s[k], true)
  {
    seq(|s|, k requires 0 <= k < |s| => Write(s[k], true))
  }

  /** The data writes for a prefix one byte longer. */
  lemma DataOpsPrefix(s: seq<Byte>, k: nat)
    requires k < |s|
    ensures s[..k + 1] == s[..k] + [s[k]]
    ensures DataOps(s[..k + 1]) == DataOps(s[..k]) + [Write(s[k], true)]
  {
    assert s[..k + 1] == s[..k] + [s[k]];
  }

  lemma DataOpsAppend(a: seq<Byte>, b: seq<Byte>)
    ensures DataOps(a + b) == DataOps(a) + DataOps(b)
  {
  }

  /** `n` data reads. */
  function DataReads(n: nat): (ops: seq<Op>)
    ensures |ops| == n && forall k :: 0 <= k < n ==> ops[k] == Read(true)
  {
    seq(n, _ => Read(true))
  }

  /** One more data write to DDRAM stores one more byte. */
  lemma DataStep(c: Chip, s: seq<Byte>, b: Byte)
    requires !c.cg && c.ac + |s| + 1 < DdramSize
    requires Run(c, DataOps(s)) == c.(ddram := Overwrite(c.ddram, c.ac, s), ac := c.ac + |s|)
    ensures Run(c, DataOps(s + [b])) == c.(ddram := Overwrite(c.ddram, c.ac, s + [b]), ac := c.ac + |s| + 1)
  {
    DataOpsAppend(s, [b]);
    assert DataOps([b]) == [Write(b, true)];
    RunSnoc(c, DataOps(s), Write(b, true));
    OverwriteSnoc(c.ddram, c.ac, s, b);
    var mid := Run(c, DataOps(s));
    AdvanceInDdram(mid.(ddram := mid.ddram[mid.ac := b]));
  }

  /** Writing `s` to DDRAM from AC stores `s` at consecutive addresses and
      leaves AC just after it. */
  lemma {:induction false} RunDataOps(c: Chip, s: seq<Byte>)
    requires !c.cg && c.ac + |s| < DdramSize
    ensures Run(c, DataOps(s)) == c.(ddram := Overwrite(c.ddram, c.ac, s), ac := c.ac + |s|)
    decreases |s|
  {
    if s == [] {
      assert Overwrite(c.ddram, c.ac, s) == c.ddram;
    } else {
      var s', b := s[..|s| - 1], s[|s| - 1];
      assert s == s' + [b];
      RunDataOps(c, s');
      DataStep(c, s', b);
    }
  }

  /** One more data write to CGRAM stores one more byte; AC wraps to 0
      after the last CGRAM address. */
  lemma PatternStep(c: Chip, s: seq<Byte>, b: Byte)
    requires c.cg && c.ac + |s| < CgramSize
    requires Run(c, DataOps(s)) == c.(cgram := Overwrite(c.cgram, c.ac, s), ac := c.ac + |s|)
    ensures Run(c, DataOps(s + [b]))
            == c.(cgram := Overwrite(c.cgram, c.ac, s + [b]), ac := if c.ac + |s| + 1 < CgramSize then c.ac + |s| + 1 else 0)
  {
    DataOpsAppend(s, [b]);
    assert DataOps([b]) == [Write(b, true)];
    RunSnoc(c, DataOps(s), Write(b, true));
    OverwriteSnoc(c.cgram, c.ac, s, b);
    var mid := Run(c, DataOps(s));
    AdvanceInCgram(mid.(cgram := mid.cgram[mid.ac := b]));
  }

  /** Writing `s` to CGRAM from AC stores `s` at consecutive addresses and
      leaves AC just after it, modulo the size of CGRAM. */
  lemma {:induction false} RunPatternOps(c: Chip, s: seq<Byte>)
    requires c.cg && c.ac + |s| <= CgramSize
    ensures Run(c, DataOps(s)) == c.(cgram := Overwrite(c.cgram, c.ac, s), ac := (c.ac + |s|) % CgramSize)
    decreases |s|
  {
    if s == [] {
      assert Overwrite(c.cgram, c.ac, s) == c.cgram;
      CgramWrap(c.ac);
    } else {
      var s', b := s[..|s| - 1], s[|s| - 1];
      assert s == s' + [b];
      RunPatternOps(c, s');
      CgramWrap(c.ac + |s'|);
      PatternStep(c, s', b);
      CgramWrap(c.ac + |s|);
    }
  }

  /** Reading `n` bytes of DDRAM moves AC forward by `n` and changes nothing else. */
  lemma {:induction false} RunDataReads(c: Chip, n: nat)
    requires !c.cg && c.ac + n < DdramSize
    ensures Run(c, DataReads(n)) == c.(ac := c.ac + n)
    decreases n
  {
    if n > 0 {
      assert DataReads(n) == DataReads(n - 1) + [Read(true)];
      RunSnoc(c, DataReads(n - 1), Read(true));
      RunDataReads(c, n - 1);
    }
  }
}
