/**
 * The 128x32 panel of the DS3231 clock program. Unlike the buffered
 * 128x64 drivers it keeps no framebuffer: every command and every byte of
 * display data is its own register write, `[addr << 1, 0x00, command]`
 * or `[addr << 1, 0x40, byte]`, and text is sent glyph column by glyph
 * column at a page and column chosen with the page-addressing commands
 * (page 0xB0+y, lower column nibble, higher column nibble).
 */
module Oled32 {
  import opened Wrappers
  import opened Bus
  import opened Ssd1306
  import opened Fonts
  import opened Rtc

  const OledAddress: int := 0x3C

  /** initialize_display's table for the 128x32 panel. */
  const InitTable32: seq<bv8> := [
    0xAE, 0xD5, 0x80, 0xA8, 0x1F, 0xD3, 0x00, 0x40, 0x8D, 0x14, 0x20, 0x00, 0xA1,
    0xC8, 0xDA, 0x02, 0x81, 0x8F, 0xD9, 0xF1, 0xDB, 0x40, 0xA4, 0xA6, 0xAF]

  /** The two tables differ only in the multiplex ratio (32 rows), the COM pins setting and the contrast. */
  lemma TablesDiffer()
    ensures |InitTable32| == |InitTable|
    ensures forall i :: 0 <= i < |InitTable| && i != 4 && i != 15 && i != 17 ==> InitTable32[i] == InitTable[i]
    ensures InitTable32[4] == 0x1F && InitTable[4] == 0x3F
    ensures InitTable32[15] == 0x02 && InitTable[15] == 0x12
    ensures InitTable32[17] == 0x8F && InitTable[17] == 0xCF
  {
  }

  /** send_command: one command as a write to register 0x00. */
  function CommandWrite(addr: int, cmd: int): seq<bv8>
  {
    RegisterWrite(addr, 0x00, cmd)
  }

  /** One byte of display data as a write to register 0x40. */
  function DataWrite(addr: int, b: int): seq<bv8>
  {
    RegisterWrite(addr, 0x40, b)
  }

  /** A register write of a byte is the same frame a buffered driver sends for one command or one data byte. */
  lemma SameFrames(addr: int, b: bv8)
    ensures CommandWrite(addr, b as int) == CommandFrame(addr, b)
    ensures DataWrite(addr, b as int) == DataFrame(addr, [b])
  {
    ToByteOfByte(b);
    ToByteOfByte(CommandMode);
    ToByteOfByte(DataMode);
  }

  /** One data write per byte, in order. */
  function DataWrites(addr: int, bs: seq<bv8>): (fs: seq<seq<bv8>>)
    ensures |fs| == |bs|
    ensures forall k :: 0 <= k < |bs| ==> fs[k] == DataWrite(addr, bs[k] as int)
  {
    if bs == [] then [] else DataWrites(addr, bs[..|bs| - 1]) + [DataWrite(addr, bs[|bs| - 1] as int)]
  }

  /** The frames of initialize_display, one command each. */
  function InitFrames(addr: int): (fs: seq<seq<bv8>>)
    ensures |fs| == |InitTable32|
    ensures forall i :: 0 <= i < |fs| ==> fs[i] == CommandWrite(addr, InitTable32[i] as int)
  {
    seq(|InitTable32|, i requires 0 <= i < |InitTable32| => CommandWrite(addr, InitTable32[i] as int))
  }

  /** The three commands that place the next data byte at page `page`, columns from lower nibble `low` and higher nibble `high`. */
  function Position(addr: int, page: int, low: int, high: int): seq<seq<bv8>>
  {
    [CommandWrite(addr, 0xB0 + page), CommandWrite(addr, 0x00 + low), CommandWrite(addr, 0x10 + high)]
  }

  /** One page of clear_display: page p, column 0, then 128 zero bytes, one write each. */
  function PageClear(addr: int, p: int): (fs: seq<seq<bv8>>)
    ensures |fs| == 131
    ensures forall k :: 3 <= k < 131 ==> fs[k] == DataWrite(addr, 0)
  {
    Position(addr, p, 0, 0) + DataWrites(addr, seq(128, _ => 0))
  }

  /** Pages 0..n-1 of clear_display. */
  function ClearPages(addr: int, n: nat): (fs: seq<seq<bv8>>)
    ensures |fs| == 131 * n
  {
    if n == 0 then [] else ClearPages(addr, n - 1) + PageClear(addr, n - 1)
  }

  /** clear_display's whole transfer: the four pages of the 32-row panel. */
  function ClearFrames32(addr: int): seq<seq<bv8>>
  {
    ClearPages(addr, 4)
  }

  lemma {:induction false} ClearPagesPrefix(addr: int, m: nat, n: nat)
    requires m <= n
    ensures ClearPages(addr, m) <= ClearPages(addr, n)
  {
    if m < n {
      ClearPagesPrefix(addr, m, n - 1);
    }
  }

  /** The display data of pages 0..n-1: 128 zero bytes per page, nothing else. */
  lemma {:induction false} ClearCarriesZeros(addr: int, n: nat)
    ensures DataPayload(ClearPages(addr, n)) == seq(128 * n, _ => 0)
  {
    if n > 0 {
      ClearCarriesZeros(addr, n - 1);
      DataPayloadAppend(ClearPages(addr, n - 1), PageClear(addr, n - 1));
      PageZeros(addr, n - 1);
      assert seq(128 * (n - 1), _ => 0 as bv8) + seq(128, _ => 0 as bv8) == seq(128 * n, _ => 0);
    }
  }

  /** Of one page's frames only the 128 data writes carry data, each a zero. */
  lemma PageZeros(addr: int, p: int)
    ensures DataPayload(PageClear(addr, p)) == seq(128, _ => 0)
  {
    PositionCarriesNothing(addr, p, 0, 0, DataWrites(addr, seq(128, _ => 0)));
    ByteWrites(addr, seq(128, _ => 0));
  }

  lemma CommandCarriesNothing(addr: int, cmd: int, rest: seq<seq<bv8>>)
    ensures DataPayload([CommandWrite(addr, cmd)] + rest) == DataPayload(rest)
  {
    assert ([CommandWrite(addr, cmd)] + rest)[1..] == rest;
  }

  /** The positioning commands carry no display data. */
  lemma PositionCarriesNothing(addr: int, page: int, low: int, high: int, rest: seq<seq<bv8>>)
    ensures DataPayload(Position(addr, page, low, high) + rest) == DataPayload(rest)
  {
    var c1, c2, c3 := CommandWrite(addr, 0xB0 + page), CommandWrite(addr, 0x00 + low), CommandWrite(addr, 0x10 + high);
    assert Position(addr, page, low, high) + rest == [c1] + ([c2] + ([c3] + rest));
    CommandCarriesNothing(addr, 0x10 + high, rest);
    CommandCarriesNothing(addr, 0x00 + low, [c3] + rest);
    CommandCarriesNothing(addr, 0xB0 + page, [c2] + ([c3] + rest));
  }

  /** One data write per byte carries those bytes. */
  lemma {:induction false} ByteWrites(addr: int, bs: seq<bv8>)
    ensures DataPayload(DataWrites(addr, bs)) == bs
  {
    if bs != [] {
      var front := bs[..|bs| - 1];
      var last := DataWrite(addr, bs[|bs| - 1] as int);
      DataPayloadAppend(DataWrites(addr, front), [last]);
      ByteWrites(addr, front);
      var none: seq<seq<bv8>> := [];
      assert [last][1..] == none;
      SameFrames(addr, bs[|bs| - 1]);
      assert last[2..] == [bs[|bs| - 1]];
      assert front + [bs[|bs| - 1]] == bs;
    }
  }

  /** `font_data.get(char, font_data[' '])`: a character outside the font is five blank columns. */
  function Glyph(c: char): (g: seq<bv8>)
    ensures |g| == 5
    ensures RtcFont(c).None? ==> g == BlankGlyph
  {
    match RtcFont(c)
    case Some(g) => g
    case None => BlankGlyph
  }

  /** The columns draw_text sends for a text: five per character, in order. */
  function Columns(text: string): (bs: seq<bv8>)
    ensures |bs| == 5 * |text|
  {
    if text == [] then [] else Columns(text[..|text| - 1]) + Glyph(text[|text| - 1])
  }

  /** Column j of character i is column j of that character's glyph. */
  lemma {:induction false} ColumnsAt(text: string, i: int, j: int)
    requires 0 <= i < |text| && 0 <= j < 5
    ensures Columns(text)[5 * i + j] == Glyph(text[i])[j]
  {
    var front := text[..|text| - 1];
    if i < |text| - 1 {
      ColumnsAt(front, i, j);
      assert front[i] == text[i];
    }
  }

  /** draw_text's whole transfer: page y, column x split into nibbles, then one data write per glyph column. */
  function TextFrames(addr: int, text: string, x: int, y: int): (fs: seq<seq<bv8>>)
    ensures |fs| == 3 + 5 * |text|
  {
    Position(addr, y, x % 16, (x / 16) % 16) + DataWrites(addr, Columns(text))
  }

  /** Frame 3 + 5i + j of draw_text is the data write of column j of character i's glyph. */
  lemma TextFrameAt(addr: int, text: string, x: int, y: int, i: int, j: int)
    requires 0 <= i < |text| && 0 <= j < 5
    ensures TextFrames(addr, text, x, y)[3 + 5 * i + j] == DataWrite(addr, Glyph(text[i])[j] as int)
  {
    ColumnsAt(text, i, j);
    var ws := DataWrites(addr, Columns(text));
    assert TextFrames(addr, text, x, y)[3 + 5 * i + j] == ws[5 * i + j];
  }

  /**
   * The column commands address column x of the panel: the low nibble
   * command is 0x00..0x0F, the high one 0x10..0x1F, and together they
   * spell x back for every column of the panel.
   */
  lemma ColumnAddressed(addr: int, text: string, x: int, y: int)
    requires 0 <= x < 128
    ensures var fs := TextFrames(addr, text, x, y);
      var low, high := fs[1][2] as int, fs[2][2] as int;
      0 <= low < 16 && 16 <= high < 32 && x == 16 * (high - 16) + low
  {
    var fs := TextFrames(addr, text, x, y);
    ToByteSmall(x % 16);
    ToByteSmall(0x10 + (x / 16) % 16);
    assert fs[1][2] == ToByte(x % 16);
    assert fs[2][2] == ToByte(0x10 + (x / 16) % 16);
  }

  /** The data draw_text sends is exactly the glyph columns of its text. */
  lemma TextCarriesGlyphs(addr: int, text: string, x: int, y: int)
    ensures DataPayload(TextFrames(addr, text, x, y)) == Columns(text)
  {
    PositionCarriesNothing(addr, y, x % 16, (x / 16) % 16, DataWrites(addr, Columns(text)));
    ByteWrites(addr, Columns(text));
  }

  /** The time, date and weekday digits are all in the font: none of them falls back to a blank. */
  lemma ClockCharsInFont(t: DateTime)
    requires Valid(t) && t.year >= 1000
    ensures forall c :: c in TimeString(t) ==> RtcFont(c).Some?
    ensures forall c :: c in DateString(t) ==> RtcFont(c).Some?
  {
    StringsAreDigits(t);
    forall c | c in TimeString(t) {
      ClockCharInFont(c);
    }
    forall c | c in DateString(t) {
      ClockCharInFont(c);
    }
  }

  lemma ClockCharInFont(c: char)
    requires '0' <= c <= '9' || c == ':' || c == '/'
    ensures RtcFont(c).Some?
  {
  }

  /**
   * The short day names are mostly not in the font, which has only the
   * capitals M, D and Y: every day but Monday is drawn as three blank
   * glyphs, and Monday as an M and two blanks.
   */
  lemma DayNamesBlank(d: int)
    requires 1 <= d <= 7
    ensures var name := ShortDayStr(d).value;
      d != 2 ==> Columns(name) == BlankGlyph + BlankGlyph + BlankGlyph
    ensures d == 2 ==> Columns(ShortDayStr(d).value) == Glyph('M') + BlankGlyph + BlankGlyph
  {
    var name := ShortDayStr(d).value;
    ThreeColumns(name);
  }

  lemma ThreeColumns(name: string)
    requires |name| == 3
    ensures Columns(name) == Glyph(name[0]) + Glyph(name[1]) + Glyph(name[2])
  {
    var two, one := name[..2], name[..1];
    assert two[..1] == one && two[1] == name[1] && one[..0] == [] && one[0] == name[0];
    assert Columns(one) == Glyph(name[0]);
    assert Columns(two) == Columns(one) + Glyph(name[1]);
    assert Columns(name) == Columns(two) + Glyph(name[2]);
  }

  /** The three rows of the clock: time on page 0, weekday on page 1, date on page 2. */
  datatype Rows = Rows(time: string, day: string, date: string)

  /** main's starting point: nothing drawn yet. */
  const NoRows := Rows("", "", "")

  /** The rows a reading shows; None when the weekday register indexes outside the day list. */
  function RowsOf(r: Reading): (rows: Option<Rows>)
    requires Valid(r.time) && r.time.year >= 1000
    ensures rows.Some? <==> -6 <= r.weekday <= 7
  {
    match ShortDayStr(r.weekday)
    case Some(day) => Some(Rows(TimeString(r.time), day, DateString(r.time)))
    case None => None
  }

  /** A row is drawn at column 0 of page y when it changed. */
  function RowFrames(addr: int, changed: bool, text: string, y: int): seq<seq<bv8>>
  {
    if changed then TextFrames(addr, text, 0, y) else []
  }

  /** One pass of main's loop: each row that changed is drawn again, in order time, day, date. */
  function RefreshFrames(addr: int, prev: Rows, next: Rows): seq<seq<bv8>>
  {
    RowFrames(addr, next.time != prev.time, next.time, 0) +
    (RowFrames(addr, next.day != prev.day, next.day, 1) +
     RowFrames(addr, next.date != prev.date, next.date, 2))
  }

  /** Nothing is sent when no row changed. */
  lemma RefreshIdle(addr: int, rows: Rows)
    ensures RefreshFrames(addr, rows, rows) == []
  {
  }

  /** The first pass draws all three rows of a reading. */
  lemma FirstRefresh(addr: int, rows: Rows)
    requires rows.time != "" && rows.day != "" && rows.date != ""
    ensures RefreshFrames(addr, NoRows, rows) ==
      TextFrames(addr, rows.time, 0, 0) + (TextFrames(addr, rows.day, 0, 1) + TextFrames(addr, rows.date, 0, 2))
  {
  }

  /** The OLED class of the clock program. */
  class Display {
    const bus: I2CBus
    const address: int

    /** The object without initialize_display, which NewDisplay runs. */
    constructor (bus: I2CBus, address: int)
      ensures this.bus == bus && this.address == address
    {
      this.bus := bus;
      this.address := address;
    }

    /** initialize_display: the table, one command write each, until one is refused. */
    method InitializeDisplay() returns (ok: bool)
      modifies bus
      ensures Sent(old(bus.trace), bus.trace, InitFrames(address), ok)
    {
      ghost var t0 := bus.trace;
      ghost var all := InitFrames(address);
      var i := 0;
      ok := true;
      while i < |InitTable32|
        invariant 0 <= i <= |InitTable32|
        invariant bus.trace == t0 + all[..i]
      {
        ok := bus.WriteNext(t0, all, i, CommandWrite(address, InitTable32[i] as int));
        if !ok {
          return;
        }
        i := i + 1;
      }
      assert all[..i] == all;
    }

    /** One page of clear_display. */
    method ClearPage(p: int) returns (ok: bool)
      modifies bus
      ensures Sent(old(bus.trace), bus.trace, PageClear(address, p), ok)
    {
      ghost var t0 := bus.trace;
      ghost var all := PageClear(address, p);
      ok := bus.WriteNext(t0, all, 0, CommandWrite(address, 0xB0 + p));
      if !ok {
        return;
      }
      ok := bus.WriteNext(t0, all, 1, CommandWrite(address, 0x00));
      if !ok {
        return;
      }
      ok := bus.WriteNext(t0, all, 2, CommandWrite(address, 0x10));
      if !ok {
        return;
      }
      var j := 0;
      while j < 128
        invariant 0 <= j <= 128
        invariant bus.trace == t0 + all[..3 + j]
      {
        ok := bus.WriteNext(t0, all, 3 + j, DataWrite(address, 0x00));
        if !ok {
          return;
        }
        j := j + 1;
      }
      assert all[..3 + j] == all;
    }

    /** clear_display: four pages of 128 zero bytes. */
    method ClearDisplay() returns (ok: bool)
      modifies bus
      ensures Sent(old(bus.trace), bus.trace, ClearFrames32(address), ok)
    {
      ghost var t0 := bus.trace;
      var i := 0;
      ok := true;
      while i < 4
        invariant 0 <= i <= 4
        invariant bus.trace == t0 + ClearPages(address, i)
      {
        ghost var mid := bus.trace;
        ok := ClearPage(i);
        ClearPagesPrefix(address, i + 1, 4);
        if !ok {
          SentStops(t0, ClearPages(address, i), PageClear(address, i), bus.trace, ClearFrames32(address));
          return;
        }
        i := i + 1;
      }
    }

    /** draw_text: position at page y, column x, then five data writes per character. */
    method DrawText(text: string, x: int, y: int) returns (ok: bool)
      modifies bus
      ensures Sent(old(bus.trace), bus.trace, TextFrames(address, text, x, y), ok)
    {
      ghost var t0 := bus.trace;
      ghost var all := TextFrames(address, text, x, y);
      ok := bus.WriteNext(t0, all, 0, CommandWrite(address, 0xB0 + y));
      if !ok {
        return;
      }
      ok := bus.WriteNext(t0, all, 1, CommandWrite(address, 0x00 + x % 16));
      if !ok {
        return;
      }
      ok := bus.WriteNext(t0, all, 2, CommandWrite(address, 0x10 + (x / 16) % 16));
      if !ok {
        return;
      }
      var i := 0;
      while i < |text|
        invariant 0 <= i <= |text|
        invariant bus.trace == t0 + all[..3 + 5 * i]
      {
        ok := SendGlyph(t0, text, x, y, i);
        if !ok {
          return;
        }
        i := i + 1;
      }
      assert all[..3 + 5 * i] == all;
    }

    /** draw_text's inner loop: the five columns of character i, one data write each. */
    method SendGlyph(ghost t0: seq<seq<bv8>>, text: string, x: int, y: int, i: int) returns (ok: bool)
      requires 0 <= i < |text| && bus.trace == t0 + TextFrames(address, text, x, y)[..3 + 5 * i]
      modifies bus
      ensures ok ==> bus.trace == t0 + TextFrames(address, text, x, y)[..3 + 5 * (i + 1)]
      ensures !ok ==> Sent(t0, bus.trace, TextFrames(address, text, x, y), false)
    {
      ghost var all := TextFrames(address, text, x, y);
      var data := Glyph(text[i]);
      var j := 0;
      ok := true;
      while j < |data|
        invariant 0 <= j <= |data|
        invariant bus.trace == t0 + all[..3 + 5 * i + j]
      {
        TextFrameAt(address, text, x, y, i, j);
        ok := bus.WriteNext(t0, all, 3 + 5 * i + j, DataWrite(address, data[j] as int));
        if !ok {
          return;
        }
        j := j + 1;
      }
    }

    /** One row of main's loop: drawn at column 0 of page y when it changed, skipped otherwise. */
    method DrawRow(changed: bool, text: string, y: int) returns (ok: bool)
      modifies bus
      ensures Sent(old(bus.trace), bus.trace, RowFrames(address, changed, text, y), ok)
    {
      ok := true;
      if changed {
        ok := DrawText(text, 0, y);
      }
    }

    /** One pass of main's loop after the reading: redraw the rows that changed. */
    method Refresh(prev: Rows, next: Rows) returns (ok: bool)
      modifies bus
      ensures Sent(old(bus.trace), bus.trace, RefreshFrames(address, prev, next), ok)
    {
      ghost var t0 := bus.trace;
      ghost var a := RowFrames(address, next.time != prev.time, next.time, 0);
      ghost var b := RowFrames(address, next.day != prev.day, next.day, 1);
      ghost var c := RowFrames(address, next.date != prev.date, next.date, 2);
      ok := DrawRow(next.time != prev.time, next.time, 0);
      if !ok {
        SentFailsEarly(t0, bus.trace, a, b + c);
        return;
      }
      ghost var t1 := bus.trace;
      ok := DrawRow(next.day != prev.day, next.day, 1);
      if !ok {
        SentFailsEarly(t1, bus.trace, b, c);
        SentThen(t0, t1, bus.trace, a, b + c, false);
        return;
      }
      ghost var t2 := bus.trace;
      ok := DrawRow(next.date != prev.date, next.date, 2);
      SentThen(t1, t2, bus.trace, b, c, ok);
      SentThen(t0, t1, bus.trace, a, b + c, ok);
    }
  }

  /** OLED(i2c): the object, then initialize_display. */
  method NewDisplay(bus: I2CBus, address: int) returns (oled: Display, ok: bool)
    modifies bus
    ensures fresh(oled) && oled.bus == bus && oled.address == address
    ensures Sent(old(bus.trace), bus.trace, InitFrames(address), ok)
  {
    oled := new Display(bus, address);
    ok := oled.InitializeDisplay();
  }

  /**
   * One pass of main's loop: read the clock, work out the rows, and redraw
   * those that changed. A failed read, a date the datetime type rejects and
   * a weekday outside the day list all raise (None), as does a refused
   * write (ok false).
   */
  method Tick(rtc: Ds3231, oled: Display, prev: Rows)
    returns (readOk: bool, regs: seq<bv8>, next: Option<Rows>, ok: bool)
    requires rtc.bus == oled.bus
    modifies rtc.bus
    ensures |regs| == 7
    ensures next == (if readOk && DecodeTime(regs).Some? then RowsOf(DecodeTime(regs).value) else None)
    ensures ok ==> next.Some?
    ensures next.None? ==> !ok && rtc.bus.trace == old(rtc.bus.trace) + [ReadRequest(rtc.address)]
    ensures next.Some? ==> Sent(old(rtc.bus.trace) + [ReadRequest(rtc.address)], rtc.bus.trace,
      RefreshFrames(oled.address, prev, next.value), ok)
  {
    var r;
    readOk, regs, r := rtc.ReadTime();
    if r.None? {
      return readOk, regs, None, false;
    }
    next := RowsOf(r.value);
    if next.None? {
      return readOk, regs, None, false;
    }
    ok := oled.Refresh(prev, next.value);
  }
}
