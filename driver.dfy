/**
 * The `OLED` class that every 128x64 demo carries a copy of. `Link` is the
 * transport half every copy shares (write_command, write_data, the
 * power-up table and update_display); `Display` adds the framebuffer and
 * draw_pixel / draw_rect / clear_display on top of it.
 *
 * A write whose bridge call fails raises in the source, which ends the
 * operation under way; here every sending method returns `ok`, stops at
 * the first failing frame, and states what reached the bus with `Sent`.
 */
module Driver {
  import opened Bus
  import opened Pixels
  import opened Ssd1306
  import opened Fonts
  import opened Glyphs
  import opened Shapes
  import opened Bresenham

  class Link {
    const bus: I2CBus
    const address: int

    constructor (bus: I2CBus, address: int)
      ensures this.bus == bus && this.address == address
    {
      this.bus := bus;
      this.address := address;
    }

    /** write_command: one frame `[addr << 1, 0x00, command]`. */
    method WriteCommand(command: bv8) returns (ok: bool)
      modifies bus
      ensures bus.trace == old(bus.trace) + [CommandFrame(address, command)]
    {
      ok := bus.Write(CommandFrame(address, command));
    }

    /** write_data: one frame `[addr << 1, 0x40] + data`. */
    method WriteData(data: seq<bv8>) returns (ok: bool)
      modifies bus
      ensures bus.trace == old(bus.trace) + [DataFrame(address, data)]
    {
      ok := bus.Write(DataFrame(address, data));
    }

    /** The loop over init_sequence in initialize_display. */
    method SendInitTable() returns (ok: bool)
      modifies bus
      ensures Sent(old(bus.trace), bus.trace, CommandFrames(address, InitTable), ok)
    {
      ok := SendCommands(InitTable);
    }

    /** One write_command per byte of cmds, in order, stopping at the first failure. */
    method SendCommands(cmds: seq<bv8>) returns (ok: bool)
      modifies bus
      ensures Sent(old(bus.trace), bus.trace, CommandFrames(address, cmds), ok)
    {
      ghost var t0 := bus.trace;
      ghost var all := CommandFrames(address, cmds);
      var i := 0;
      ok := true;
      while i < |cmds|
        invariant 0 <= i <= |cmds|
        invariant bus.trace == t0 + all[..i]
      {
        ok := WriteCommand(cmds[i]);
        PrefixStep(t0, all, i);
        if !ok {
          return;
        }
        i := i + 1;
      }
      assert all[..i] == all;
    }

    /**
     * update_display: for each page p in order, the commands 0xB0 + p,
     * 0x00 and 0x10, then page p of `buf` as one data frame.
     */
    method Flush(buf: seq<bv8>) returns (ok: bool)
      requires |buf| == BufferSize
      modifies bus
      ensures Sent(old(bus.trace), bus.trace, FlushFrames(address, buf), ok)
    {
      ghost var t0 := bus.trace;
      ok := true;
      var page := 0;
      while page < Pages
        invariant 0 <= page <= Pages
        invariant bus.trace == t0 + FlushPages(address, buf, page)
      {
        ok := SendPage(buf, page);
        if !ok {
          FlushPagesPrefix(address, buf, page + 1, Pages);
          SentStops(t0, FlushPages(address, buf, page), PageFrames(address, buf, page),
                    bus.trace, FlushFrames(address, buf));
          return;
        }
        page := page + 1;
      }
    }

    /** One pass of update_display's page loop: the page header, then the page's 128 bytes. */
    method SendPage(buf: seq<bv8>, page: nat) returns (ok: bool)
      requires |buf| == BufferSize && page < Pages
      modifies bus
      ensures Sent(old(bus.trace), bus.trace, PageFrames(address, buf, page), ok)
    {
      ghost var part := PageFrames(address, buf, page);
      ghost var t := bus.trace;
      ok := WriteCommand(PageAddress(page));
      assert bus.trace == t + part[..1];
      if !ok {
        FailsInside(t, [], part, 1, part);
        return;
      }
      ok := WriteCommand(LowColumnZero);
      assert bus.trace == t + part[..2];
      if !ok {
        FailsInside(t, [], part, 2, part);
        return;
      }
      ok := WriteCommand(HighColumnZero);
      assert bus.trace == t + part[..3];
      if !ok {
        FailsInside(t, [], part, 3, part);
        return;
      }
      var start := page * Width;
      ok := WriteData(buf[start .. start + Width]);
      assert bus.trace == t + part;
    }
  }

  /** draw_rect's inner loop adds pixel (x + i, y + j) to the part drawn so far. */
  /** Row j of column cx joins the rows above it. */
  lemma ColumnGrows(cx: int, y: int, j: int)
    requires 0 <= j
    ensures Rect(cx, y, 1, j) + iset{Point(cx, y + j)} == Rect(cx, y, 1, j + 1)
  {
  }

  /** Column i of a rectangle joins the columns to its left. */
  lemma RectColumnDone(x: int, y: int, i: int, height: int)
    requires 0 <= i
    ensures Rect(x, y, i, height) + Rect(x + i, y, 1, height) == Rect(x, y, i + 1, height)
  {
  }

  /** A drawing loop that has painted `done` and now paints `piece` in the same colour has painted `next`. */
  lemma Grow(start: iset<Point>, done: iset<Point>, piece: iset<Point>, next: iset<Point>, on: bool)
    requires done + piece == next
    ensures Paint(Paint(start, done, on), piece, on) == Paint(start, next, on)
  {
    BlitTwice(start, done, piece, Solid(on));
  }

  /** draw_text's pixel for bit b of column j of glyph i extends what it has drawn by that pixel, in the text's ink. */
  lemma TextBitStep(start: iset<Point>, before: iset<Point>, gs: seq<seq<bv8>>, x: int, y: int, i: nat, j: nat, b: nat, on: bool)
    requires i < |gs| && j < |gs[i]| && j < 6 && b < 8 && on == BitSet(gs[i][j], b)
    requires before == Blit(start, CellsDone(gs, x, y, i, j, b), CellInk(gs, x, y))
    ensures Paint(before, iset{Point(x + i * 6 + j, y + b)}, on)
         == Blit(start, CellsDone(gs, x, y, i, j, b + 1), CellInk(gs, x, y))
  {
    var p := Point(x + i * 6 + j, y + b);
    var ink := CellInk(gs, x, y);
    CellsDoneBit(gs, x, y, i, j, b);
    BlitPointInk(before, p, Solid(on), ink);
    BlitTwice(start, CellsDone(gs, x, y, i, j, b), iset{p}, ink);
  }

  lemma Advance(size: int, k: int)
    ensures 6 * size * (k + 1) == 6 * size * k + 6 * size
  {
  }

  class Display {
    const link: Link
    /** Whether clear_display also sends the zeroed buffer (the TimeDate, Cube, LIFE and BALL copies). */
    const flushOnClear: bool
    var buffer: array<bv8>

    ghost predicate Valid()
      reads this
    {
      buffer.Length == BufferSize
    }

    /** The picture the buffer holds. */
    ghost function Shown(): iset<Point>
      reads this, buffer
      requires Valid()
    {
      Lit(buffer[..])
    }

    /** The buffer `[0x00] * (width * pages)` the constructor sets up before the device is opened. */
    constructor (link: Link, flushOnClear: bool)
      ensures Valid() && fresh(buffer)
      ensures this.link == link && this.flushOnClear == flushOnClear
      ensures buffer[..] == Zeros() && Shown() == iset{}
    {
      this.link := link;
      this.flushOnClear := flushOnClear;
      buffer := new bv8[BufferSize](_ => 0);
      new;
      assert buffer[..] == Zeros();
    }

    /**
     * clear_display: a fresh all-zero buffer; the flushing copies then send
     * it page by page.
     */
    method ClearDisplay() returns (ok: bool)
      modifies this, link.bus
      ensures Valid() && fresh(buffer)
      ensures buffer[..] == Zeros() && Shown() == iset{}
      ensures flushOnClear ==> Sent(old(link.bus.trace), link.bus.trace, ClearFrames(link.address), ok)
      ensures !flushOnClear ==> ok && link.bus.trace == old(link.bus.trace)
    {
      buffer := new bv8[BufferSize](_ => 0);
      assert buffer[..] == Zeros();
      ok := true;
      if flushOnClear {
        ok := link.Flush(buffer[..]);
      }
    }

    /**
     * initialize_display: the power-up table, then clear_display. A failing
     * write ends it early; the source reports that on the console instead
     * of raising, so `ok` is what the model returns in its place.
     */
    method InitializeDisplay() returns (ok: bool)
      requires Valid()
      modifies this, link.bus
      ensures Valid()
      ensures Sent(old(link.bus.trace), link.bus.trace,
                   CommandFrames(link.address, InitTable) + (if flushOnClear then ClearFrames(link.address) else []), ok)
      ensures ok ==> buffer[..] == Zeros()
    {
      ghost var t0 := link.bus.trace;
      ghost var init := CommandFrames(link.address, InitTable);
      ghost var clear := if flushOnClear then ClearFrames(link.address) else [];
      ok := link.SendInitTable();
      if !ok {
        SentFailsEarly(t0, link.bus.trace, init, clear);
        return;
      }
      ghost var t1 := link.bus.trace;
      ok := ClearDisplay();
      assert Sent(t1, link.bus.trace, clear, ok);
      SentThen(t0, t1, link.bus.trace, init, clear, ok);
    }

    /** update_display on this buffer. */
    method UpdateDisplay() returns (ok: bool)
      requires Valid()
      modifies link.bus
      ensures Sent(old(link.bus.trace), link.bus.trace, FlushFrames(link.address, buffer[..]), ok)
    {
      ok := link.Flush(buffer[..]);
    }

    /**
     * draw_pixel: off screen nothing changes; otherwise bit y % 8 of byte
     * x + (y / 8) * 128 is set (colour truthy) or cleared, and nothing else.
     */
    method DrawPixel(x: int, y: int, color: int)
      requires Valid()
      modifies buffer
      ensures buffer[..] == SetPixel(old(buffer[..]), Point(x, y), Truthy(color))
      ensures Shown() == Paint(old(Shown()), iset{Point(x, y)}, Truthy(color))
    {
      SetPixelLit(buffer[..], Point(x, y), Truthy(color), Solid(Truthy(color)));
      if x < 0 || x >= Width || y < 0 || y >= Height {
        return;
      }
      SetBit(x, y, color);
    }

    /** The on-screen half of draw_pixel: the bit of byte x + (y / 8) * 128 that holds row y. */
    method SetBit(x: int, y: int, color: int)
      requires Valid() && OnScreen(Point(x, y))
      modifies buffer
      ensures buffer[..] == SetPixel(old(buffer[..]), Point(x, y), Truthy(color))
    {
      ghost var s := buffer[..];
      var index := Index(Point(x, y));
      var byte := if color != 0 then buffer[index] | Mask(y % 8) else buffer[index] & !Mask(y % 8);
      buffer[index] := byte;
      assert buffer[..] == s[index := byte];
      SetPixelByte(s, Point(x, y), Truthy(color), byte);
    }

    /** draw_rect (and draw_cell): every on-screen pixel of [x, x+w) x [y, y+h) in one colour. */
    method DrawRect(x: int, y: int, width: int, height: int, color: int)
      requires Valid()
      modifies buffer
      ensures Shown() == Paint(old(Shown()), Rect(x, y, width, height), Truthy(color))
    {
      ghost var start := Shown();
      var i := 0;
      while i < width
        invariant 0 <= i && (i <= width || i == 0)
        invariant Shown() == Paint(start, Rect(x, y, i, height), Truthy(color))
      {
        ghost var before := Shown();
        DrawColumn(x + i, y, height, color);
        assert Shown() == Paint(before, Rect(x + i, y, 1, height), Truthy(color));
        RectColumnDone(x, y, i, height);
        Grow(start, Rect(x, y, i, height), Rect(x + i, y, 1, height), Rect(x, y, i + 1, height), Truthy(color));
        i := i + 1;
      }
    }

    /** The inner loop of draw_rect: rows y .. y+height-1 of column cx. */
    method DrawColumn(cx: int, y: int, height: int, color: int)
      requires Valid()
      modifies buffer
      ensures Shown() == Paint(old(Shown()), Rect(cx, y, 1, height), Truthy(color))
    {
      ghost var start := Shown();
      var j := 0;
      while j < height
        invariant 0 <= j && (j <= height || j == 0)
        invariant Shown() == Paint(start, Rect(cx, y, 1, j), Truthy(color))
      {
        ghost var before := Shown();
        DrawPixel(cx, y + j, color);
        assert Shown() == Paint(before, iset{Point(cx, y + j)}, Truthy(color));
        ColumnGrows(cx, y, j);
        Grow(start, Rect(cx, y, 1, j), iset{Point(cx, y + j)}, Rect(cx, y, 1, j + 1), Truthy(color));
        j := j + 1;
      }
    }

    /**
     * draw_text of the Space Invaders drivers: character i, column j, bit b
     * goes to (x + 6i + j, y + b) in colour `(byte >> b) & 1`.
     */
    method DrawText(text: string, x: int, y: int)
      requires Valid()
      modifies buffer
      ensures Shown() == Blit(old(Shown()), TextBox(text, x, y), TextInk(text, x, y))
    {
      ghost var start := Shown();
      ghost var gs := TextGlyphs(text);
      CellsDoneEnds(gs, x, y);
      var i := 0;
      while i < |text|
        invariant 0 <= i <= |text|
        invariant Shown() == Blit(start, CellsDone(gs, x, y, i, 0, 0), CellInk(gs, x, y))
      {
        var charData := GetCharData(text[i]);
        DrawTextChar(gs, x, y, i, charData, start);
        CellsDoneChar(gs, x, y, i);
        i := i + 1;
      }
    }

    /** The loop over the columns of glyph i in draw_text. */
    method DrawTextChar(ghost gs: seq<seq<bv8>>, x: int, y: int, i: nat, charData: seq<bv8>, ghost start: iset<Point>)
      requires Valid() && i < |gs| && charData == gs[i] && |charData| <= 5
      requires Shown() == Blit(start, CellsDone(gs, x, y, i, 0, 0), CellInk(gs, x, y))
      modifies buffer
      ensures Shown() == Blit(start, CellsDone(gs, x, y, i, |charData|, 0), CellInk(gs, x, y))
    {
      var j := 0;
      while j < |charData|
        invariant 0 <= j <= |charData|
        invariant Shown() == Blit(start, CellsDone(gs, x, y, i, j, 0), CellInk(gs, x, y))
      {
        DrawTextBits(gs, x, y, i, j, charData[j], start);
        CellsDoneColumn(gs, x, y, i, j);
        j := j + 1;
      }
    }

    /** The loop over the eight bits of column j of glyph i in draw_text. */
    method DrawTextBits(ghost gs: seq<seq<bv8>>, x: int, y: int, i: nat, j: nat, byte: bv8, ghost start: iset<Point>)
      requires Valid() && i < |gs| && j < |gs[i]| && j < 6 && byte == gs[i][j]
      requires Shown() == Blit(start, CellsDone(gs, x, y, i, j, 0), CellInk(gs, x, y))
      modifies buffer
      ensures Shown() == Blit(start, CellsDone(gs, x, y, i, j, 8), CellInk(gs, x, y))
    {
      var bit := 0;
      while bit < 8
        invariant 0 <= bit <= 8
        invariant Shown() == Blit(start, CellsDone(gs, x, y, i, j, bit), CellInk(gs, x, y))
      {
        DrawTextBit(gs, x, y, i, j, bit, byte, start);
        bit := bit + 1;
      }
    }

    /** One pass of the bit loop of draw_text. */
    method DrawTextBit(ghost gs: seq<seq<bv8>>, x: int, y: int, i: nat, j: nat, bit: nat, byte: bv8, ghost start: iset<Point>)
      requires Valid() && i < |gs| && j < |gs[i]| && j < 6 && byte == gs[i][j] && bit < 8
      requires Shown() == Blit(start, CellsDone(gs, x, y, i, j, bit), CellInk(gs, x, y))
      modifies buffer
      ensures Shown() == Blit(start, CellsDone(gs, x, y, i, j, bit + 1), CellInk(gs, x, y))
    {
      var color := ShiftBit(byte, bit) as int;
      ghost var before := Shown();
      var p := Point(x + i * 6 + j, y + bit);
      TextBitStep(start, before, gs, x, y, i, j, bit, Truthy(color));
      assert Paint(before, iset{p}, Truthy(color)) == Blit(start, CellsDone(gs, x, y, i, j, bit + 1), CellInk(gs, x, y));
      DrawPixel(p.x, p.y, color);
      assert Shown() == Paint(before, iset{p}, Truthy(color));
    }

    /**
     * draw_text of the clock driver: each character the font knows paints
     * its set bits as size x size blocks and moves the cursor 6*size
     * right; other characters are skipped.
     */
    method DrawTextScaled(x: int, y: int, text: string, size: int, color: int)
      requires Valid()
      modifies buffer
      ensures Shown() == Paint(old(Shown()), ScaledText(text, x, y, size), Truthy(color))
    {
      ghost var start := Shown();
      var cx := x;
      var n := 0;
      assert text[..0] == [];
      while n < |text|
        invariant 0 <= n <= |text|
        invariant cx == x + 6 * size * Known(text[..n])
        invariant Shown() == Paint(start, ScaledText(text[..n], x, y, size), Truthy(color))
      {
        ghost var done := ScaledText(text[..n], x, y, size);
        ghost var shape := CharShape(text[n], cx, y, size);
        ScaledTextSnoc(text, x, y, size, n);
        assert ScaledText(text[..n + 1], x, y, size) == done + shape;
        match ClockFont(text[n]) {
          case Some(charData) =>
            assert shape == GlyphShape(charData, cx, y, size);
            DrawGlyph(charData, cx, y, size, color, start, done);
            Advance(size, Known(text[..n]));
            cx := cx + 6 * size;
          case None =>
            assert done + shape == done;
        }
        n := n + 1;
      }
      assert text[..n] == text;
    }

    /** The column and bit loops of the clock's draw_text for one glyph; the size x size block is draw_rect's loop. */
    method DrawGlyph(charData: seq<bv8>, cx: int, y: int, size: int, color: int,
                     ghost start: iset<Point>, ghost done: iset<Point>)
      requires Valid()
      requires Shown() == Paint(start, done, Truthy(color))
      modifies buffer
      ensures Shown() == Paint(start, done + GlyphShape(charData, cx, y, size), Truthy(color))
    {
      ghost var on := Truthy(color);
      GlyphPartEmpty(charData, cx, y, size);
      assert done + GlyphPart(charData, cx, y, size, 0, 0) == done;
      var i := 0;
      while i < |charData|
        invariant 0 <= i <= |charData|
        invariant Shown() == Paint(start, done + GlyphPart(charData, cx, y, size, i, 0), on)
      {
        var line := charData[i];
        var j := 0;
        while j < 8
          invariant 0 <= j <= 8
          invariant Shown() == Paint(start, done + GlyphPart(charData, cx, y, size, i, j), on)
        {
          var pixel := ShiftBit(line, j);
          GlyphBit(charData, cx, y, size, i, j);
          if pixel != 0 {
            DrawRect(cx + i * size, y + j * size, size, size, color);
            Grow(start, done + GlyphPart(charData, cx, y, size, i, j), Rect(cx + i * size, y + j * size, size, size),
                 done + GlyphPart(charData, cx, y, size, i, j + 1), on);
          }
          j := j + 1;
        }
        GlyphPartColumn(charData, cx, y, size, i);
        i := i + 1;
      }
    }

    /** draw_ball: the filled disc of radius `size` about (x, y), in one colour. */
    method DrawBall(x: int, y: int, size: int, color: int)
      requires Valid()
      modifies buffer
      ensures Shown() == Paint(old(Shown()), Disc(x, y, size), Truthy(color))
    {
      ghost var start := Shown();
      DiscStart(x, y, size);
      var i := -size;
      while i < size + 1
        invariant -size <= i && (i <= size + 1 || i == -size)
        invariant Shown() == Paint(start, DiscDone(x, y, size, i, -size), Truthy(color))
      {
        DrawDiscRow(x, y, size, i, color, start);
        DiscRow(x, y, size, i);
        i := i + 1;
      }
      DiscAll(x, y, size, i);
    }

    /** The inner loop of draw_ball: offsets (i, -size) .. (i, size) that pass the circle test. */
    method DrawDiscRow(x: int, y: int, size: int, i: int, color: int, ghost start: iset<Point>)
      requires Valid() && -size <= i <= size
      requires Shown() == Paint(start, DiscDone(x, y, size, i, -size), Truthy(color))
      modifies buffer
      ensures Shown() == Paint(start, DiscDone(x, y, size, i, size + 1), Truthy(color))
    {
      var j := -size;
      while j < size + 1
        invariant -size <= j <= size + 1
        invariant Shown() == Paint(start, DiscDone(x, y, size, i, j), Truthy(color))
      {
        DrawDiscPoint(x, y, size, i, j, color, start);
        j := j + 1;
      }
    }

    /** One pass of draw_ball's inner loop: offset (i, j) is drawn when it passes the circle test. */
    method DrawDiscPoint(x: int, y: int, size: int, i: int, j: int, color: int, ghost start: iset<Point>)
      requires Valid() && -size <= i <= size && -size <= j <= size
      requires Shown() == Paint(start, DiscDone(x, y, size, i, j), Truthy(color))
      modifies buffer
      ensures Shown() == Paint(start, DiscDone(x, y, size, i, j + 1), Truthy(color))
    {
      DiscStep(x, y, size, i, j);
      if InCircle(i, j, size) {
        ghost var before := Shown();
        var p := Point(x + i, y + j);
        Grow(start, DiscDone(x, y, size, i, j), iset{p}, DiscDone(x, y, size, i, j + 1), Truthy(color));
        DrawPixel(p.x, p.y, color);
        assert Shown() == Paint(before, iset{p}, Truthy(color));
      }
    }

    /** One pass of draw_line's loop: point k of the line is plotted after points 0..k-1. */
    method PlotNext(x: int, y: int, color: int, ghost start: iset<Point>, ghost pts: seq<Point>, ghost k: nat)
      requires Valid() && k < |pts| && pts[k] == Point(x, y)
      requires Shown() == Paint(start, PointSet(pts[..k]), Truthy(color))
      modifies buffer
      ensures Shown() == Paint(start, PointSet(pts[..k + 1]), Truthy(color))
    {
      ghost var before := Shown();
      DrawPixel(x, y, color);
      assert Shown() == Paint(before, iset{Point(x, y)}, Truthy(color));
      PointSetSnoc(pts, k);
      Grow(start, PointSet(pts[..k]), iset{Point(x, y)}, PointSet(pts[..k + 1]), Truthy(color));
    }

    /** draw_line: Bresenham's loop, plotting exactly the points of `LinePoints`. */
    method DrawLine(x0: int, y0: int, x1: int, y1: int, color: int)
      requires Valid()
      modifies buffer
      ensures Shown() == Paint(old(Shown()), PointSet(LinePoints(x0, y0, x1, y1)), Truthy(color))
    {
      ghost var start := Shown();
      ghost var l := Setup(x0, y0, x1, y1);
      ghost var pts := LinePoints(x0, y0, x1, y1);
      ghost var cs := LineCursors(x0, y0, x1, y1);
      var dx: int := Abs(x1 - x0);
      var dy: int := Abs(y1 - y0);
      var sx := if x0 < x1 then 1 else -1;
      var sy := if y0 < y1 then 1 else -1;
      var err := dx - dy;
      var x, y := x0, y0;
      ghost var k := 0;
      var line := Line(x1, y1, dx, dy, sx, sy);
      assert line == l;
      LinePass(x0, y0, x1, y1, 0);
      assert pts[..0] == [];
      while true
        invariant 0 <= k < |cs| && cs[k] == Cursor(x, y, err) && line == l
        invariant Shown() == Paint(start, PointSet(pts[..k]), Truthy(color))
        decreases |cs| - k
      {
        LinePass(x0, y0, x1, y1, k);
        PlotNext(x, y, color, start, pts, k);
        if x == x1 && y == y1 {
          assert pts[..k + 1] == pts;
          break;
        }
        x, y, err := StepCursor(line, x, y, err);
        k := k + 1;
      }
    }
  }
}
