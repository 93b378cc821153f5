/**
 * The clock demo (display_time_and_date): the time "HH:MM:SS" and the
 * date "MM/DD/YYYY" centred in text size 2, redrawn only where a
 * character changed. The clock readings are parameters.
 *
 * A character cell is 6*size columns by 8*size rows; a changed character
 * has its cell cleared to 0 before the whole line is drawn again, so an
 * unchanged character is painted over itself.
 */
module Clock {
  import opened Wrappers
  import opened Pixels
  import opened Bus
  import opened Ssd1306
  import opened Fonts
  import opened Glyphs
  import opened Driver
  import Rtc

  const TextSize := 2
  /** Eight characters centred. */
  const TimeX := (Width - 8 * 6 * TextSize) / 2
  /** Ten characters centred. */
  const DateX := (Width - 10 * 6 * TextSize) / 2
  const TimeY := Height / 4
  const DateY := TimeY + TextSize * 8 + 2

  lemma Layout()
    ensures TimeX == 16 && DateX == 4 && TimeY == 16 && DateY == 34
  {
  }

  /** What a line of clock text paints at (x, y) in text size `size`. */
  ghost function Line(text: string, x: int, y: int, size: int): iset<Point>
  {
    ScaledText(text, x, y, size)
  }

  /** What the screen shows for a time line and a date line. */
  ghost function Face(time: string, date: string): iset<Point>
  {
    (Line(time, TimeX, TimeY, TextSize) + Line(date, DateX, DateY, TextSize)) * Screen
  }

  /** Every character is in the clock font. */
  predicate AllKnown(text: string)
  {
    Known(text) == |text|
  }

  /** What strftime("%H:%M:%S") and strftime("%m/%d/%Y") are made of: digits, ':' and '/'. */
  predicate ClockText(text: string)
  {
    forall c :: c in text ==> '0' <= c <= '9' || c == ':' || c == '/'
  }

  /** The clock's own readings are drawn in full. */
  lemma {:induction false} ClockTextKnown(text: string)
    requires ClockText(text)
    ensures AllKnown(text)
  {
    if text != [] {
      var front := text[..|text| - 1];
      assert forall c :: c in front ==> c in text;
      ClockTextKnown(front);
      assert text[|text| - 1] in text;
      ClockCharactersKnown(text[|text| - 1]);
    }
  }

  /** strftime("%H:%M:%S") and strftime("%m/%d/%Y") of a valid time are clock text, and so drawn in full. */
  lemma StrftimeIsClockText(t: Rtc.DateTime)
    requires Rtc.Valid(t) && t.year >= 1000
    ensures ClockText(Rtc.TimeString(t)) && ClockText(Rtc.DateString(t))
    ensures AllKnown(Rtc.TimeString(t)) && AllKnown(Rtc.DateString(t))
  {
    Rtc.StringsAreDigits(t);
    ClockTextKnown(Rtc.TimeString(t));
    ClockTextKnown(Rtc.DateString(t));
  }

  /** Character cell i of a line at (x, y): 6*size columns by 8*size rows. */
  ghost function Cell(x: int, y: int, size: int, i: int): iset<Point>
  {
    Rect(x + 6 * size * i, y, 6 * size, 8 * size)
  }

  /** Position i of the previous text must be cleared: the new text is shorter or differs there. */
  predicate Stale(prev: string, next: string, i: int)
  {
    0 <= i < |prev| && (i >= |next| || next[i] != prev[i])
  }

  /** The cells of positions 0..n-1 of prev that are cleared. */
  ghost function Erased(prev: string, next: string, x: int, y: int, size: int, n: nat): iset<Point>
    requires n <= |prev|
  {
    if n == 0 then iset{}
    else Erased(prev, next, x, y, size, n - 1) + (if Stale(prev, next, n - 1) then Cell(x, y, size, n - 1) else iset{})
  }

  /** The cell, counted from x, that column px falls in. */
  function CellOf(x: int, px: int, size: int): (k: int)
    requires size > 0
    ensures px >= x ==> k >= 0
  {
    (px - x) / (6 * size)
  }

  /** Column px lies in cell i exactly when it is within the cell's 6*size columns. */
  lemma CellColumns(x: int, px: int, size: int, i: int)
    requires size > 0 && x + 6 * size * i <= px < x + 6 * size * i + 6 * size
    ensures CellOf(x, px, size) == i
  {
    assert 6 * size * i == i * (6 * size);
    DivBlock(px - x, i, 6 * size);
  }

  /** A five-column glyph drawn at cell i lies within cell i. */
  lemma GlyphInCell(g: seq<bv8>, x: int, y: int, size: int, i: int, p: Point)
    requires |g| == 5 && p in GlyphShape(g, x + 6 * size * i, y, size)
    ensures size > 0 && p in Cell(x, y, size, i) && CellOf(x, p.x, size) == i
  {
    var cx := x + 6 * size * i;
    assert InGlyphPart(g, cx, y, size, |g|, 0, p);
    var col := (p.x - cx) / size;
    BlockOfDiv(p.x - cx, size);
    MulMono(col + 1, 5, size);
    assert (col + 1) * size == col * size + size;
    CellColumns(x, p.x, size, i);
  }

  /** The five columns the clock font draws for c (blank for a character it lacks, which is never drawn). */
  function Glyph(c: char): (g: seq<bv8>)
    ensures |g| == 5
    ensures ClockFont(c).Some? ==> ClockFont(c) == Some(g)
  {
    match ClockFont(c)
    case Some(g) => g
    case None => [0, 0, 0, 0, 0]
  }

  /** Every glyph five columns wide. */
  predicate FiveWide(gs: seq<seq<bv8>>)
  {
    forall i :: 0 <= i < |gs| ==> |gs[i]| == 5
  }

  /** The glyphs of a text, one per character. */
  function GlyphRow(text: string): (gs: seq<seq<bv8>>)
    ensures |gs| == |text| && FiveWide(gs)
  {
    seq(|text|, i requires 0 <= i < |text| => Glyph(text[i]))
  }

  /** Glyph i of gs in cell i, for every i. */
  ghost function LineOf(gs: seq<seq<bv8>>, x: int, y: int, size: int): iset<Point>
  {
    if gs == [] then iset{}
    else LineOf(gs[..|gs| - 1], x, y, size) + GlyphShape(gs[|gs| - 1], x + 6 * size * (|gs| - 1), y, size)
  }

  /** The front of a text of known characters is known, and so is its last character. */
  lemma KnownFront(text: string)
    requires text != [] && AllKnown(text)
    ensures AllKnown(text[..|text| - 1]) && ClockFont(text[|text| - 1]).Some?
  {
  }

  /** A known character draws its glyph. */
  lemma CharGlyph(c: char, cx: int, y: int, size: int, p: Point)
    requires ClockFont(c).Some?
    ensures p in CharShape(c, cx, y, size) <==> p in GlyphShape(Glyph(c), cx, y, size)
  {
  }

  /** The last character of a line of known characters is drawn in cell |text| - 1. */
  lemma LineSnoc(text: string, x: int, y: int, size: int, p: Point)
    requires text != [] && AllKnown(text)
    ensures p in Line(text, x, y, size) <==>
      p in Line(text[..|text| - 1], x, y, size) || p in CharShape(text[|text| - 1], x + 6 * size * (|text| - 1), y, size)
  {
    KnownFront(text);
  }

  lemma LineOfSnoc(gs: seq<seq<bv8>>, x: int, y: int, size: int, p: Point)
    requires gs != []
    ensures p in LineOf(gs, x, y, size) <==>
      p in LineOf(gs[..|gs| - 1], x, y, size) || p in GlyphShape(gs[|gs| - 1], x + 6 * size * (|gs| - 1), y, size)
  {
  }

  /** A line of known characters lights the pixels of their glyphs, each in its own cell. */
  lemma {:induction false} LineGlyphs(text: string, x: int, y: int, size: int, p: Point)
    requires AllKnown(text)
    ensures p in Line(text, x, y, size) <==> p in LineOf(GlyphRow(text), x, y, size)
  {
    if text != [] {
      var front, c := text[..|text| - 1], text[|text| - 1];
      var gs := GlyphRow(text);
      KnownFront(text);
      LineGlyphs(front, x, y, size, p);
      LineSnoc(text, x, y, size, p);
      CharGlyph(c, x + 6 * size * (|text| - 1), y, size, p);
      LineOfSnoc(gs, x, y, size, p);
      assert gs[..|gs| - 1] == GlyphRow(front);
    }
  }

  /** A pixel of a line of glyphs belongs to the glyph of the cell it falls in. */
  lemma {:induction false} LineAt(gs: seq<seq<bv8>>, x: int, y: int, size: int, p: Point)
    requires size > 0 && FiveWide(gs)
    ensures p in LineOf(gs, x, y, size) <==>
      p.x >= x && CellOf(x, p.x, size) < |gs| &&
      p in GlyphShape(gs[CellOf(x, p.x, size)], x + 6 * size * CellOf(x, p.x, size), y, size)
    decreases |gs|
  {
    if gs != [] {
      var front, g := gs[..|gs| - 1], gs[|gs| - 1];
      LineAt(front, x, y, size, p);
      LineOfSnoc(gs, x, y, size, p);
      var k := CellOf(x, p.x, size);
      if p in GlyphShape(g, x + 6 * size * |front|, y, size) {
        GlyphInCell(g, x, y, size, |front|, p);
      } else if p.x >= x && k < |front| {
        assert gs[k] == front[k];
      }
    }
  }

  /** A cleared pixel lies in the cell of a stale position. */
  lemma {:induction false} ErasedAt(prev: string, next: string, x: int, y: int, size: int, n: nat, p: Point)
    requires size > 0 && n <= |prev|
    ensures p in Erased(prev, next, x, y, size, n) <==>
      p in Rect(x, y, 6 * size * n, 8 * size) && Stale(prev, next, CellOf(x, p.x, size))
  {
    if n > 0 {
      var k := n - 1;
      ErasedAt(prev, next, x, y, size, k, p);
      assert 6 * size * n == 6 * size * k + 6 * size;
      if p in Cell(x, y, size, k) {
        CellColumns(x, p.x, size, k);
        assert p !in Rect(x, y, 6 * size * k, 8 * size);
      } else {
        assert p in Rect(x, y, 6 * size * n, 8 * size) <==> p in Rect(x, y, 6 * size * k, 8 * size);
      }
    }
  }

  /** A line lies in the rows [y, y + 8*size). */
  lemma LineRows(text: string, x: int, y: int, size: int, p: Point)
    requires size > 0 && AllKnown(text) && p in Line(text, x, y, size)
    ensures y <= p.y < y + 8 * size
  {
    LineGlyphs(text, x, y, size, p);
    var gs := GlyphRow(text);
    LineAt(gs, x, y, size, p);
    GlyphInCell(gs[CellOf(x, p.x, size)], x, y, size, CellOf(x, p.x, size), p);
  }

  /** One line of display_time_and_date: when the text changed, its stale cells are cleared and the new text drawn. */
  ghost function Redrawn(lit: iset<Point>, prev: string, next: string, x: int, y: int, size: int): iset<Point>
  {
    if next != prev then Paint(Paint(lit, Erased(prev, next, x, y, size, |prev|), false), Line(next, x, y, size), true)
    else lit
  }

  /** Cell k of a text of n characters lies within the first n cells. */
  lemma CellWithin(x: int, y: int, size: int, k: nat, n: nat, p: Point)
    requires size > 0 && k < n && p in Cell(x, y, size, k)
    ensures p in Rect(x, y, 6 * size * n, 8 * size)
  {
    MulMono(k + 1, n, 6 * size);
    assert (k + 1) * (6 * size) == 6 * size * k + 6 * size;
    assert n * (6 * size) == 6 * size * n;
  }

  /**
   * A glyph pixel of the previous line that is not cleared is a glyph pixel
   * of the new line, when every position that is not stale keeps its glyph.
   */
  lemma KeptGlyph(gp: seq<seq<bv8>>, gn: seq<seq<bv8>>, prev: string, next: string, x: int, y: int, size: int, p: Point)
    requires size > 0 && FiveWide(gp) && FiveWide(gn) && |gp| == |prev|
    requires forall k :: 0 <= k < |prev| && !Stale(prev, next, k) ==> k < |gn| && gn[k] == gp[k]
    requires p in LineOf(gp, x, y, size) && p !in Erased(prev, next, x, y, size, |prev|)
    ensures p in LineOf(gn, x, y, size)
  {
    var k := CellOf(x, p.x, size);
    assert p.x >= x && k < |prev| && p in GlyphShape(gp[k], x + 6 * size * k, y, size) by {
      LineAt(gp, x, y, size, p);
    }
    assert !Stale(prev, next, k) by {
      GlyphInCell(gp[k], x, y, size, k, p);
      CellWithin(x, y, size, k, |prev|, p);
      ErasedAt(prev, next, x, y, size, |prev|, p);
    }
    LineAt(gn, x, y, size, p);
  }

  /** A pixel of the previous line that is not cleared is a pixel of the new line. */
  lemma Kept(prev: string, next: string, x: int, y: int, size: int, p: Point)
    requires size > 0 && AllKnown(prev) && AllKnown(next)
    requires p in Line(prev, x, y, size) && p !in Erased(prev, next, x, y, size, |prev|)
    ensures p in Line(next, x, y, size)
  {
    var gp, gn := GlyphRow(prev), GlyphRow(next);
    LineGlyphs(prev, x, y, size, p);
    LineGlyphs(next, x, y, size, p);
    forall k | 0 <= k < |prev| && !Stale(prev, next, k)
      ensures k < |gn| && gn[k] == gp[k]
    {
    }
    KeptGlyph(gp, gn, prev, next, x, y, size, p);
  }

  /**
   * Redrawing a line over the previous one leaves exactly the new line, and
   * anything outside the line's rows untouched.
   */
  lemma LineRedrawn(other: iset<Point>, prev: string, next: string, x: int, y: int, size: int)
    requires size > 0 && AllKnown(prev) && AllKnown(next)
    requires forall p :: p in other ==> p.y < y || p.y >= y + 8 * size
    ensures Redrawn((Line(prev, x, y, size) + other) * Screen, prev, next, x, y, size) == (Line(next, x, y, size) + other) * Screen
  {
    if next != prev {
      var erased := Erased(prev, next, x, y, size, |prev|);
      forall p | p in Line(prev, x, y, size) - erased
        ensures p in Line(next, x, y, size)
      {
        Kept(prev, next, x, y, size, p);
      }
      forall p | p in other
        ensures p !in erased
      {
        ErasedAt(prev, next, x, y, size, |prev|, p);
      }
    }
  }

  /** One pass of the loop, on the picture: the time line, then the date line. */
  ghost function Tick(lit: iset<Point>, prevTime: string, prevDate: string, time: string, date: string): iset<Point>
  {
    Redrawn(Redrawn(lit, prevTime, time, TimeX, TimeY, TextSize), prevDate, date, DateX, DateY, TextSize)
  }

  /** Redrawing only the changed characters turns the face of the previous reading into the face of the new one. */
  lemma TickShows(prevTime: string, prevDate: string, time: string, date: string)
    requires AllKnown(prevTime) && AllKnown(prevDate) && AllKnown(time) && AllKnown(date)
    ensures Tick(Face(prevTime, prevDate), prevTime, prevDate, time, date) == Face(time, date)
  {
    var size := TextSize;
    var t0, d0 := Line(prevTime, TimeX, TimeY, size), Line(prevDate, DateX, DateY, size);
    var t1, d1 := Line(time, TimeX, TimeY, size), Line(date, DateX, DateY, size);
    forall p | p in d0
      ensures p.y < TimeY || p.y >= TimeY + 8 * size
    {
      LineRows(prevDate, DateX, DateY, size, p);
    }
    LineRedrawn(d0, prevTime, time, TimeX, TimeY, size);
    forall p | p in t1
      ensures p.y < DateY || p.y >= DateY + 8 * size
    {
      LineRows(time, TimeX, TimeY, size, p);
    }
    assert d0 + t1 == t1 + d0;
    LineRedrawn(t1, prevDate, date, DateX, DateY, size);
    assert d1 + t1 == t1 + d1;
  }

  /** The blank screen is the face of two empty lines, the readings display_time_and_date starts from. */
  lemma BlankFace()
    ensures Face("", "") == iset{}
  {
    assert Line("", TimeX, TimeY, TextSize) == iset{};
    assert Line("", DateX, DateY, TextSize) == iset{};
  }

  /** Row j of a cell joins the j rows above it. */
  lemma RowDone(cx: int, y: int, w: int, j: int)
    requires 0 <= j
    ensures Rect(cx, y, w, j) + Rect(cx, y + j, w, 1) == Rect(cx, y, w, j + 1)
  {
  }

  /** Pixel k of a row joins the k pixels before it. */
  lemma RowGrows(cx: int, y: int, k: int)
    requires 0 <= k
    ensures Rect(cx, y, k, 1) + iset{Point(cx + k, y)} == Rect(cx, y, k + 1, 1)
  {
  }

  /** The j and k loops: pixel (cx + k, y + j) set to 0 for every row j < 8*size and column k < 6*size. */
  method ClearCell(oled: Display, cx: int, y: int, size: int)
    requires oled.Valid()
    modifies oled.buffer
    ensures oled.Shown() == Paint(old(oled.Shown()), Rect(cx, y, 6 * size, 8 * size), false)
  {
    ghost var start := oled.Shown();
    var width := 6 * size;
    var j := 0;
    while j < size * 8
      invariant 0 <= j && (j <= size * 8 || j == 0)
      invariant oled.Shown() == Paint(start, Rect(cx, y, width, j), false)
    {
      ClearRow(oled, cx, y + j, width);
      RowDone(cx, y, width, j);
      Grow(start, Rect(cx, y, width, j), Rect(cx, y + j, width, 1), Rect(cx, y, width, j + 1), false);
      j := j + 1;
    }
    assert size * 8 == 8 * size;
  }

  /** The k loop: pixels (cx + k, y) for k < width set to 0. */
  method ClearRow(oled: Display, cx: int, y: int, width: int)
    requires oled.Valid()
    modifies oled.buffer
    ensures oled.Shown() == Paint(old(oled.Shown()), Rect(cx, y, width, 1), false)
  {
    ghost var start := oled.Shown();
    var k := 0;
    while k < width
      invariant 0 <= k && (k <= width || k == 0)
      invariant oled.Shown() == Paint(start, Rect(cx, y, k, 1), false)
    {
      ghost var before := oled.Shown();
      oled.DrawPixel(cx + k, y, 0);
      assert oled.Shown() == Paint(before, iset{Point(cx + k, y)}, false);
      RowGrows(cx, y, k);
      Grow(start, Rect(cx, y, k, 1), iset{Point(cx + k, y)}, Rect(cx, y, k + 1, 1), false);
      k := k + 1;
    }
  }

  /** The clearing loop of one line: the cell of every stale position of prev goes to 0. */
  method EraseStale(oled: Display, prev: string, next: string, x: int, y: int, size: int)
    requires oled.Valid()
    modifies oled.buffer
    ensures oled.Shown() == Paint(old(oled.Shown()), Erased(prev, next, x, y, size, |prev|), false)
  {
    ghost var start := oled.Shown();
    var i := 0;
    while i < |prev|
      invariant 0 <= i <= |prev|
      invariant oled.Shown() == Paint(start, Erased(prev, next, x, y, size, i), false)
    {
      if i >= |next| || next[i] != prev[i] {
        var charX := x + i * 6 * size;
        assert charX == x + 6 * size * i;
        ClearCell(oled, charX, y, size);
        Grow(start, Erased(prev, next, x, y, size, i), Cell(x, y, size, i), Erased(prev, next, x, y, size, i + 1), false);
      }
      i := i + 1;
    }
  }

  /** One line: if the text changed, clear its stale cells and draw it again in colour 1. */
  method RedrawLine(oled: Display, prev: string, next: string, x: int, y: int, size: int)
    requires oled.Valid()
    modifies oled.buffer
    ensures oled.Shown() == Redrawn(old(oled.Shown()), prev, next, x, y, size)
  {
    if next != prev {
      EraseStale(oled, prev, next, x, y, size);
      oled.DrawTextScaled(x, y, next, size, 1);
    }
  }

  /** One pass of display_time_and_date's loop for a clock reading, ending in update_display. */
  method Refresh(oled: Display, prevTime: string, prevDate: string, time: string, date: string) returns (ok: bool)
    requires oled.Valid()
    modifies oled.buffer, oled.link.bus
    ensures oled.Shown() == Tick(old(oled.Shown()), prevTime, prevDate, time, date)
    ensures Sent(old(oled.link.bus.trace), oled.link.bus.trace, FlushFrames(oled.link.address, oled.buffer[..]), ok)
  {
    RedrawLine(oled, prevTime, time, TimeX, TimeY, TextSize);
    RedrawLine(oled, prevDate, date, DateX, DateY, TextSize);
    ok := oled.UpdateDisplay();
  }

  /**
   * display_time_and_date over a sequence of clock readings, from the
   * cleared screen: after every reading the screen shows exactly that
   * reading's time and date.
   */
  method DisplayTimeAndDate(oled: Display, readings: seq<(string, string)>) returns (ok: bool)
    requires oled.Valid() && oled.Shown() == iset{}
    requires forall i :: 0 <= i < |readings| ==> ClockText(readings[i].0) && ClockText(readings[i].1)
    modifies oled.buffer, oled.link.bus
    ensures ok && readings != [] ==> oled.Shown() == Face(readings[|readings| - 1].0, readings[|readings| - 1].1)
  {
    var prevTime, prevDate := "", "";
    BlankFace();
    ok := true;
    var n := 0;
    while n < |readings|
      invariant 0 <= n <= |readings| && oled.Valid()
      invariant ClockText(prevTime) && ClockText(prevDate)
      invariant oled.Shown() == Face(prevTime, prevDate)
      invariant n > 0 ==> prevTime == readings[n - 1].0 && prevDate == readings[n - 1].1
    {
      var timeText, dateText := readings[n].0, readings[n].1;
      ok := ShowReading(oled, prevTime, prevDate, timeText, dateText);
      if !ok {
        return;
      }
      prevTime, prevDate := timeText, dateText;
      n := n + 1;
    }
  }

  /** One pass of the loop: the face of the previous reading becomes the face of the new one, unless a write is refused. */
  method ShowReading(oled: Display, prevTime: string, prevDate: string, time: string, date: string) returns (ok: bool)
    requires oled.Valid() && ClockText(prevTime) && ClockText(prevDate) && ClockText(time) && ClockText(date)
    requires oled.Shown() == Face(prevTime, prevDate)
    modifies oled.buffer, oled.link.bus
    ensures oled.Valid()
    ensures ok ==> oled.Shown() == Face(time, date)
  {
    ClockTextKnown(prevTime);
    ClockTextKnown(prevDate);
    ClockTextKnown(time);
    ClockTextKnown(date);
    ok := Refresh(oled, prevTime, prevDate, time, date);
    TickShows(prevTime, prevDate, time, date);
  }
}
