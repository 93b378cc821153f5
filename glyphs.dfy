/**
 * Where the drivers' text routines put their pixels.
 *
 * draw_text of the Space Invaders drivers redraws a whole 5x8 cell per
 * glyph column: pixel (x + 6i + j, y + b) takes bit b of column j of
 * character i, so clear bits erase. `TextBox` is the region it redraws and
 * `TextInk` the part of it that ends up lit.
 *
 * draw_text of the clock driver looks each character up case-sensitively,
 * skips characters it does not know without advancing, and paints only the
 * set bits, each as a size x size block. `ScaledText` is the set it
 * paints.
 */
module Glyphs {
  import opened Wrappers
  import opened Pixels
  import opened Fonts

  /** Whether bit k of b is set, computed the way draw_text does: `(b >> k) & 1`. */
  lemma ShiftedBit(b: bv8, k: nat)
    requires k < 8
    ensures (((b >> k) & 1) as int != 0) == BitSet(b, k)
    ensures ((b >> k) & 1 != 0) == BitSet(b, k)
  {
    match k
    case 0 =>
    case 1 =>
    case 2 =>
    case 3 =>
    case 4 =>
    case 5 =>
    case 6 =>
    case _ =>
  }

  /** `(b >> k) & 1`, the bit draw_text tests. */
  function ShiftBit(b: bv8, k: nat): (v: bv8)
    requires k < 8
    ensures (v != 0) == BitSet(b, k) && (v as int != 0) == BitSet(b, k)
  {
    ShiftedBit(b, k);
    (b >> k) & 1
  }

  /*
   * Fixed-size text.
   */

  /** The glyph draw_text looks up for every character of text. */
  function TextGlyphs(text: string): (gs: seq<seq<bv8>>)
    ensures |gs| == |text|
    ensures forall k :: 0 <= k < |text| ==> gs[k] == GetCharData(text[k])
  {
    if text == [] then [] else [GetCharData(text[0])] + TextGlyphs(text[1..])
  }

  /** Whether p is row p.y - y of column (p.x - x) % 6 of glyph (p.x - x) / 6 of gs. */
  ghost predicate InCells(gs: seq<seq<bv8>>, x: int, y: int, p: Point)
  {
    var off := p.x - x;
    0 <= off && off / 6 < |gs| && off % 6 < |gs[off / 6]| && 0 <= p.y - y < 8
  }

  /** The pixels glyphs gs cover when drawn 6 columns apart from (x, y). */
  ghost function CellBox(gs: seq<seq<bv8>>, x: int, y: int): iset<Point>
  {
    iset p | InCells(gs, x, y, p)
  }

  /** The part of CellBox whose glyph bit is set. */
  ghost function CellInk(gs: seq<seq<bv8>>, x: int, y: int): iset<Point>
  {
    iset p | InCells(gs, x, y, p) && BitSet(gs[(p.x - x) / 6][(p.x - x) % 6], p.y - y)
  }

  /** Whether (ci, cj, cb) comes before (i, j, b) in draw_text's loop order. */
  predicate Before(ci: int, cj: int, cb: int, i: int, j: int, b: int)
  {
    ci < i || (ci == i && (cj < j || (cj == j && cb < b)))
  }

  /** The pixels draw_text has drawn before it reaches glyph i, column j, bit b. */
  ghost function CellsDone(gs: seq<seq<bv8>>, x: int, y: int, i: int, j: int, b: int): iset<Point>
  {
    iset p | InCells(gs, x, y, p) && Before((p.x - x) / 6, (p.x - x) % 6, p.y - y, i, j, b)
  }

  /** The region draw_text redraws for text at (x, y). */
  ghost function TextBox(text: string, x: int, y: int): iset<Point>
  {
    CellBox(TextGlyphs(text), x, y)
  }

  /** The part of TextBox that draw_text lights. */
  ghost function TextInk(text: string, x: int, y: int): iset<Point>
  {
    CellInk(TextGlyphs(text), x, y)
  }

  /** Column j of glyph i is at offset 6i + j. */
  lemma CellOffset(i: int, j: int)
    requires 0 <= j < 6
    ensures (i * 6 + j) / 6 == i && (i * 6 + j) % 6 == j
  {
  }

  /** Drawing bit b of column j of glyph i adds exactly that pixel, in the ink's colour. */
  lemma CellsDoneBit(gs: seq<seq<bv8>>, x: int, y: int, i: nat, j: nat, b: nat)
    requires i < |gs| && j < |gs[i]| && j < 6 && b < 8
    ensures CellsDone(gs, x, y, i, j, b) + iset{Point(x + i * 6 + j, y + b)} == CellsDone(gs, x, y, i, j, b + 1)
    ensures Point(x + i * 6 + j, y + b) in CellInk(gs, x, y) <==> BitSet(gs[i][j], b)
  {
    var p := Point(x + i * 6 + j, y + b);
    CellOffset(i, j);
    assert InCells(gs, x, y, p);
  }

  lemma CellsDoneColumn(gs: seq<seq<bv8>>, x: int, y: int, i: nat, j: nat)
    ensures CellsDone(gs, x, y, i, j, 8) == CellsDone(gs, x, y, i, j + 1, 0)
  {
  }

  lemma CellsDoneChar(gs: seq<seq<bv8>>, x: int, y: int, i: nat)
    requires i < |gs| && |gs[i]| <= 6
    ensures CellsDone(gs, x, y, i, |gs[i]|, 0) == CellsDone(gs, x, y, i + 1, 0, 0)
  {
  }

  lemma CellsDoneEnds(gs: seq<seq<bv8>>, x: int, y: int)
    ensures CellsDone(gs, x, y, 0, 0, 0) == iset{}
    ensures CellsDone(gs, x, y, |gs|, 0, 0) == CellBox(gs, x, y)
  {
  }

  /**
   * What draw_text leaves at one pixel: in its box, the pixel of character
   * i, column j, row b is lit exactly when bit b of that glyph column is
   * set (clear bits erase); outside the box nothing changes.
   */
  lemma TextPixel(lit: iset<Point>, text: string, x: int, y: int, i: nat, j: nat, b: nat)
    requires i < |text| && j < |GetCharData(text[i])| && b < 8
    requires OnScreen(Point(x + i * 6 + j, y + b))
    ensures Point(x + i * 6 + j, y + b) in Blit(lit, TextBox(text, x, y), TextInk(text, x, y))
        <==> BitSet(GetCharData(text[i])[j], b)
  {
    var gs := TextGlyphs(text);
    CellsDoneBit(gs, x, y, i, j, b);
  }

  lemma TextOutside(lit: iset<Point>, text: string, x: int, y: int, p: Point)
    requires p !in TextBox(text, x, y)
    ensures p in Blit(lit, TextBox(text, x, y), TextInk(text, x, y)) <==> p in lit
  {
  }

  /** Characters sit 6 columns apart and glyphs are at most 5 wide, so the last column of every cell is never drawn. */
  lemma TextGap(text: string, x: int, y: int, p: Point)
    requires (p.x - x) % 6 == 5
    ensures p !in TextBox(text, x, y)
  {
  }

  /*
   * Scaled text.
   */

  /** Whether p lies in a set-bit block of glyph g drawn at (gx, y) with block size `size`, up to column i, bit j. */
  ghost predicate InGlyphPart(g: seq<bv8>, gx: int, y: int, size: int, i: int, j: int, p: Point)
  {
    size > 0 && 0 <= p.x - gx && 0 <= p.y - y < 8 * size &&
    var col, row := (p.x - gx) / size, (p.y - y) / size;
    col < |g| && BitSet(g[col], row) && (col < i || (col == i && row < j))
  }

  ghost function GlyphPart(g: seq<bv8>, gx: int, y: int, size: int, i: int, j: int): iset<Point>
  {
    iset p | InGlyphPart(g, gx, y, size, i, j, p)
  }

  /** Every set bit of g, as a size x size block. */
  ghost function GlyphShape(g: seq<bv8>, gx: int, y: int, size: int): iset<Point>
  {
    GlyphPart(g, gx, y, size, |g|, 0)
  }

  /** How many characters of `text` the clock font knows. */
  function Known(text: string): (n: nat)
    ensures n <= |text|
  {
    if text == [] then 0
    else Known(text[..|text| - 1]) + (if ClockFont(text[|text| - 1]).Some? then 1 else 0)
  }

  /** What the clock's draw_text paints: each known glyph at x advanced 6*size per known character before it. */
  ghost function ScaledText(text: string, x: int, y: int, size: int): iset<Point>
  {
    if text == [] then iset{}
    else
      var front, c := text[..|text| - 1], text[|text| - 1];
      ScaledText(front, x, y, size) + CharShape(c, x + 6 * size * Known(front), y, size)
  }

  /** One character of the clock's draw_text at cursor cx: its glyph, or nothing when the font lacks it. */
  ghost function CharShape(c: char, cx: int, y: int, size: int): iset<Point>
  {
    match ClockFont(c)
    case Some(g) => GlyphShape(g, cx, y, size)
    case None => iset{}
  }

  lemma MulMono(a: int, b: int, k: int)
    requires a <= b && 0 <= k
    ensures a * k <= b * k
  {
    assert b * k - a * k == (b - a) * k;
  }

  lemma DivBlock(n: int, q: int, size: int)
    requires size > 0 && q * size <= n < q * size + size
    ensures n / size == q
  {
    var d := n / size;
    assert d * size <= n < d * size + size;
    assert (q + 1) * size == q * size + size && (d + 1) * size == d * size + size;
    if d > q {
      MulMono(q + 1, d, size);
    } else if d < q {
      MulMono(d + 1, q, size);
    }
  }

  lemma BlockOfDiv(n: int, size: int)
    requires size > 0
    ensures (n / size) * size <= n < (n / size) * size + size
  {
  }

  /** The block of column i, bit j: painted exactly when the bit is set. */
  lemma GlyphPartStep(g: seq<bv8>, gx: int, y: int, size: int, i: nat, j: nat)
    requires size > 0 && i < |g| && j < 8
    ensures GlyphPart(g, gx, y, size, i, j + 1)
         == GlyphPart(g, gx, y, size, i, j) + (if BitSet(g[i], j) then Rect(gx + i * size, y + j * size, size, size) else iset{})
  {
    var before, after := GlyphPart(g, gx, y, size, i, j), GlyphPart(g, gx, y, size, i, j + 1);
    var block := if BitSet(g[i], j) then Rect(gx + i * size, y + j * size, size, size) else iset{};
    forall p | p in block
      ensures p in after
    {
      DivBlock(p.x - gx, i, size);
      DivBlock(p.y - y, j, size);
      assert j * size + size <= 8 * size;
    }
    forall p | p in after && p !in before
      ensures p in block
    {
      BlockOfDiv(p.x - gx, size);
      BlockOfDiv(p.y - y, size);
    }
  }

  /** The size x size block of column i, bit j is painted exactly when that bit is set (nothing for size <= 0). */
  lemma GlyphBit(g: seq<bv8>, gx: int, y: int, size: int, i: nat, j: nat)
    requires i < |g| && j < 8
    ensures BitSet(g[i], j) ==>
      GlyphPart(g, gx, y, size, i, j) + Rect(gx + i * size, y + j * size, size, size) == GlyphPart(g, gx, y, size, i, j + 1)
    ensures !BitSet(g[i], j) ==> GlyphPart(g, gx, y, size, i, j) == GlyphPart(g, gx, y, size, i, j + 1)
  {
    if size > 0 {
      GlyphPartStep(g, gx, y, size, i, j);
    } else {
      assert Rect(gx + i * size, y + j * size, size, size) == iset{};
    }
  }

  lemma GlyphPartColumn(g: seq<bv8>, gx: int, y: int, size: int, i: nat)
    ensures GlyphPart(g, gx, y, size, i, 8) == GlyphPart(g, gx, y, size, i + 1, 0)
  {
    forall p | p in GlyphPart(g, gx, y, size, i + 1, 0)
      ensures p in GlyphPart(g, gx, y, size, i, 8)
    {
      BlockOfDiv(p.y - y, size);
    }
  }

  lemma GlyphPartEmpty(g: seq<bv8>, gx: int, y: int, size: int)
    ensures GlyphPart(g, gx, y, size, 0, 0) == iset{}
  {
  }

  /** A size of 0 or less paints nothing, as `range(size)` is empty. */
  lemma NoSize(g: seq<bv8>, gx: int, y: int, size: int)
    requires size <= 0
    ensures GlyphShape(g, gx, y, size) == iset{}
  {
  }

  /** Painting text and then one more character extends the shape by that character's glyph. */
  lemma ScaledTextSnoc(text: string, x: int, y: int, size: int, n: nat)
    requires n < |text|
    ensures ScaledText(text[..n + 1], x, y, size)
         == ScaledText(text[..n], x, y, size) + CharShape(text[n], x + 6 * size * Known(text[..n]), y, size)
    ensures Known(text[..n + 1]) == Known(text[..n]) + (if ClockFont(text[n]).Some? then 1 else 0)
  {
    assert text[..n + 1][..n] == text[..n];
  }

  /** The known characters of `text`, in order. */
  function KnownOnly(text: string): (k: string)
    ensures |k| == Known(text)
    ensures forall c :: c in k ==> ClockFont(c).Some?
  {
    if text == [] then []
    else
      var front, c := text[..|text| - 1], text[|text| - 1];
      KnownOnly(front) + (if ClockFont(c).Some? then [c] else [])
  }

  /** A character the font lacks is skipped: it draws nothing and does not advance the cursor. */
  lemma {:induction false} UnknownSkipped(text: string, x: int, y: int, size: int)
    ensures ScaledText(text, x, y, size) == ScaledText(KnownOnly(text), x, y, size)
    decreases |text|
  {
    if text != [] {
      var front, c := text[..|text| - 1], text[|text| - 1];
      var n := Known(front);
      var k := KnownOnly(front);
      ScaledSnoc(text, front, c, n, x, y, size);
      UnknownSkipped(front, x, y, size);
      if ClockFont(c).Some? {
        KnownOnlyKnown(k);
        ScaledSnoc(KnownOnly(text), k, c, n, x, y, size);
        Rejoin(ScaledText(text, x, y, size), ScaledText(KnownOnly(text), x, y, size),
               ScaledText(front, x, y, size), ScaledText(k, x, y, size), CharShape(c, x + 6 * size * n, y, size));
      } else {
        Rejoin(ScaledText(text, x, y, size), ScaledText(KnownOnly(text), x, y, size),
               ScaledText(front, x, y, size), ScaledText(k, x, y, size), CharShape(c, x + 6 * size * n, y, size));
      }
    }
  }

  /** Equal parts make equal unions. */
  lemma Rejoin(whole: iset<Point>, whole2: iset<Point>, part: iset<Point>, part2: iset<Point>, added: iset<Point>)
    requires whole == part + added && part == part2
    requires whole2 == part2 + added || (added == iset{} && whole2 == part2)
    ensures whole == whole2
  {
  }

  /** The last character of t = front + [c] is drawn after the n known characters of front. */
  lemma ScaledSnoc(t: string, front: string, c: char, n: int, x: int, y: int, size: int)
    requires t == front + [c] && Known(front) == n
    ensures ScaledText(t, x, y, size) == ScaledText(front, x, y, size) + CharShape(c, x + 6 * size * n, y, size)
    ensures ClockFont(c).Some? ==> KnownOnly(t) == KnownOnly(front) + [c]
    ensures ClockFont(c).None? ==> KnownOnly(t) == KnownOnly(front) && CharShape(c, x + 6 * size * n, y, size) == iset{}
  {
    assert t[..|t| - 1] == front && t[|t| - 1] == c;
  }

  lemma {:induction false} KnownOnlyKnown(k: string)
    requires forall c :: c in k ==> ClockFont(c).Some?
    ensures Known(k) == |k|
  {
    if k != [] {
      assert k[..|k| - 1] + [k[|k| - 1]] == k;
      KnownOnlyKnown(k[..|k| - 1]);
    }
  }

  /** The characters the clock shows are all in its font: digits, ':' and '/'. */
  lemma ClockCharactersKnown(c: char)
    requires '0' <= c <= '9' || c == ':' || c == '/'
    ensures ClockFont(c).Some?
  {
  }
}
