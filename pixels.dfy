/**
 * The packed 1-bit framebuffer of a 128x64 SSD1306 panel: 8 pages of 128
 * column bytes, bit `y % 8` of byte `x + (y / 8) * 128` holding pixel (x, y)
 * (the GDDRAM page layout of section 8.7 of the SSD1306 datasheet).
 *
 * The abstract view of a buffer is the set of lit pixels, `Lit(s)`. Every
 * drawing routine of the drivers is specified by how it changes that set;
 * `LitDeterminesBuffer` shows that the set pins the bytes down exactly.
 */
module Pixels {

  const Width: int := 128
  const Height: int := 64
  const Pages: int := 8
  const BufferSize: int := 1024

  datatype Point = Point(x: int, y: int)

  predicate OnScreen(p: Point) {
    0 <= p.x < Width && 0 <= p.y < Height
  }

  /** Byte that holds pixel p. */
  function Index(p: Point): (i: int)
    requires OnScreen(p)
    ensures 0 <= i < BufferSize
  {
    p.x + (p.y / 8) * Width
  }

  /** The byte with only bit k set, `1 << k`. */
  function Mask(k: nat): bv8
    requires k < 8
  {
    match k
    case 0 => 0x01
    case 1 => 0x02
    case 2 => 0x04
    case 3 => 0x08
    case 4 => 0x10
    case 5 => 0x20
    case 6 => 0x40
    case _ => 0x80
  }

  lemma MaskIsShift(k: nat)
    requires k < 8
    ensures Mask(k) == 1 << k
  {
  }

  /** Whether bit k of a byte is set, i.e. `(b >> k) & 1 == 1`. */
  predicate BitSet(b: bv8, k: nat)
    requires k < 8
  {
    b & Mask(k) != 0
  }

  predicate PixelOn(s: seq<bv8>, p: Point)
    requires |s| == BufferSize && OnScreen(p)
  {
    BitSet(s[Index(p)], p.y % 8)
  }

  ghost const Screen: iset<Point> := iset p | OnScreen(p)

  /** The pixels a buffer shows lit. */
  ghost function Lit(s: seq<bv8>): iset<Point>
    requires |s| == BufferSize
  {
    iset p | OnScreen(p) && PixelOn(s, p)
  }

  /**
   * The picture after every on-screen pixel of `box` is redrawn: a redrawn
   * pixel is lit exactly when it belongs to `ink`; every other pixel keeps
   * its state. A loop that draws the pixels of a region one by one, each in
   * the colour `ink` gives it, has this effect whatever the order.
   */
  ghost function Blit(lit: iset<Point>, box: iset<Point>, ink: iset<Point>): iset<Point>
  {
    (lit - box) + (box * ink * Screen)
  }

  /** The ink of a single colour: everything (colour truthy) or nothing. */
  ghost function Solid(on: bool): iset<Point>
  {
    if on then Screen else iset{}
  }

  /**
   * Drawing every on-screen pixel of `shape` in one colour: colour 1 lights
   * them, colour 0 clears them, the rest of the screen keeps its state.
   */
  ghost function Paint(lit: iset<Point>, shape: iset<Point>, on: bool): iset<Point>
  {
    Blit(lit, shape, Solid(on))
  }

  /** The axis-aligned rectangle [x, x+w) x [y, y+h); empty when w <= 0 or h <= 0. */
  ghost function Rect(x: int, y: int, w: int, h: int): iset<Point>
  {
    iset p: Point | x <= p.x < x + w && y <= p.y < y + h
  }

  /** Python truthiness of a colour argument. */
  predicate Truthy(color: int) {
    color != 0
  }

  /**
   * draw_pixel on a buffer value: nothing happens off screen; otherwise the
   * pixel's bit is OR-ed in (colour truthy) or AND-ed out.
   */
  function SetPixel(s: seq<bv8>, p: Point, on: bool): (r: seq<bv8>)
    requires |s| == BufferSize
    ensures |r| == BufferSize
    ensures !OnScreen(p) ==> r == s
    ensures OnScreen(p) ==> forall i :: 0 <= i < BufferSize && i != Index(p) ==> r[i] == s[i]
  {
    if !OnScreen(p) then s
    else if on then s[Index(p) := s[Index(p)] | Mask(p.y % 8)]
    else s[Index(p) := s[Index(p)] & !Mask(p.y % 8)]
  }

  /** SetPixel is the one-byte update the drivers make: bit y % 8 of the pixel's byte, set or cleared. */
  lemma SetPixelByte(s: seq<bv8>, p: Point, on: bool, byte: bv8)
    requires |s| == BufferSize && OnScreen(p)
    requires byte == if on then s[Index(p)] | Mask(p.y % 8) else s[Index(p)] & !Mask(p.y % 8)
    ensures SetPixel(s, p, on) == s[Index(p) := byte]
  {
  }

  /** Two distinct on-screen pixels never share both byte and bit. */
  lemma IndexInjective(p: Point, q: Point)
    requires OnScreen(p) && OnScreen(q)
    requires Index(p) == Index(q) && p.y % 8 == q.y % 8
    ensures p == q
  {
    assert p.x == Index(p) % Width && q.x == Index(q) % Width;
    assert p.y / 8 == Index(p) / Width && q.y / 8 == Index(q) / Width;
  }

  lemma SetBitOthers(b: bv8, k: nat, j: nat)
    requires k < 8 && j < 8 && j != k
    ensures BitSet(b | Mask(k), j) == BitSet(b, j)
    ensures BitSet(b & !Mask(k), j) == BitSet(b, j)
  {
  }

  lemma SetBitSelf(b: bv8, k: nat)
    requires k < 8
    ensures BitSet(b | Mask(k), k)
    ensures !BitSet(b & !Mask(k), k)
  {
  }

  /** draw_pixel's effect on one on-screen pixel q. */
  lemma SetPixelAt(s: seq<bv8>, p: Point, on: bool, q: Point)
    requires |s| == BufferSize && OnScreen(q)
    ensures PixelOn(SetPixel(s, p, on), q) == (if q == p then on else PixelOn(s, q))
  {
    var r := SetPixel(s, p, on);
    if OnScreen(p) && Index(q) == Index(p) {
      var i, k: nat, j: nat := Index(p), p.y % 8, q.y % 8;
      var b := s[i];
      if q == p {
        SetBitSelf(b, k);
      } else {
        if j == k { IndexInjective(p, q); }
        SetBitOthers(b, k, j);
      }
    }
  }

  /**
   * draw_pixel's effect on the lit set: the pixel is redrawn in its colour,
   * every other pixel (and an off-screen call) leaves the picture unchanged.
   * Stated for any ink that agrees with the colour at p, so that loops
   * drawing a whole region can keep one ink throughout.
   */
  lemma SetPixelLit(s: seq<bv8>, p: Point, on: bool, ink: iset<Point>)
    requires |s| == BufferSize
    requires OnScreen(p) ==> (p in ink <==> on)
    ensures Lit(SetPixel(s, p, on)) == Blit(Lit(s), iset{p}, ink)
  {
    var r := SetPixel(s, p, on);
    forall q | OnScreen(q)
      ensures PixelOn(r, q) == (if q == p then on else PixelOn(s, q))
    {
      SetPixelAt(s, p, on, q);
    }
    assert forall q :: q in Lit(r) <==> q in Blit(Lit(s), iset{p}, ink);
  }

  lemma BitsDetermineByte(a: bv8, b: bv8)
    requires forall k: nat :: k < 8 ==> (BitSet(a, k) <==> BitSet(b, k))
    ensures a == b
  {
    assert BitSet(a, 0) == BitSet(b, 0) && BitSet(a, 1) == BitSet(b, 1);
    assert BitSet(a, 2) == BitSet(b, 2) && BitSet(a, 3) == BitSet(b, 3);
    assert BitSet(a, 4) == BitSet(b, 4) && BitSet(a, 5) == BitSet(b, 5);
    assert BitSet(a, 6) == BitSet(b, 6) && BitSet(a, 7) == BitSet(b, 7);
  }

  /** The page layout is a bijection: the lit set fixes every byte. */
  lemma LitDeterminesBuffer(a: seq<bv8>, b: seq<bv8>)
    requires |a| == BufferSize && |b| == BufferSize
    requires Lit(a) == Lit(b)
    ensures a == b
  {
    forall i | 0 <= i < BufferSize
      ensures a[i] == b[i]
    {
      forall k: nat | k < 8
        ensures BitSet(a[i], k) <==> BitSet(b[i], k)
      {
        var p := Point(i % Width, (i / Width) * 8 + k);
        assert OnScreen(p) && Index(p) == i && p.y % 8 == k;
        assert p in Lit(a) <==> p in Lit(b);
      }
      BitsDetermineByte(a[i], b[i]);
    }
  }

  /** A zeroed buffer shows nothing, and only a zeroed buffer does. */
  lemma BlankBuffer(s: seq<bv8>)
    requires |s| == BufferSize
    ensures Lit(s) == iset{} <==> forall i :: 0 <= i < BufferSize ==> s[i] == 0
  {
    var zero := seq(BufferSize, _ => 0 as bv8);
    assert Lit(zero) == iset{};
    if Lit(s) == iset{} {
      LitDeterminesBuffer(s, zero);
    } else {
      var p :| p in Lit(s);
      assert s[Index(p)] != 0;
    }
  }

  /** Redrawing two regions in turn with one ink is redrawing their union. */
  lemma BlitTwice(lit: iset<Point>, a: iset<Point>, b: iset<Point>, ink: iset<Point>)
    ensures Blit(Blit(lit, a, ink), b, ink) == Blit(lit, a + b, ink)
  {
  }

  /** Redrawing one pixel depends on the ink only at that pixel. */
  lemma BlitPointInk(lit: iset<Point>, p: Point, ink1: iset<Point>, ink2: iset<Point>)
    requires OnScreen(p) ==> (p in ink1 <==> p in ink2)
    ensures Blit(lit, iset{p}, ink1) == Blit(lit, iset{p}, ink2)
  {
  }

  /** Redrawing nothing changes nothing. */
  lemma BlitNothing(lit: iset<Point>, ink: iset<Point>)
    ensures Blit(lit, iset{}, ink) == lit
  {
  }

  /** The set of points of a sequence. */
  ghost function PointSet(pts: seq<Point>): iset<Point>
  {
    iset p | p in pts
  }

  lemma PointSetSnoc(pts: seq<Point>, k: nat)
    requires k < |pts|
    ensures PointSet(pts[..k + 1]) == PointSet(pts[..k]) + iset{pts[k]}
  {
    assert pts[..k + 1] == pts[..k] + [pts[k]];
  }
}
