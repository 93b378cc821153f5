/**
 * The rotating-cube demo: `draw_line_in_buffer`, the Bresenham loop that
 * writes straight into a bare buffer, and `draw_cube`, which draws every
 * edge into a fresh buffer and swaps it in (and flushes) only when the
 * picture changed. The rotation and projection of the vertices are
 * floating point and stay outside the model: `draw_cube` receives the
 * projected integer vertices.
 */
module Cube {
  import opened Bus
  import opened Pixels
  import opened Ssd1306
  import opened Bresenham
  import opened Driver

  /** A projected vertex `(x, y)`. */
  datatype Vertex = Vertex(x: int, y: int)

  /** An edge: the indices of its two vertices. */
  datatype Edge = Edge(from: int, to: int)

  /** Every edge names two vertices that exist. */
  predicate EdgesValid(vertices: seq<Vertex>, edges: seq<Edge>)
  {
    forall i :: 0 <= i < |edges| ==> 0 <= edges[i].from < |vertices| && 0 <= edges[i].to < |vertices|
  }

  /** The points of the line for edge e, in the order the loop plots them. */
  function EdgeLine(vertices: seq<Vertex>, e: Edge): seq<Point>
    requires 0 <= e.from < |vertices| && 0 <= e.to < |vertices|
  {
    var a, b := vertices[e.from], vertices[e.to];
    LinePoints(a.x, a.y, b.x, b.y)
  }

  /** The picture of the first edges drawn in order onto a blank screen. */
  ghost function Wireframe(vertices: seq<Vertex>, edges: seq<Edge>): iset<Point>
    requires EdgesValid(vertices, edges)
  {
    if edges == [] then iset{}
    else Paint(Wireframe(vertices, edges[..|edges| - 1]),
               PointSet(EdgeLine(vertices, edges[|edges| - 1])), true)
  }

  /** p lies on the line of one of the edges. */
  predicate OnSomeEdge(vertices: seq<Vertex>, edges: seq<Edge>, p: Point)
    requires EdgesValid(vertices, edges)
  {
    exists i :: 0 <= i < |edges| && p in EdgeLine(vertices, edges[i])
  }

  /** An edge more: p lies on one of the first edges or on the new one. */
  lemma OnSomeEdgeSnoc(vertices: seq<Vertex>, edges: seq<Edge>, p: Point)
    requires EdgesValid(vertices, edges) && edges != []
    ensures EdgesValid(vertices, edges[..|edges| - 1])
    ensures OnSomeEdge(vertices, edges, p) <==>
      OnSomeEdge(vertices, edges[..|edges| - 1], p) || p in EdgeLine(vertices, edges[|edges| - 1])
  {
    var n := |edges| - 1;
    var front := edges[..n];
    assert EdgesValid(vertices, front) by {
      forall i | 0 <= i < n
        ensures 0 <= front[i].from < |vertices| && 0 <= front[i].to < |vertices|
      {
        assert front[i] == edges[i];
      }
    }
    if OnSomeEdge(vertices, edges, p) {
      var i :| 0 <= i < |edges| && p in EdgeLine(vertices, edges[i]);
      if i < n {
        assert front[i] == edges[i];
      }
    }
    if OnSomeEdge(vertices, front, p) {
      var i :| 0 <= i < n && p in EdgeLine(vertices, front[i]);
      assert front[i] == edges[i];
    }
  }

  /** The wireframe is exactly the on-screen points of the edges' lines. */
  lemma {:induction false} WireframePoints(vertices: seq<Vertex>, edges: seq<Edge>, p: Point)
    requires EdgesValid(vertices, edges)
    ensures p in Wireframe(vertices, edges) <==> OnScreen(p) && OnSomeEdge(vertices, edges, p)
  {
    if edges != [] {
      var n := |edges| - 1;
      OnSomeEdgeSnoc(vertices, edges, p);
      WireframePoints(vertices, edges[..n], p);
      assert p in PointSet(EdgeLine(vertices, edges[n])) <==> p in EdgeLine(vertices, edges[n]);
    }
  }

  lemma WireframeSnoc(vertices: seq<Vertex>, edges: seq<Edge>, i: nat)
    requires EdgesValid(vertices, edges) && i < |edges|
    ensures EdgesValid(vertices, edges[..i]) && EdgesValid(vertices, edges[..i + 1])
    ensures Wireframe(vertices, edges[..i + 1])
         == Paint(Wireframe(vertices, edges[..i]), PointSet(EdgeLine(vertices, edges[i])), true)
  {
    assert edges[..i + 1][..i] == edges[..i];
  }

  /** The inline pixel write of draw_line_in_buffer's loop, adding point k of the line. */
  method PlotInBuffer(buffer: array<bv8>, x: int, y: int, color: int,
                      ghost start: iset<Point>, ghost pts: seq<Point>, ghost k: nat)
    requires buffer.Length == BufferSize && k < |pts| && pts[k] == Point(x, y)
    requires Lit(buffer[..]) == Paint(start, PointSet(pts[..k]), Truthy(color))
    modifies buffer
    ensures buffer[..] == SetPixel(old(buffer[..]), Point(x, y), Truthy(color))
    ensures Lit(buffer[..]) == Paint(start, PointSet(pts[..k + 1]), Truthy(color))
  {
    ghost var before := buffer[..];
    SetPixelLit(before, Point(x, y), Truthy(color), Solid(Truthy(color)));
    if 0 <= x < 128 && 0 <= y < 64 {
      WriteBit(buffer, x, y, color);
    }
    assert buffer[..] == SetPixel(before, Point(x, y), Truthy(color));
    assert Lit(buffer[..]) == Paint(Lit(before), iset{Point(x, y)}, Truthy(color));
    PointSetSnoc(pts, k);
    Grow(start, PointSet(pts[..k]), iset{Point(x, y)}, PointSet(pts[..k + 1]), Truthy(color));
  }

  /** The write itself: bit y % 8 of byte x + (y / 8) * 128, set for a truthy colour and cleared otherwise. */
  method WriteBit(buffer: array<bv8>, x: int, y: int, color: int)
    requires buffer.Length == BufferSize && OnScreen(Point(x, y))
    modifies buffer
    ensures buffer[..] == SetPixel(old(buffer[..]), Point(x, y), Truthy(color))
  {
    ghost var s := buffer[..];
    var index := Index(Point(x, y));
    var byte := if color != 0 then buffer[index] | Mask(y % 8) else buffer[index] & !Mask(y % 8);
    buffer[index] := byte;
    assert buffer[..] == s[index := byte];
    SetPixelByte(s, Point(x, y), Truthy(color), byte);
  }

  /**
   * draw_line_in_buffer: the same points as `OLED.draw_line`, in the same
   * order, each written only when it lies on the 128x64 screen.
   */
  method DrawLineInBuffer(buffer: array<bv8>, x0: int, y0: int, x1: int, y1: int, color: int)
    requires buffer.Length == BufferSize
    modifies buffer
    ensures Lit(buffer[..]) == Paint(old(Lit(buffer[..])), PointSet(LinePoints(x0, y0, x1, y1)), Truthy(color))
  {
    ghost var start := Lit(buffer[..]);
    ghost var l := Setup(x0, y0, x1, y1);
    ghost var pts := LinePoints(x0, y0, x1, y1);
    ghost var cs := LineCursors(x0, y0, x1, y1);
    var dx: int := Abs(x1 - x0);
    var dy: int := Abs(y1 - y0);
    var sx := if x0 < x1 then 1 else -1;
    var sy := if y0 < y1 then 1 else -1;
    var err := dx - dy;
    var x, y := x0, y0;
    ghost var k := 0;
    var line := Line(x1, y1, dx, dy, sx, sy);
    assert line == l;
    LinePass(x0, y0, x1, y1, 0);
    assert pts[..0] == [];
    while true
      invariant 0 <= k < |cs| && cs[k] == Cursor(x, y, err) && line == l
      invariant Lit(buffer[..]) == Paint(start, PointSet(pts[..k]), Truthy(color))
      decreases |cs| - k
    {
      LinePass(x0, y0, x1, y1, k);
      PlotInBuffer(buffer, x, y, color, start, pts, k);
      if x == x1 && y == y1 {
        assert pts[..k + 1] == pts;
        break;
      }
      x, y, err := StepCursor(line, x, y, err);
      k := k + 1;
    }
  }

  /**
   * draw_cube, from the projected vertices on: every edge is drawn in
   * colour 1 into a fresh all-zero buffer; when that buffer differs from
   * the display's, it replaces it and is flushed, and otherwise neither
   * the display nor the bus sees anything.
   */
  method DrawCube(oled: Display, vertices: seq<Vertex>, edges: seq<Edge>) returns (ok: bool)
    requires oled.Valid() && EdgesValid(vertices, edges)
    modifies oled, oled.link.bus
    ensures oled.Valid() && oled.Shown() == Wireframe(vertices, edges)
    ensures old(oled.Shown()) == Wireframe(vertices, edges) ==>
      oled.buffer == old(oled.buffer) && oled.link.bus.trace == old(oled.link.bus.trace) && ok
    ensures old(oled.Shown()) != Wireframe(vertices, edges) ==>
      fresh(oled.buffer) && Sent(old(oled.link.bus.trace), oled.link.bus.trace, FlushFrames(oled.link.address, oled.buffer[..]), ok)
  {
    ghost var before := oled.buffer[..];
    var newBuffer := new bv8[oled.buffer.Length](_ => 0);
    assert newBuffer[..] == Zeros();
    var i := 0;
    while i < |edges|
      invariant 0 <= i <= |edges| && EdgesValid(vertices, edges[..i])
      invariant Lit(newBuffer[..]) == Wireframe(vertices, edges[..i])
      modifies newBuffer
    {
      var a, b := vertices[edges[i].from], vertices[edges[i].to];
      WireframeSnoc(vertices, edges, i);
      DrawLineInBuffer(newBuffer, a.x, a.y, b.x, b.y, 1);
      i := i + 1;
    }
    assert edges[..i] == edges;
    if Lit(before) == Wireframe(vertices, edges) {
      LitDeterminesBuffer(newBuffer[..], before);
    }
    ok := true;
    if newBuffer[..] != oled.buffer[..] {
      oled.buffer := newBuffer;
      ok := oled.UpdateDisplay();
    }
  }
}
