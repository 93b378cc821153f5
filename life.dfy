/**
 * The LIFE demo: Conway's Game of Life on a grid that wraps around at its
 * edges, each cell drawn as a size x size block, and only the cells that
 * changed since the last generation redrawn before each flush.
 *
 * A grid is a list of rows of cells, 1 for alive and 0 for dead; the
 * random starting grid is a parameter.
 */
module Life {
  import opened Pixels
  import opened Bus
  import opened Ssd1306
  import opened Driver
  import opened Glyphs

  type Grid = seq<seq<int>>

  /** Every row as long as the first. */
  predicate Rectangular(g: Grid)
  {
    forall y :: 0 <= y < |g| ==> |g[y]| == |g[0]|
  }

  /** Every cell 0 or 1. */
  predicate Binary(g: Grid)
  {
    forall y, x :: 0 <= y < |g| && 0 <= x < |g[y]| ==> g[y][x] == 0 || g[y][x] == 1
  }

  /** The two grids have the same shape. */
  predicate SameShape(a: Grid, b: Grid)
  {
    |a| == |b| && forall y :: 0 <= y < |a| ==> |a[y]| == |b[y]|
  }

  /** `[[0 for _ in range(w)] for _ in range(h)]`. */
  function ZeroGrid(h: nat, w: nat): (g: Grid)
    ensures |g| == h && forall y :: 0 <= y < h ==> |g[y]| == w
    ensures forall y, x :: 0 <= y < h && 0 <= x < w ==> g[y][x] == 0
  {
    seq(h, _ => seq(w, _ => 0))
  }

  /** The eight neighbour offsets, in count_neighbors' order. */
  const Directions: seq<(int, int)> := [(-1, -1), (-1, 0), (-1, 1), (0, -1), (0, 1), (1, -1), (1, 0), (1, 1)]

  /** The sum of the cells at offsets ds from (x, y), wrapping around both edges. */
  function NeighborSum(g: Grid, x: int, y: int, ds: seq<(int, int)>): int
    requires Rectangular(g) && |g| > 0 && |g[0]| > 0
  {
    if ds == [] then 0
    else
      var d := ds[|ds| - 1];
      NeighborSum(g, x, y, ds[..|ds| - 1]) + g[(y + d.1) % |g|][(x + d.0) % |g[0]|]
  }

  /** The number of live neighbours of (x, y) on the torus. */
  function Neighbors(g: Grid, x: int, y: int): int
    requires Rectangular(g) && |g| > 0 && |g[0]| > 0
  {
    NeighborSum(g, x, y, Directions)
  }

  /** Over 0/1 cells, k offsets sum to between 0 and k. */
  lemma {:induction false} NeighborSumBounds(g: Grid, x: int, y: int, ds: seq<(int, int)>)
    requires Rectangular(g) && |g| > 0 && |g[0]| > 0 && Binary(g)
    ensures 0 <= NeighborSum(g, x, y, ds) <= |ds|
  {
    if ds != [] {
      NeighborSumBounds(g, x, y, ds[..|ds| - 1]);
      var d := ds[|ds| - 1];
      var ny, nx := (y + d.1) % |g|, (x + d.0) % |g[0]|;
      assert g[ny][nx] == 0 || g[ny][nx] == 1;
    }
  }

  /** A cell of a 0/1 grid has between 0 and 8 live neighbours. */
  lemma NeighborsBounds(g: Grid, x: int, y: int)
    requires Rectangular(g) && |g| > 0 && |g[0]| > 0 && Binary(g)
    ensures 0 <= Neighbors(g, x, y) <= 8
  {
    NeighborSumBounds(g, x, y, Directions);
  }

  /** On an all-dead grid, any offsets sum to 0. */
  lemma {:induction false} NeighborSumDead(g: Grid, x: int, y: int, ds: seq<(int, int)>)
    requires Rectangular(g) && |g| > 0 && |g[0]| > 0
    requires forall r, c :: 0 <= r < |g| && 0 <= c < |g[r]| ==> g[r][c] == 0
    ensures NeighborSum(g, x, y, ds) == 0
  {
    if ds != [] {
      NeighborSumDead(g, x, y, ds[..|ds| - 1]);
    }
  }

  /** count_neighbors: the loop over the eight offsets adds up the wrapped neighbours. */
  method CountNeighbors(grid: Grid, x: int, y: int) returns (count: int)
    requires Rectangular(grid) && |grid| > 0 && |grid[0]| > 0
    ensures count == Neighbors(grid, x, y)
  {
    count := 0;
    var i := 0;
    while i < |Directions|
      invariant 0 <= i <= |Directions|
      invariant count == NeighborSum(grid, x, y, Directions[..i])
    {
      var (dx, dy) := Directions[i];
      var nx, ny := (x + dx) % |grid[0]|, (y + dy) % |grid|;
      count := count + grid[ny][nx];
      assert Directions[..i + 1][..i] == Directions[..i];
      i := i + 1;
    }
    assert Directions[..i] == Directions;
  }

  /** The rule for one cell: a live cell survives with 2 or 3 neighbours, a dead one is born with exactly 3. */
  function Rule(cell: int, n: int): (r: int)
    ensures r == 0 || r == 1
  {
    if cell == 1 then (if n == 2 || n == 3 then 1 else 0)
    else if n == 3 then 1 else 0
  }

  /** The next generation, every cell computed from the unchanged input grid. */
  function Next(g: Grid): (n: Grid)
    requires Rectangular(g)
    ensures SameShape(n, g) && Rectangular(n) && Binary(n)
  {
    seq(|g|, y requires 0 <= y < |g| =>
      seq(|g[y]|, x requires 0 <= x < |g[y]| => Rule(g[y][x], Neighbors(g, x, y))))
  }

  /** Conway's rule, cell by cell: alive next exactly when alive with 2 or 3 neighbours or dead with 3. */
  lemma NextCell(g: Grid, x: nat, y: nat)
    requires Rectangular(g) && Binary(g) && y < |g| && x < |g[y]|
    ensures Next(g)[y][x] == 1 <==>
      (g[y][x] == 1 && (Neighbors(g, x, y) == 2 || Neighbors(g, x, y) == 3)) ||
      (g[y][x] == 0 && Neighbors(g, x, y) == 3)
  {
  }

  /** A cell of an all-dead grid stays dead. */
  lemma DeadCell(h: nat, w: nat, x: nat, y: nat)
    requires y < h && x < w
    ensures Next(ZeroGrid(h, w))[y][x] == 0
  {
    var g := ZeroGrid(h, w);
    NeighborSumDead(g, x, y, Directions);
    assert g[y][x] == 0 && Neighbors(g, x, y) == 0;
  }

  /** An all-dead grid stays dead. */
  lemma DeadStaysDead(h: nat, w: nat)
    ensures Next(ZeroGrid(h, w)) == ZeroGrid(h, w)
  {
    var g, n := ZeroGrid(h, w), Next(ZeroGrid(h, w));
    forall y | 0 <= y < h
      ensures n[y] == g[y]
    {
      forall x | 0 <= x < w
        ensures n[y][x] == g[y][x]
      {
        DeadCell(h, w, x, y);
      }
    }
  }

  /** `n` generations from g. */
  function Evolve(g: Grid, n: nat): (r: Grid)
    requires Rectangular(g)
    ensures SameShape(r, g) && Rectangular(r)
  {
    if n == 0 then g else Next(Evolve(g, n - 1))
  }

  /**
   * update_grid: a fresh all-zero grid of the same shape, then the nested
   * loops write each cell's next state from the input grid.
   */
  method UpdateGrid(grid: Grid) returns (newGrid: Grid)
    requires Rectangular(grid)
    ensures newGrid == Next(grid)
  {
    var next := Next(grid);
    var width := if |grid| == 0 then 0 else |grid[0]|;
    newGrid := ZeroGrid(|grid|, width);
    var y := 0;
    while y < |grid|
      invariant 0 <= y <= |grid| && SameShape(newGrid, grid)
      invariant forall r :: 0 <= r < y ==> newGrid[r] == next[r]
      invariant forall r, c :: y <= r < |grid| && 0 <= c < |newGrid[r]| ==> newGrid[r][c] == 0
    {
      var row := UpdateRow(grid, y, newGrid[y]);
      newGrid := newGrid[y := row];
      y := y + 1;
    }
    assert forall r :: 0 <= r < |grid| ==> newGrid[r] == next[r];
  }

  /** The inner loop of update_grid: row y of the new grid, written cell by cell over a row of zeros. */
  method UpdateRow(grid: Grid, y: nat, zeros: seq<int>) returns (row: seq<int>)
    requires Rectangular(grid) && y < |grid| && |zeros| == |grid[y]|
    requires forall c :: 0 <= c < |zeros| ==> zeros[c] == 0
    ensures row == Next(grid)[y]
  {
    ghost var want := Next(grid)[y];
    row := zeros;
    var x := 0;
    while x < |grid[y]|
      invariant 0 <= x <= |grid[y]| == |row| == |want|
      invariant forall c :: 0 <= c < x ==> row[c] == want[c]
      invariant forall c :: x <= c < |row| ==> row[c] == 0
    {
      var neighbors := CountNeighbors(grid, x, y);
      assert want[x] == Rule(grid[y][x], neighbors);
      ghost var before := row;
      if grid[y][x] == 1 {
        if neighbors == 2 || neighbors == 3 {
          row := row[x := 1];
        } else {
          row := row[x := 0];
        }
      } else {
        if neighbors == 3 {
          row := row[x := 1];
        }
      }
      assert row == before[x := want[x]];
      x := x + 1;
    }
  }

  /*
   * The picture of a grid.
   */

  /** The block draw_cell fills for cell (x, y). */
  ghost function Block(x: int, y: int, size: int): iset<Point>
  {
    Rect(x * size, y * size, size, size)
  }

  /** Pixel p lies in the block of a cell of g, returned as (column, row). */
  ghost predicate InCell(g: Grid, size: int, p: Point)
  {
    size > 0 && 0 <= p.x && 0 <= p.y && p.y / size < |g| && p.x / size < |g[p.y / size]|
  }

  /** The blocks of the live cells. */
  ghost function Live(g: Grid, size: int): iset<Point>
  {
    iset p | InCell(g, size, p) && g[p.y / size][p.x / size] != 0
  }

  /** Pixel p lies in the block of a cell that differs between the grids and comes before (x, y) in row-major order. */
  ghost predicate InChanged(cur: Grid, prev: Grid, size: int, x: int, y: int, p: Point)
  {
    InCell(cur, size, p) && InCell(prev, size, p) &&
    var cx, cy := p.x / size, p.y / size;
    cur[cy][cx] != prev[cy][cx] && (cy < y || (cy == y && cx < x))
  }

  ghost function ChangedBefore(cur: Grid, prev: Grid, size: int, x: int, y: int): iset<Point>
  {
    iset p | InChanged(cur, prev, size, x, y, p)
  }

  /** The blocks of all cells that differ between the grids. */
  ghost function Changed(cur: Grid, prev: Grid, size: int): iset<Point>
  {
    ChangedBefore(cur, prev, size, 0, |cur|)
  }

  /** A pixel of a cell's block belongs to that cell and to no other. */
  lemma BlockCell(x: nat, y: nat, size: int, p: Point)
    requires p in Block(x, y, size)
    ensures size > 0 && p.x / size == x && p.y / size == y && 0 <= p.x && 0 <= p.y
  {
    assert size > 0;
    MulMono(0, x, size);
    MulMono(0, y, size);
    DivBlock(p.x, x, size);
    DivBlock(p.y, y, size);
  }

  /** A pixel's cell holds it in its block. */
  lemma CellBlock(size: int, p: Point)
    requires size > 0 && 0 <= p.x && 0 <= p.y
    ensures p in Block(p.x / size, p.y / size, size)
  {
  }

  /** Cell (x, y) adds its block to the changed region exactly when it differs. */
  lemma ChangedStep(cur: Grid, prev: Grid, size: int, x: nat, y: nat)
    requires y < |cur| && x < |cur[y]| && y < |prev| && x < |prev[y]|
    ensures ChangedBefore(cur, prev, size, x + 1, y)
         == ChangedBefore(cur, prev, size, x, y) + (if cur[y][x] != prev[y][x] then Block(x, y, size) else iset{})
  {
    var before, after := ChangedBefore(cur, prev, size, x, y), ChangedBefore(cur, prev, size, x + 1, y);
    var block := if cur[y][x] != prev[y][x] then Block(x, y, size) else iset{};
    forall p | p in block
      ensures p in after
    {
      BlockCell(x, y, size, p);
    }
    forall p | p in after && p !in before
      ensures p in block
    {
      CellBlock(size, p);
    }
  }

  /** Moving from the end of row y to the start of row y + 1 adds nothing. */
  lemma ChangedRow(cur: Grid, prev: Grid, size: int, y: nat)
    requires y < |cur|
    ensures ChangedBefore(cur, prev, size, |cur[y]|, y) == ChangedBefore(cur, prev, size, 0, y + 1)
  {
  }

  /** Within cell (x, y)'s block, the live blocks of g hold everything or nothing, as the cell is alive or dead. */
  lemma BlockInk(g: Grid, size: int, x: nat, y: nat)
    requires y < |g| && x < |g[y]|
    ensures Block(x, y, size) * Live(g, size) * Screen == Block(x, y, size) * Solid(g[y][x] != 0) * Screen
  {
    var block, ink := Block(x, y, size), Solid(g[y][x] != 0);
    forall p | p in block * Live(g, size) * Screen
      ensures p in ink
    {
      BlockCell(x, y, size, p);
    }
    forall p | p in block * ink
      ensures p in Live(g, size)
    {
      BlockCell(x, y, size, p);
      assert InCell(g, size, p);
    }
  }

  /** Painting cell (x, y) in its colour is redrawing its block with the live blocks of the grid as ink. */
  lemma CellRedrawn(lit: iset<Point>, g: Grid, size: int, x: nat, y: nat)
    requires y < |g| && x < |g[y]|
    ensures Paint(lit, Block(x, y, size), Truthy(g[y][x])) == Blit(lit, Block(x, y, size), Live(g, size))
  {
    BlockInk(g, size, x, y);
  }

  /**
   * display_grid's promise: when the screen shows the previous grid, redrawing the changed cells
   * makes it show the current one.
   */
  lemma RedrawShows(cur: Grid, prev: Grid, size: int)
    requires SameShape(cur, prev)
    ensures Blit(Live(prev, size) * Screen, Changed(cur, prev, size), Live(cur, size)) == Live(cur, size) * Screen
  {
    var changed := Changed(cur, prev, size);
    forall p | p !in changed
      ensures p in Live(prev, size) <==> p in Live(cur, size)
    {
      Unchanged(cur, prev, size, p);
    }
  }

  /** Outside the changed blocks the two grids light the same pixels. */
  lemma Unchanged(cur: Grid, prev: Grid, size: int, p: Point)
    requires SameShape(cur, prev) && p !in Changed(cur, prev, size)
    ensures p in Live(prev, size) <==> p in Live(cur, size)
  {
    if InCell(cur, size, p) {
      assert InCell(prev, size, p);
      assert !InChanged(cur, prev, size, 0, |cur|, p);
    }
  }

  /** An all-dead grid lights nothing. */
  lemma DeadUnlit(h: nat, w: nat, size: int)
    ensures Live(ZeroGrid(h, w), size) == iset{}
  {
    var g := ZeroGrid(h, w);
    forall p
      ensures p !in Live(g, size)
    {
      if InCell(g, size, p) {
        assert g[p.y / size][p.x / size] == 0;
      }
    }
  }

  /** draw_cell: the size x size block at (x, y) in the colour. */
  method DrawCell(oled: Display, x: int, y: int, size: int, color: int)
    requires oled.Valid()
    modifies oled.buffer
    ensures oled.Shown() == Paint(old(oled.Shown()), Rect(x, y, size, size), Truthy(color))
  {
    oled.DrawRect(x, y, size, size, color);
  }

  /** The redraws of one row, up to (but not including) cell x. */
  method DisplayRow(oled: Display, current: Grid, previous: Grid, size: int, y: nat, ghost start: iset<Point>)
    requires oled.Valid() && y < |current| && y < |previous| && |current[y]| <= |previous[y]|
    requires oled.Shown() == Blit(start, ChangedBefore(current, previous, size, 0, y), Live(current, size))
    modifies oled.buffer
    ensures oled.Shown() == Blit(start, ChangedBefore(current, previous, size, 0, y + 1), Live(current, size))
  {
    var x := 0;
    while x < |current[y]|
      invariant 0 <= x <= |current[y]|
      invariant oled.Shown() == Blit(start, ChangedBefore(current, previous, size, x, y), Live(current, size))
    {
      ChangedStep(current, previous, size, x, y);
      if current[y][x] != previous[y][x] {
        var color := current[y][x];
        CellRedrawn(oled.Shown(), current, size, x, y);
        DrawCell(oled, x * size, y * size, size, color);
        BlitTwice(start, ChangedBefore(current, previous, size, x, y), Block(x, y, size), Live(current, size));
      }
      x := x + 1;
    }
    ChangedRow(current, previous, size, y);
  }

  /**
   * display_grid: every cell that differs from the previous grid is drawn
   * as its block in the cell's colour, then the buffer is flushed.
   */
  method DisplayGrid(oled: Display, current: Grid, previous: Grid, size: int) returns (ok: bool)
    requires oled.Valid() && |current| <= |previous|
    requires forall y :: 0 <= y < |current| ==> |current[y]| <= |previous[y]|
    modifies oled.buffer, oled.link.bus
    ensures oled.Shown() == Blit(old(oled.Shown()), Changed(current, previous, size), Live(current, size))
    ensures Sent(old(oled.link.bus.trace), oled.link.bus.trace, FlushFrames(oled.link.address, oled.buffer[..]), ok)
  {
    ghost var start := oled.Shown();
    assert ChangedBefore(current, previous, size, 0, 0) == iset{};
    var y := 0;
    while y < |current|
      invariant 0 <= y <= |current|
      invariant oled.Shown() == Blit(start, ChangedBefore(current, previous, size, 0, y), Live(current, size))
      modifies oled.buffer
    {
      DisplayRow(oled, current, previous, size, y, start);
      y := y + 1;
    }
    ok := oled.UpdateDisplay();
  }

  /**
   * game_of_life, for a given number of generations: the random starting
   * grid is shown, then every generation replaces it, each display
   * redrawing only what changed against the grid shown before it.
   */
  method GameOfLife(oled: Display, grid0: Grid, gridWidth: nat, gridHeight: nat, cellSize: int, generations: nat)
    returns (ok: bool)
    requires oled.Valid() && oled.Shown() == iset{}
    requires |grid0| == gridHeight && forall y :: 0 <= y < gridHeight ==> |grid0[y]| == gridWidth
    modifies oled.buffer, oled.link.bus
    ensures ok && generations > 0 ==> oled.Shown() == Live(Evolve(grid0, generations - 1), cellSize) * Screen
  {
    var grid := grid0;
    var previous := ZeroGrid(gridHeight, gridWidth);
    DeadUnlit(gridHeight, gridWidth, cellSize);
    ok := true;
    var i := 0;
    while i < generations
      invariant 0 <= i <= generations && Rectangular(grid0)
      invariant grid == Evolve(grid0, i) && SameShape(grid, previous)
      invariant oled.Shown() == Live(previous, cellSize) * Screen
      invariant i > 0 ==> previous == Evolve(grid0, i - 1)
    {
      ok := DisplayGrid(oled, grid, previous, cellSize);
      if !ok {
        return;
      }
      RedrawShows(grid, previous, cellSize);
      previous := grid;
      grid := UpdateGrid(grid);
      i := i + 1;
    }
  }
}
