/**
 * The stepping engine: the fixed B3/S23 rule over the eight neighbour
 * offsets, and a double-buffered game that computes the next generation of
 * the current world into the scratch world and then exchanges the two.
 */
module Game {
  import W = World

  /** The eight neighbour offsets (dx, dy); (0, 0) is not among them. */
  const Poses: seq<(int, int)> :=
    [(-1, -1), (-1, 0), (-1, 1), (0, -1), (0, 1), (1, -1), (1, 0), (1, 1)]

  /**
   * How many of the cells at offsets `poses` from (x, y) are live, counted
   * left to right as a left fold; cells outside the grid count as dead.
   */
  function CountLive(g: W.Grid, x: int, y: int, poses: seq<(int, int)>): (n: nat)
    requires g.Valid()
    ensures n <= |poses|
  {
    if poses == [] then 0
    else
      var p := poses[|poses| - 1];
      CountLive(g, x, y, poses[..|poses| - 1]) + (if g.LiveAt(x + p.0, y + p.1) then 1 else 0)
  }

  /** Number of live neighbours of (x, y). */
  function NeighbourCount(g: W.Grid, x: int, y: int): (n: nat)
    requires g.Valid()
    ensures n <= 8
  {
    CountLive(g, x, y, Poses)
  }

  /**
   * Next liveness of (x, y): a live cell survives with two or three live
   * neighbours, a dead cell is born with exactly three, every other cell is dead.
   */
  function NextLive(g: W.Grid, x: int, y: int): (r: bool)
    requires g.Valid()
    ensures g.LiveAt(x, y) ==> (r <==> NeighbourCount(g, x, y) in {2, 3})
    ensures !g.LiveAt(x, y) ==> (r <==> NeighbourCount(g, x, y) == 3)
  {
    var now := g.LiveAt(x, y);
    match CountLive(g, x, y, Poses)
    case 3 => true
    case 2 => now
    case _ => false
  }

  /**
   * A cell's own value never enters its neighbour count, as long as the
   * offsets do not include (0, 0).
   */
  lemma {:induction false} CountIgnoresCentre(g: W.Grid, x: int, y: int, v: bool, poses: seq<(int, int)>)
    requires g.Valid()
    requires (0, 0) !in poses
    ensures CountLive(g.Set(x, y, v), x, y, poses) == CountLive(g, x, y, poses)
  {
    if poses != [] {
      var p := poses[|poses| - 1];
      assert poses == poses[..|poses| - 1] + [p];
      CountIgnoresCentre(g, x, y, v, poses[..|poses| - 1]);
      assert (x + p.0, y + p.1) != (x, y);
    }
  }

  /** So the neighbour count of a cell is the same whatever the cell holds. */
  lemma NeighbourCountIgnoresCentre(g: W.Grid, x: int, y: int, v: bool)
    requires g.Valid()
    ensures NeighbourCount(g.Set(x, y, v), x, y) == NeighbourCount(g, x, y)
  {
    CountIgnoresCentre(g, x, y, v, Poses);
  }

  /** 1 for a live cell, 0 for a dead one. */
  function Bit(b: bool): nat
  {
    if b then 1 else 0
  }

  /** Counting one more offset adds that offset's cell to the count. */
  lemma CountSnoc(g: W.Grid, x: int, y: int, poses: seq<(int, int)>, p: (int, int))
    requires g.Valid()
    ensures CountLive(g, x, y, poses + [p]) == CountLive(g, x, y, poses) + Bit(g.LiveAt(x + p.0, y + p.1))
  {
    assert (poses + [p])[..|poses|] == poses;
  }

  /** The neighbour count written out as the sum over the eight offsets. */
  lemma NeighbourCountSum(g: W.Grid, x: int, y: int)
    requires g.Valid()
    ensures NeighbourCount(g, x, y) ==
              Bit(g.LiveAt(x - 1, y - 1)) + Bit(g.LiveAt(x - 1, y)) + Bit(g.LiveAt(x - 1, y + 1)) +
              Bit(g.LiveAt(x, y - 1)) + Bit(g.LiveAt(x, y + 1)) +
              Bit(g.LiveAt(x + 1, y - 1)) + Bit(g.LiveAt(x + 1, y)) + Bit(g.LiveAt(x + 1, y + 1))
  {
    var q0: seq<(int, int)> := [];
    var q1 := q0 + [(-1, -1)];
    var q2 := q1 + [(-1, 0)];
    var q3 := q2 + [(-1, 1)];
    var q4 := q3 + [(0, -1)];
    var q5 := q4 + [(0, 1)];
    var q6 := q5 + [(1, -1)];
    var q7 := q6 + [(1, 0)];
    var q8 := q7 + [(1, 1)];
    CountSnoc(g, x, y, q0, (-1, -1));
    CountSnoc(g, x, y, q1, (-1, 0));
    CountSnoc(g, x, y, q2, (-1, 1));
    CountSnoc(g, x, y, q3, (0, -1));
    CountSnoc(g, x, y, q4, (0, 1));
    CountSnoc(g, x, y, q5, (1, -1));
    CountSnoc(g, x, y, q6, (1, 0));
    CountSnoc(g, x, y, q7, (1, 1));
    assert q8 == Poses;
  }

  /** The top-left corner sees at most three neighbours: the rest lie outside the grid. */
  lemma CornerNeighbours(g: W.Grid)
    requires g.Valid()
    ensures NeighbourCount(g, 0, 0) <= 3
  {
    NeighbourCountSum(g, 0, 0);
  }

  /** The whole next generation: `NextLive` applied to every cell. */
  function Generation(g: W.Grid): (g': W.Grid)
    requires g.Valid()
    ensures g'.Valid() && g'.width == g.width && g'.height == g.height
    ensures forall x, y :: g.InRange(x, y) ==> g'.LiveAt(x, y) == NextLive(g, x, y)
  {
    var n := g.width * g.height;
    var g' := W.Grid(g.width, g.height,
                     seq(n, i requires 0 <= i < n => NextLive(g, i % g.width, i / g.width)));
    forall x, y | g.InRange(x, y) ensures g'.LiveAt(x, y) == NextLive(g, x, y) {
      W.IndexDecompose(g.width, x, y);
    }
    g'
  }

  /** The cells of `lives` that land in a `size`-cell buffer; the rest of the buffer is dead. */
  function Loaded(lives: seq<bool>, size: nat): (r: seq<bool>)
    ensures |r| == size
    ensures forall i :: 0 <= i < size ==> (r[i] <==> i < |lives| && lives[i])
  {
    seq(size, i requires 0 <= i < size => i < |lives| && lives[i])
  }

  /** Six cells loaded into a 4 by 4 grid fill its first row and half of its second, the rest dead. */
  lemma LoadedExample()
    ensures var g := W.Grid(4, 4, Loaded([true, true, false, false, true, false], 16));
            g.Valid() &&
            g.LiveAt(0, 0) && g.LiveAt(1, 0) && !g.LiveAt(2, 0) && !g.LiveAt(3, 0) &&
            g.LiveAt(0, 1) && !g.LiveAt(1, 1) && !g.LiveAt(2, 1) && !g.LiveAt(3, 1) &&
            forall x, y :: 2 <= y ==> !g.LiveAt(x, y)
  {
    var g := W.Grid(4, 4, Loaded([true, true, false, false, true, false], 16));
    forall x, y | 2 <= y
      ensures !g.LiveAt(x, y)
    {
      if g.InRange(x, y) {
        assert 4 * y + x >= 8;
      }
    }
  }

  /** First row of band `i` when every band has `cpuRows` rows. */
  function BandHead(i: nat, cpuRows: nat): nat
  {
    i * cpuRows
  }

  /** The band that row `y` falls in when every band has `cpuRows` rows. */
  function BandIndex(y: nat, cpuRows: nat): nat
    requires cpuRows > 0
  {
    y / cpuRows
  }

  /** Row `y` lies in band `i`. */
  predicate InBand(y: nat, i: nat, cpuRows: nat)
  {
    BandHead(i, cpuRows) <= y < BandHead(i, cpuRows) + cpuRows
  }

  /**
   * With `cpuRows = height / cpuNum + 1` the `cpuNum` bands reach past the
   * last row, so every row lies in one of them.
   */
  lemma BandsCover(height: nat, cpuNum: nat, cpuRows: nat)
    requires cpuNum >= 1 && cpuRows == height / cpuNum + 1
    ensures height < BandHead(cpuNum, cpuRows)
    ensures forall y :: 0 <= y < height ==> BandIndex(y, cpuRows) < cpuNum && InBand(y, BandIndex(y, cpuRows), cpuRows)
  {
    assert height == cpuNum * (cpuRows - 1) + height % cpuNum;
    assert cpuNum * cpuRows == cpuNum * (cpuRows - 1) + cpuNum;
    forall y | 0 <= y < height
      ensures BandIndex(y, cpuRows) < cpuNum && InBand(y, BandIndex(y, cpuRows), cpuRows)
    {
      var i := y / cpuRows;
      assert y == cpuRows * i + y % cpuRows;
      if cpuNum <= i {
        W.MulMono(cpuRows, cpuNum, i);
      }
    }
  }

  /** A band of rows starting at `head`, with its row count and its cells of the next generation. */
  datatype Band = Band(head: nat, rows: nat, lives: seq<bool>)

  /**
   * `b` is the result of a worker for the band of at most `cpuRows` rows
   * starting at `head`: the rows it holds lie inside the grid, it stops short
   * only at the bottom of the grid, and its cells are those of the next
   * generation at the same row-major positions.
   */
  ghost predicate IsBandOf(b: Band, g: W.Grid, head: nat, cpuRows: nat)
    requires g.Valid()
  {
    && b.head == head
    && b.rows <= cpuRows
    && (b.rows > 0 ==> head + b.rows <= g.height)
    && (b.rows < cpuRows ==> g.height <= head + b.rows)
    && |b.lives| == g.width * b.rows
    && (b.rows > 0 ==> g.width * head + |b.lives| <= |g.cells|)
    && forall i :: 0 <= i < |b.lives| ==> b.lives[i] == Generation(g).cells[g.width * head + i]
  }

  /**
   * A band that starts at row `height` or later, past the last row, holds no rows and no cells;
   * otherwise it holds `cpuRows` rows or all rows down to the bottom.
   */
  lemma BandRows(b: Band, g: W.Grid, head: nat, cpuRows: nat)
    requires g.Valid() && IsBandOf(b, g, head, cpuRows)
    ensures g.height <= head ==> b.rows == 0 && b.lives == []
    ensures head < g.height ==> b.rows == if head + cpuRows <= g.height then cpuRows else g.height - head
  {
  }

  /** The work of one thread of the parallel step: it only reads the current world. */
  method ComputeBand(g: W.Grid, head: nat, cpuRows: nat) returns (b: Band)
    requires g.Valid()
    ensures IsBandOf(b, g, head, cpuRows)
  {
    ghost var next := Generation(g);
    ghost var start := g.width * head;
    var lives: seq<bool> := [];
    var rows: nat := 0;
    var y := head;
    while y < head + cpuRows
      invariant head <= y <= head + cpuRows && rows == y - head
      invariant rows > 0 ==> y <= g.height
      invariant |lives| == g.width * rows
      invariant rows > 0 ==> start + |lives| <= |g.cells|
      invariant forall i :: 0 <= i < |lives| ==> lives[i] == next.cells[start + i]
    {
      if y >= g.height {
        break;
      }
      NextRow(g.width, g.height, head, rows);
      var row := ComputeRow(g, y);
      AppendRow(g, head, rows, lives, row);
      lives := lives + row;
      rows := rows + 1;
      y := y + 1;
    }
    b := Band(head, rows, lives);
  }

  /** One row of a band: the next state of each cell of row `y`, left to right. */
  method ComputeRow(g: W.Grid, y: nat) returns (row: seq<bool>)
    requires g.Valid()
    ensures |row| == g.width
    ensures forall x :: 0 <= x < g.width ==> row[x] == NextLive(g, x, y)
  {
    row := [];
    for x := 0 to g.width
      invariant |row| == x
      invariant forall i :: 0 <= i < x ==> row[i] == NextLive(g, i, y)
    {
      row := row + [NextLive(g, x, y)];
    }
  }

  /** One row of the sequential step: row `y` of `b` becomes row `y` of the next generation of `a`. */
  method StepRow(a: W.World, b: W.World, y: nat)
    requires a.Valid() && b.Valid() && a.cells != b.cells
    requires a.width == b.width && a.height == b.height && y < b.height
    modifies b.cells
    ensures forall x', y' :: b.View().LiveAt(x', y') ==
              if y' == y && 0 <= x' < b.width then NextLive(a.View(), x', y) else old(b.View()).LiveAt(x', y')
  {
    for x := 0 to b.width
      invariant forall x', y' :: b.View().LiveAt(x', y') ==
                  if y' == y && 0 <= x' < x then NextLive(a.View(), x', y) else old(b.View()).LiveAt(x', y')
    {
      b.SetLife(x, y, NextLive(a.View(), x, y));
    }
  }

  /** Appending the next row's cells to a band's cells keeps them the next generation's, in row-major order. */
  lemma AppendRow(g: W.Grid, head: nat, rows: nat, lives: seq<bool>, row: seq<bool>)
    requires g.Valid() && head + rows < g.height
    requires |lives| == g.width * rows && g.width * head + |lives| <= |g.cells|
    requires forall i :: 0 <= i < |lives| ==> lives[i] == Generation(g).cells[g.width * head + i]
    requires |row| == g.width && forall x :: 0 <= x < g.width ==> row[x] == NextLive(g, x, head + rows)
    ensures |lives + row| == g.width * (rows + 1) && g.width * head + |lives + row| <= |g.cells|
    ensures forall i :: 0 <= i < |lives + row| ==> (lives + row)[i] == Generation(g).cells[g.width * head + i]
  {
    var next := Generation(g);
    NextRow(g.width, g.height, head, rows);
    forall i | 0 <= i < |lives + row|
      ensures (lives + row)[i] == next.cells[g.width * head + i]
    {
      if |lives| <= i {
        var x := i - |lives|;
        assert next.LiveAt(x, head + rows) == NextLive(g, x, head + rows);
      }
    }
  }

  /** Index arithmetic for appending row `head + rows` of a band. */
  lemma NextRow(width: nat, height: nat, head: nat, rows: nat)
    requires head + rows < height
    ensures width * head + width * rows == width * (head + rows)
    ensures width * (rows + 1) == width * rows + width
    ensures width * head + width * (rows + 1) <= width * height
  {
    assert width * (head + rows) == width * head + width * rows;
    assert width * (rows + 1) == width * rows + width;
    W.MulMono(width, head + rows + 1, height);
  }

  /**
   * Installs one worker's result into `world`: row `y` of the band becomes
   * row `head + y`, cell by cell, and no cell outside the band changes.
   */
  method InstallBand(world: W.World, band: Band)
    requires world.Valid()
    requires band.head + band.rows <= world.height
    requires |band.lives| == world.width * band.rows
    modifies world.cells
    ensures world.width * band.head + |band.lives| <= world.cells.Length
    ensures forall k :: 0 <= k < world.cells.Length ==>
              world.cells[k] == if world.width * band.head <= k < world.width * band.head + |band.lives|
                                then band.lives[k - world.width * band.head]
                                else old(world.cells[k])
  {
    ghost var start := world.width * band.head;
    ghost var done := 0;
    for y := 0 to band.rows
      invariant done == world.width * y
      invariant forall k :: 0 <= k < world.cells.Length ==>
                  world.cells[k] == if start <= k < start + done then band.lives[k - start]
                                    else old(world.cells[k])
    {
      InstallRow(world, band, y);
      done := done + world.width;
      assert done == world.width * (y + 1);
    }
    NextRow(world.width, world.height + 1, band.head, band.rows);
  }

  /** Row `y` of a band's result goes to row `head + y` of `world`. */
  method InstallRow(world: W.World, band: Band, y: nat)
    requires world.Valid()
    requires band.head + band.rows <= world.height && y < band.rows
    requires |band.lives| == world.width * band.rows
    modifies world.cells
    ensures world.width * y + world.width <= |band.lives|
    ensures var start := world.width * band.head + world.width * y;
            forall k :: 0 <= k < world.cells.Length ==>
              world.cells[k] == if start <= k < start + world.width
                                then band.lives[k - world.width * band.head]
                                else old(world.cells[k])
  {
    var width, head := world.width, band.head;
    NextRow(width, world.height, head, y);
    W.MulMono(width, y + 1, band.rows);
    ghost var base := width * head;
    var offset := width * y;
    ghost var rowStart := base + offset;
    assert width * (head + y) == rowStart;
    assert width * (y + 1) == offset + width;
    for x := 0 to width
      invariant forall k :: 0 <= k < world.cells.Length ==>
                  world.cells[k] == if rowStart <= k < rowStart + x then band.lives[k - base]
                                    else old(world.cells[k])
    {
      W.IndexInBounds(width, world.height, x, head + y);
      world.SetLife(x, head + y, band.lives[offset + x]);
    }
  }

  /** Two worlds of the same size: the current one and the scratch one for the next generation. */
  class Game {
    const width: nat
    const height: nat
    var worldA: W.World
    var worldB: W.World
    const cpuNum: nat
    const cpuRows: nat

    ghost predicate Valid()
      reads this, worldA, worldB
    {
      && worldA != worldB && worldA.cells != worldB.cells
      && worldA.Valid() && worldB.Valid()
      && worldA.width == width && worldA.height == height
      && worldB.width == width && worldB.height == height
      && cpuNum >= 1 && cpuRows == height / cpuNum + 1
    }

    /**
     * Loads `lives` row by row (`width` cells per row) into the current
     * world; cells past the end of `lives` stay dead and entries past the
     * last row are dropped. `cpuNum` is the number of worker threads.
     */
    constructor (width: nat, height: nat, lives: seq<bool>, cpuNum: nat)
      requires width > 0 && cpuNum >= 1
      ensures Valid() && fresh(worldA) && fresh(worldB) && fresh(worldA.cells) && fresh(worldB.cells)
      ensures this.width == width && this.height == height && this.cpuNum == cpuNum
      ensures worldA.cells[..] == Loaded(lives, width * height)
      ensures forall i :: 0 <= i < worldB.cells.Length ==> !worldB.cells[i]
    {
      var a := new W.World(width, height);
      var b := new W.World(width, height);
      var n := width * height;
      var y := 0;
      while y * width < |lives|
        invariant a.Valid() && a.width == width && a.height == height
        invariant y * width <= |lives| + width
        invariant forall i :: 0 <= i < n ==>
                    (a.cells[i] <==> i < y * width && i < |lives| && lives[i])
        decreases |lives| - y * width
        modifies a.cells
      {
        var x := 0;
        while x < width && y * width + x < |lives|
          invariant 0 <= x <= width
          invariant forall i :: 0 <= i < n ==>
                      (a.cells[i] <==> i < y * width + x && i < |lives| && lives[i])
          modifies a.cells
        {
          if y < height {
            W.IndexInBounds(width, height, x, y);
          } else {
            W.RowPastEnd(width, height, x, y);
          }
          a.SetLife(x, y, lives[y * width + x]);
          x := x + 1;
        }
        assert (y + 1) * width == y * width + width;
        y := y + 1;
      }
      this.width := width;
      this.height := height;
      this.cpuNum := cpuNum;
      cpuRows := height / cpuNum + 1;
      worldA := a;
      worldB := b;
    }

    /** The current world's cells in row-major order. */
    method Lives() returns (r: seq<bool>)
      requires Valid()
      ensures |r| == width * height
      ensures r == worldA.View().cells
    {
      r := worldA.cells[..];
    }

    /** Exchanges the current and the scratch world; nothing is copied. */
    method Swap()
      requires Valid()
      modifies this
      ensures Valid()
      ensures worldA == old(worldB) && worldB == old(worldA)
    {
      worldA, worldB := worldB, worldA;
    }

    /** Two exchanges give back the world that was current before. */
    method SwapTwice()
      requires Valid()
      modifies this
      ensures Valid()
      ensures worldA == old(worldA) && worldB == old(worldB)
      ensures worldA.cells[..] == old(worldA.cells[..])
    {
      Swap();
      Swap();
    }

    /**
     * One generation, row by row: every cell of the scratch world gets the
     * next liveness of the same cell of the current world; then the two swap.
     */
    method Step()
      requires Valid()
      modifies this, worldB.cells
      ensures Valid()
      ensures worldA == old(worldB) && worldB == old(worldA)
      ensures worldA.View() == Generation(old(worldA.View()))
      ensures worldB.cells[..] == old(worldA.cells[..])
    {
      var a, b := worldA, worldB;
      ghost var next := Generation(a.View());
      for y := 0 to height
        invariant forall x', y' :: 0 <= x' < width && 0 <= y' < y ==> b.View().LiveAt(x', y') == next.LiveAt(x', y')
        modifies b.cells
      {
        StepRow(a, b, y);
        forall x' | 0 <= x' < width
          ensures b.View().LiveAt(x', y) == next.LiveAt(x', y)
        {
          assert a.View().InRange(x', y);
        }
      }
      b.View().Same(next);
      Swap();
    }

    /**
     * One generation in bands: the rows are split into `cpuNum` bands of
     * `cpuRows` rows, each band is computed from the current world alone, the
     * results are installed into the scratch world in band order (empty bands
     * skipped), and then the two worlds swap. The result is the same as `Step`'s.
     */
    method StepP()
      requires Valid()
      modifies this, worldB.cells
      ensures Valid()
      ensures worldA == old(worldB) && worldB == old(worldA)
      ensures worldA.View() == Generation(old(worldA.View()))
      ensures worldB.cells[..] == old(worldA.cells[..])
    {
      var a, b := worldA, worldB;
      ghost var cur := a.View();
      var workers := ComputeBands(a);
      InstallBands(b, cur, workers);
      Swap();
    }

    /** The spawn loop of `step_p`: worker `i` computes band `i` of the next generation of `a`. */
    method ComputeBands(a: W.World) returns (workers: seq<Band>)
      requires a.Valid()
      ensures |workers| == cpuNum
      ensures forall j :: 0 <= j < cpuNum ==> IsBandOf(workers[j], a.View(), BandHead(j, cpuRows), cpuRows)
    {
      workers := [];
      for i := 0 to cpuNum
        invariant |workers| == i
        invariant forall j :: 0 <= j < i ==> IsBandOf(workers[j], a.View(), BandHead(j, cpuRows), cpuRows)
      {
        var band := ComputeBand(a.View(), BandHead(i, cpuRows), cpuRows);
        workers := workers + [band];
      }
    }

    /** The join loop of `step_p`: installs the workers' bands into `b` in order, filling the whole next generation. */
    method InstallBands(b: W.World, ghost cur: W.Grid, workers: seq<Band>)
      requires b.Valid() && b.width == width && b.height == height
      requires cur.Valid() && cur.width == width && cur.height == height
      requires cpuNum >= 1 && cpuRows == height / cpuNum + 1
      requires |workers| == cpuNum
      requires forall j :: 0 <= j < cpuNum ==> IsBandOf(workers[j], cur, BandHead(j, cpuRows), cpuRows)
      modifies b.cells
      ensures b.cells[..] == Generation(cur).cells
    {
      ghost var next := Generation(cur);
      for j := 0 to |workers|
        invariant forall k :: 0 <= k < Done(j) ==> b.cells[k] == next.cells[k]
      {
        JoinBand(b, cur, workers[j], j);
      }
      BandsCover(height, cpuNum, cpuRows);
      assert Covered(cpuNum) == height;
      assert b.cells[..] == next.cells;
    }

    /** One turn of the join loop: installing band `j` extends the finished rows to the end of that band. */
    method JoinBand(b: W.World, ghost cur: W.Grid, band: Band, j: nat)
      requires b.Valid() && b.width == width && b.height == height
      requires cur.Valid() && cur.width == width && cur.height == height && cpuRows >= 1
      requires IsBandOf(band, cur, BandHead(j, cpuRows), cpuRows)
      requires forall k :: 0 <= k < Done(j) ==> b.cells[k] == Generation(cur).cells[k]
      modifies b.cells
      ensures forall k :: 0 <= k < Done(j + 1) ==> b.cells[k] == Generation(cur).cells[k]
    {
      ghost var next := Generation(cur);
      BandStep(band, cur, j);
      if band.rows > 0 {
        ghost var start := width * band.head;
        assert Done(j) == start;
        InstallBand(b, band);
        assert Done(j + 1) == start + |band.lives| by {
          assert width * band.head + width * band.rows == width * (band.head + band.rows);
        }
        forall k | 0 <= k < Done(j + 1)
          ensures b.cells[k] == next.cells[k]
        {
          if start <= k {
            assert band.lives[k - start] == next.cells[start + (k - start)];
          }
        }
      } else {
        assert Done(j + 1) == Done(j);
      }
    }

    /** Rows above the first `j` bands, cut off at the bottom of the grid. */
    ghost function Covered(j: nat): nat
      reads this
    {
      if BandHead(j, cpuRows) < height then BandHead(j, cpuRows) else height
    }

    /** Buffer cells above the first `j` bands; never more than the buffer holds. */
    ghost function Done(j: nat): (n: nat)
      reads this
      ensures n <= width * height
    {
      W.MulMono(width, Covered(j), height);
      width * Covered(j)
    }

    /** Band `j` continues exactly where the bands before it stop. */
    lemma BandStep(band: Band, cur: W.Grid, j: nat)
      requires cur.Valid() && cur.height == height && cpuRows >= 1
      requires IsBandOf(band, cur, BandHead(j, cpuRows), cpuRows)
      ensures band.rows > 0 ==> band.head == Covered(j)
      ensures Covered(j + 1) == if band.rows == 0 then Covered(j) else band.head + band.rows
    {
      assert BandHead(j + 1, cpuRows) == BandHead(j, cpuRows) + cpuRows;
    }
  }

  /** The classic blinker, lying flat: a row of three live cells. */
  const BlinkerFlat := W.Grid(3, 3, [false, false, false, true, true, true, false, false, false])

  /** The blinker standing up: a column of three live cells. */
  const BlinkerUp := W.Grid(3, 3, [false, true, false, false, true, false, false, true, false])

  /** Cell by cell, the flat blinker's successor is the standing one. */
  lemma BlinkerFlatCell(x: nat, y: nat)
    requires x < 3 && y < 3
    ensures NextLive(BlinkerFlat, x, y) == BlinkerUp.LiveAt(x, y)
  {
    NeighbourCountSum(BlinkerFlat, x, y);
    if x == 0 && y == 0 {
    } else if x == 0 && y == 1 {
    } else if x == 0 {
    } else if x == 1 && y == 0 {
    } else if x == 1 && y == 1 {
    } else if x == 1 {
    } else if y == 0 {
    } else if y == 1 {
    } else {
    }
  }

  /** Cell by cell, the standing blinker's successor is the flat one. */
  lemma BlinkerUpCell(x: nat, y: nat)
    requires x < 3 && y < 3
    ensures NextLive(BlinkerUp, x, y) == BlinkerFlat.LiveAt(x, y)
  {
    NeighbourCountSum(BlinkerUp, x, y);
    if x == 0 && y == 0 {
    } else if x == 0 && y == 1 {
    } else if x == 0 {
    } else if x == 1 && y == 0 {
    } else if x == 1 && y == 1 {
    } else if x == 1 {
    } else if y == 0 {
    } else if y == 1 {
    } else {
    }
  }

  /** The blinker oscillates with period two. */
  lemma Blinker()
    ensures Generation(BlinkerFlat) == BlinkerUp
    ensures Generation(BlinkerUp) == BlinkerFlat
  {
    forall k | 0 <= k < 9
      ensures Generation(BlinkerFlat).cells[k] == BlinkerUp.cells[k]
      ensures Generation(BlinkerUp).cells[k] == BlinkerFlat.cells[k]
    {
      BlinkerFlatCell(k % 3, k / 3);
      BlinkerUpCell(k % 3, k / 3);
    }
  }
}
