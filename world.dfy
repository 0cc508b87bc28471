/**
 * The bounds-checked grid of the Life engine: a flat row-major buffer of
 * `width * height` cells, where cell (x, y) lives at index `width * y + x`.
 * Reads outside the grid report a dead cell and writes outside it are
 * ignored, so the rule can treat the grid as surrounded by dead cells.
 */
module World {

  /** Row-major index of cell (x, y) lies inside a `width * height` buffer. */
  lemma IndexInBounds(width: nat, height: nat, x: nat, y: nat)
    requires x < width && y < height
    ensures width * y + x < width * height
  {
    assert width * y + x < width * y + width == width * (y + 1);
    assert width * (y + 1) <= width * height;
  }

  /** A row at or below `height` starts at or past the end of the buffer. */
  lemma RowPastEnd(width: nat, height: nat, x: nat, y: nat)
    requires height <= y
    ensures width * height <= width * y + x
  {
    assert width * height <= width * y;
  }

  /** Multiplying by the width keeps the order of rows. */
  lemma MulMono(width: nat, a: nat, b: nat)
    requires a <= b
    ensures width * a <= width * b
  {
    assert width * b == width * a + width * (b - a);
  }

  /** Row-major indexing is injective: distinct cells have distinct indices. */
  lemma IndexInjective(width: nat, x: nat, y: nat, x': nat, y': nat)
    requires x < width && x' < width
    requires width * y + x == width * y' + x'
    ensures x == x' && y == y'
  {
    if y < y' {
      RowAfter(width, y, y');
    } else if y' < y {
      RowAfter(width, y', y);
    }
  }

  /** A later row starts at least one full row further on. */
  lemma RowAfter(width: nat, y: nat, y': nat)
    requires y < y'
    ensures width * y + width <= width * y'
  {
    var d := y' - y - 1;
    calc {
      width * y';
      width * (y + 1 + d);
      width * y + width + width * d;
    }
  }

  /** Division by the width recovers the row and the column of a cell index. */
  lemma IndexDecompose(width: nat, x: nat, y: nat)
    requires x < width
    ensures (width * y + x) / width == y && (width * y + x) % width == x
  {
    var i := width * y + x;
    assert i == width * (i / width) + i % width;
    IndexInjective(width, i % width, i / width, x, y);
  }

  /** Every buffer index is the index of some cell of the grid. */
  lemma IndexCell(width: nat, height: nat, i: nat)
    requires i < width * height
    ensures width > 0 && i % width < width && i / width < height
    ensures i == width * (i / width) + i % width
  {
    if height <= i / width {
      RowPastEnd(width, height, i % width, i / width);
    }
  }

  /** The value of a grid: what a `World` holds at one instant. */
  datatype Grid = Grid(width: nat, height: nat, cells: seq<bool>)
  {
    ghost predicate Valid() { |cells| == width * height }

    predicate InRange(x: int, y: int) { 0 <= x < width && 0 <= y < height }

    /** Liveness of (x, y); every cell outside the grid is dead. */
    function LiveAt(x: int, y: int): (r: bool)
      requires Valid()
      ensures r ==> InRange(x, y)
      ensures InRange(x, y) ==> width * y + x < |cells| && r == cells[width * y + x]
    {
      if InRange(x, y) then
        IndexInBounds(width, height, x, y);
        cells[width * y + x]
      else
        false
    }

    /** Two grids of the same dimensions that agree on every cell are equal. */
    lemma Same(other: Grid)
      requires Valid() && other.Valid() && other.width == width && other.height == height
      requires forall x, y :: InRange(x, y) ==> LiveAt(x, y) == other.LiveAt(x, y)
      ensures this == other
    {
      forall i | 0 <= i < |cells|
        ensures cells[i] == other.cells[i]
      {
        IndexCell(width, height, i);
        assert LiveAt(i % width, i / width) == other.LiveAt(i % width, i / width);
      }
    }

    /** The grid with cell (x, y) set to `v`; unchanged when (x, y) is outside. */
    function Set(x: int, y: int, v: bool): (g: Grid)
      requires Valid()
      ensures g.Valid() && g.width == width && g.height == height
      ensures g.LiveAt(x, y) == (InRange(x, y) && v)
      ensures forall x', y' :: (x', y') != (x, y) ==> g.LiveAt(x', y') == LiveAt(x', y')
    {
      if InRange(x, y) then
        IndexInBounds(width, height, x, y);
        var g := Grid(width, height, cells[width * y + x := v]);
        forall x', y' | (x', y') != (x, y) && InRange(x', y')
          ensures g.LiveAt(x', y') == LiveAt(x', y')
        {
          IndexInBounds(width, height, x', y');
          if width * y' + x' == width * y + x {
            IndexInjective(width, x, y, x', y');
          }
        }
        g
      else
        this
    }
  }

  /** The mutable buffer: dimensions fixed, cells updated in place. */
  class World {
    const width: nat
    const height: nat
    const cells: array<bool>

    ghost predicate Valid() reads this
    {
      cells.Length == width * height
    }

    /** The current contents as a value. */
    function View(): (g: Grid)
      reads this, cells
      requires Valid()
      ensures g.Valid() && g.width == width && g.height == height && g.cells == cells[..]
    {
      Grid(width, height, cells[..])
    }

    /** A `width * height` grid with every cell dead. */
    constructor (width: nat, height: nat)
      ensures Valid() && fresh(cells)
      ensures this.width == width && this.height == height
      ensures cells.Length == width * height
      ensures forall i :: 0 <= i < cells.Length ==> !cells[i]
    {
      this.width := width;
      this.height := height;
      cells := new bool[width * height](_ => false);
    }

    /**
     * Range check of a coordinate: the same coordinate back when it lies in
     * the grid, and its row-major index is then inside the buffer.
     */
    function IsIn(x: int, y: int): (r: Option<(nat, nat)>)
      reads this
      requires Valid()
      ensures r.Some? <==> 0 <= x < width && 0 <= y < height
      ensures r.Some? ==> r.value.0 == x && r.value.1 == y
      ensures r.Some? ==> width * r.value.1 + r.value.0 < cells.Length
    {
      if x < 0 || width <= x || y < 0 || height <= y then
        None
      else
        IndexInBounds(width, height, x, y);
        Some((x as nat, y as nat))
    }

    /** Liveness of (x, y); false for every coordinate outside the grid. */
    method IsLive(x: int, y: int) returns (r: bool)
      requires Valid()
      ensures !(0 <= x < width && 0 <= y < height) ==> !r
      ensures 0 <= x < width && 0 <= y < height ==>
                width * y + x < cells.Length && r == cells[width * y + x]
      ensures r == View().LiveAt(x, y)
    {
      match IsIn(x, y)
      case Some((x', y')) => r := cells[width * y' + x'];
      case None => r := false;
    }

    /** Writes one cell; a coordinate outside the grid changes nothing. */
    method SetLife(x: int, y: int, doa: bool)
      requires Valid()
      modifies cells
      ensures Valid()
      ensures 0 <= x < width && 0 <= y < height ==>
                width * y + x < cells.Length && cells[..] == old(cells[..])[width * y + x := doa]
      ensures !(0 <= x < width && 0 <= y < height) ==> cells[..] == old(cells[..])
      ensures View() == old(View()).Set(x, y, doa)
    {
      match IsIn(x, y)
      case Some((x', y')) => cells[width * y' + x'] := doa;
      case None =>
    }

    /**
     * Overwrites the run of cells starting at (x, y) in row-major order with
     * `doa`, but only when the whole run fits in the buffer.
     */
    method SetLives(x: nat, y: nat, doa: seq<bool>)
      requires Valid()
      modifies cells
      ensures Valid()
      ensures width * y + x + |doa| <= cells.Length ==>
                var head := width * y + x;
                cells[..] == old(cells[..head]) + doa + old(cells[head + |doa|..])
      ensures cells.Length < width * y + x + |doa| ==> cells[..] == old(cells[..])
    {
      var head := width * y + x;
      var tail := head + |doa|;
      if tail <= cells.Length {
        forall k | head <= k < tail {
          cells[k] := doa[k - head];
        }
        assert cells[..] == old(cells[..head]) + doa + old(cells[tail..]);
      }
    }
  }

  datatype Option<T> = None | Some(value: T)
}
