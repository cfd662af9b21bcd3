/** What every plot shares: integer scaling onto cells, the row-major cell grid, and reading
    the marks off it. */
module Canvas {
  import opened Core
  import opened Arithmetic

  /** The smallest rectangle that is plotted on. */
  const MIN_W: u16 := 8
  const MIN_H: u16 := 3

  predicate TooSmall(width: u16, height: u16) { width < MIN_W || height < MIN_H }

  /** One plotted cell; row 0 is the bottom row. */
  datatype Mark<I> = Mark(col: nat, row: nat, ink: I)

  // ------------------------------------------------------------------ scaling

  /** The cell, out of `n`, for value `v` on an axis from 0 to `top`; an empty axis has only
      cell 0. */
  function Cell(v: nat, top: int, n: int): (c: nat)
    requires n > 0
    ensures c < n
  {
    if top <= 0 then 0
    else
      QuotientIsNat(v * (n - 1), top);
      Min(v * (n - 1) / top, n - 1)
  }

  function Min(a: int, b: int): int { if a <= b then a else b }

  /** The time of the x axis nearest to `t`. */
  function Clamp(t: u64, lo: u64, hi: u64): (r: u64)
    requires lo <= hi
    ensures lo <= r <= hi && (lo <= t <= hi ==> r == t)
  {
    if t < lo then lo else if t > hi then hi else t
  }

  lemma QuotientIsNat(a: nat, b: int)
    requires b > 0
    ensures a / b >= 0
  {}

  /** The column of time `t`. */
  function Column(t: u64, t0: u64, span: u64, width: u16): (c: nat)
    requires width > 0
    ensures c < width
  {
    Cell(SatSub(t, t0), span, width)
  }

  /** A value on the axis lands in cell `c` exactly when `c` steps of `top / (n - 1)` fit
      under it and no more. */
  lemma CellExactly(v: nat, top: int, n: int, c: nat)
    requires n > 1 && top > 0 && v <= top
    ensures Cell(v, top, n) == c <==> c * top <= v * (n - 1) < (c + 1) * top
  {
    ProductGrows(v, top, n - 1);
    QuotientExactly(top * (n - 1), top, n - 1);
    QuotientGrows(v * (n - 1), top * (n - 1), top);
    QuotientExactly(v * (n - 1), top, c);
  }

  /** Larger values never land in lower cells. */
  lemma CellIsMonotone(v: nat, w: nat, top: int, n: int)
    requires n > 0 && v <= w
    ensures Cell(v, top, n) <= Cell(w, top, n)
  {
    if top > 0 {
      ProductGrows(v, w, n - 1);
      QuotientGrows(v * (n - 1), w * (n - 1), top);
    }
  }

  // --------------------------------------------------------------- cell grid

  /** Where cell (col, row) lives in a row-major grid. */
  function Index(col: nat, row: nat, width: nat): nat { row * width + col }

  /** Every cell has a place of its own inside the grid, and every place is a cell's. */
  lemma IndexIsOneToOne(col: nat, row: nat, width: nat, height: nat)
    requires col < width && row < height
    ensures Index(col, row, width) < width * height
    ensures Index(col, row, width) % width == col && Index(col, row, width) / width == row
  {
    ProductGrows(row + 1, height, width);
    assert (row + 1) * width == row * width + width;
    DivModUnique(row, col, width);
  }

  /** The content of cell (col, row). */
  function At<C>(grid: seq<Option<C>>, width: nat, col: nat, row: nat): Option<C> {
    var k := Index(col, row, width);
    if k < |grid| then grid[k] else None
  }

  /** Writing one cell leaves every other cell of the rectangle alone. */
  lemma WriteCell<C>(grid: seq<Option<C>>, width: nat, height: nat, col: nat, row: nat, x: Option<C>)
    requires |grid| == width * height && col < width && row < height
    ensures Index(col, row, width) < |grid|
    ensures Written(grid, grid[Index(col, row, width) := x], width, height, col, row, x)
  {
    IndexIsOneToOne(col, row, width, height);
    var next := grid[Index(col, row, width) := x];
    forall c: nat, r: nat | c < width && r < height
      ensures At(next, width, c, r) == if c == col && r == row then x else At(grid, width, c, r)
    {
      CellOrder(c, r, col, row, width);
    }
  }

  ghost predicate Written<C>(was: seq<Option<C>>, now: seq<Option<C>>, width: nat, height: nat,
                             col: nat, row: nat, x: Option<C>)
  {
    forall c: nat, r: nat | c < width && r < height ::
      At(now, width, c, r) == if c == col && r == row then x else At(was, width, c, r)
  }

  /** Fills the empty cells of the cursor column, and only those. */
  method DrawCursor<C>(grid: array<Option<C>>, width: nat, height: nat, cursorCol: nat, cursor: C)
    requires cursorCol < width && grid.Length == width * height
    modifies grid
    ensures forall c: nat, r: nat | c < width && r < height ::
              At(grid[..], width, c, r) == WithCursor(old(grid[..]), width, cursorCol, cursor, c, r)
  {
    ghost var was := grid[..];
    for row := 0 to height
      invariant forall c: nat, r: nat | c < width && r < height ::
                  At(grid[..], width, c, r) ==
                  if r < row then WithCursor(was, width, cursorCol, cursor, c, r) else At(was, width, c, r)
    {
      ghost var now := grid[..];
      WriteCell(now, width, height, cursorCol, row, Some(cursor));
      assert At(now, width, cursorCol, row) == At(was, width, cursorCol, row);
      var k := Index(cursorCol, row, width);
      if grid[k].None? {
        grid[k] := Some(cursor);
        assert grid[..] == now[k := Some(cursor)];
      }
    }
  }

  ghost function WithCursor<C>(grid: seq<Option<C>>, width: nat, cursorCol: nat, cursor: C, col: nat, row: nat)
    : Option<C>
  {
    var cell := At(grid, width, col, row);
    if cell.None? && col == cursorCol then Some(cursor) else cell
  }

  // --------------------------------------------------------------------- marks

  /** Marks run along the rows from the bottom, left to right, no cell twice. */
  ghost predicate RowMajor<I>(marks: seq<Mark<I>>) {
    forall i, j | 0 <= i < j < |marks| :: Before(marks[i], marks[j])
  }

  predicate Before<I>(a: Mark<I>, b: Mark<I>) { a.row < b.row || (a.row == b.row && a.col < b.col) }

  /** A row-major list of marks is determined by which marks are in it. */
  lemma {:induction false} RowMajorIsDetermined<I(!new)>(a: seq<Mark<I>>, b: seq<Mark<I>>)
    requires RowMajor(a) && RowMajor(b) && forall m :: m in a <==> m in b
    ensures a == b
  {
    assert |a| > 0 ==> a[0] in b;
    assert |b| > 0 ==> b[0] in a;
    if |a| > 0 {
      var n, k := |a| - 1, |b| - 1;
      assert a[n] in b;
      assert b[k] in a;
      var p, q := a[..n], b[..k];
      assert a[n] == b[k];
      assert a == p + [a[n]] && b == q + [b[k]];
      forall m ensures m in p <==> m in q {
        assert m in p ==> m in a && m != a[n];
        assert m in q ==> m in b && m != b[k];
      }
      RowMajorIsDetermined(p, q);
    }
  }

  /** The marks of a whole grid: one for each filled cell of the rectangle. */
  ghost predicate Depicts<C, I(!new)>(marks: seq<Mark<I>>, grid: seq<Option<C>>, width: nat, height: nat, ink: C -> I) {
    && RowMajor(marks)
    && forall m: Mark<I> ::
         m in marks <==> m.col < width && m.row < height && Inked(At(grid, width, m.col, m.row), ink, m.ink)
  }

  /** The marks of the first `n` places of a grid. */
  ghost predicate ReadOff<C, I(!new)>(marks: seq<Mark<I>>, grid: seq<Option<C>>, width: nat, ink: C -> I, n: nat)
    requires width > 0 && n <= |grid|
  {
    && RowMajor(marks)
    && (forall m | m in marks :: m.col < width && Index(m.col, m.row, width) < n)
    && (forall m: Mark<I> | m.col < width && Index(m.col, m.row, width) < n ::
          m in marks <==> Inked(grid[Index(m.col, m.row, width)], ink, m.ink))
  }

  ghost predicate Inked<C, I>(cell: Option<C>, ink: C -> I, i: I) { cell.Some? && ink(cell.value) == i }

  /** Reads the marks off a filled grid, in row-major order. */
  method CollectMarks<C, I(!new)>(grid: array<Option<C>>, width: nat, height: nat, ink: C -> I)
    returns (marks: seq<Mark<I>>)
    requires width > 0 && grid.Length == width * height
    ensures Depicts(marks, grid[..], width, height, ink)
  {
    marks := [];
    for row := 0 to height
      invariant Index(0, row, width) <= grid.Length
      invariant ReadOff(marks, grid[..], width, ink, Index(0, row, width))
    {
      for col := 0 to width
        invariant Index(col, row, width) <= grid.Length
        invariant ReadOff(marks, grid[..], width, ink, Index(col, row, width))
      {
        IndexIsOneToOne(col, row, width, height);
        ReadOneMore(marks, grid[..], width, ink, col, row);
        var cell := grid[Index(col, row, width)];
        if cell.Some? {
          marks := marks + [Mark(col, row, ink(cell.value))];
        }
      }
      RowEnds(row, width);
    }
    ReadAll(marks, grid[..], width, height, ink);
  }

  lemma RowEnds(row: nat, width: nat)
    ensures Index(width, row, width) == Index(0, row + 1, width)
  {}

  lemma ReadAll<C, I(!new)>(marks: seq<Mark<I>>, grid: seq<Option<C>>, width: nat, height: nat, ink: C -> I)
    requires width > 0 && |grid| == width * height && ReadOff(marks, grid, width, ink, |grid|)
    ensures Depicts(marks, grid, width, height, ink)
  {
    forall m: Mark<I> | m.col < width
      ensures Index(m.col, m.row, width) < |grid| <==> m.row < height
    {
      if m.row < height {
        IndexIsOneToOne(m.col, m.row, width, height);
      } else {
        ProductGrows(height, m.row, width);
      }
    }
  }

  lemma ReadOneMore<C, I(!new)>(marks: seq<Mark<I>>, grid: seq<Option<C>>, width: nat, ink: C -> I, col: nat, row: nat)
    requires col < width && Index(col, row, width) < |grid|
    requires ReadOff(marks, grid, width, ink, Index(col, row, width))
    ensures var cell := grid[Index(col, row, width)];
            ReadOff(if cell.Some? then marks + [Mark(col, row, ink(cell.value))] else marks,
                    grid, width, ink, Index(col, row, width) + 1)
  {
    var k := Index(col, row, width);
    forall m: Mark<I> | m.col < width
      ensures Index(m.col, m.row, width) < k ==> Before(m, Mark(col, row, m.ink))
      ensures Index(m.col, m.row, width) == k <==> m.col == col && m.row == row
    {
      CellOrder(m.col, m.row, col, row, width);
    }
  }

  /** Places in the grid are ordered as the cells are. */
  lemma CellOrder(c1: nat, r1: nat, c2: nat, r2: nat, width: nat)
    requires c1 < width && c2 < width
    ensures Index(c1, r1, width) < Index(c2, r2, width) <==> r1 < r2 || (r1 == r2 && c1 < c2)
    ensures Index(c1, r1, width) == Index(c2, r2, width) <==> r1 == r2 && c1 == c2
  {
    if r1 < r2 { HigherRowsFollow(c1, r1, c2, r2, width); }
    if r2 < r1 { HigherRowsFollow(c2, r2, c1, r1, width); }
  }

  lemma HigherRowsFollow(c1: nat, r1: nat, c2: nat, r2: nat, width: nat)
    requires c1 < width && r1 < r2
    ensures Index(c1, r1, width) < Index(c2, r2, width)
  {
    ProductGrows(r1 + 1, r2, width);
    assert (r1 + 1) * width == r1 * width + width;
  }
}
