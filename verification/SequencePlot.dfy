/** The Time/Sequence plot: a connection's revealed sequence samples bucketed into cells, the
    most salient one winning each, with a cursor column behind them. */
module SequencePlot {
  import opened Core
  import opened Canvas

  type SeqPoint = s: Sample | s.SeqSample? witness SeqSample(0, OriginToResponder, 0, 0, Sack)

  const DATA_GLYPH: char := '#'
  const OOO_GLYPH: char := 'o'
  const RETRANS_GLYPH: char := '\U{00B7}'
  const SACK_GLYPH: char := '\U{254E}'
  const CURSOR_GLYPH: char := '\U{250A}'

  /** A glyph and its claim to a shared cell; the higher wins. */
  datatype Ink = Ink(prio: nat, glyph: char)

  const CURSOR: Ink := Ink(0, CURSOR_GLYPH)

  datatype SeqPlot = SeqPlot(
    width: u16, height: u16, maxRel: int, xSpan: (u64, u64), cursorCol: nat, marks: seq<Mark<char>>)

  function KindInk(k: SeqKind): Ink {
    match k
    case Data(true, _) => Ink(3, RETRANS_GLYPH)
    case Sack => Ink(2, SACK_GLYPH)
    case Data(false, true) => Ink(1, OOO_GLYPH)
    case Data(false, false) => Ink(0, DATA_GLYPH)
  }

  // --------------------------------------------------------------------- axes

  /** What is fixed before anything is placed: the axes, the rectangle, and what is revealed. */
  datatype View = View(
    focus: Direction, t0: u64, span: u64, base: int, maxRel: int, width: u16, height: u16, cursor: u64)
  {
    ghost predicate Valid(series: seq<SeqPoint>) {
      && !TooSmall(width, height)
      && forall s | s in series && s.dir == focus :: base <= s.rel && s.rel - base + s.len <= maxRel
    }

    predicate Reveals(s: SeqPoint) { s.dir == focus && s.t <= cursor }

    function Col(t: u64): (c: nat)
      requires width > 0
      ensures c < width
    {
      Column(t, t0, span, width)
    }

    function Row(s: SeqPoint): (r: nat)
      requires height > 0 && base <= s.rel
      ensures r < height
    {
      Cell(s.rel - base, maxRel, height)
    }

    /** The sample is revealed, in cell (col, row). */
    predicate Lands(s: SeqPoint, col: nat, row: nat)
      requires width > 0 && height > 0
    {
      Reveals(s) && Col(s.t) == col && base <= s.rel && Row(s) == row
    }
  }

  /** The least relative sequence number in the focus direction. */
  function Base(series: seq<SeqPoint>, focus: Direction): (r: Option<int>)
    ensures r.None? <==> forall s | s in series :: s.dir != focus
    ensures r.Some? ==> exists s :: s in series && s.dir == focus && s.rel == r.value
    ensures r.Some? ==> forall s | s in series && s.dir == focus :: r.value <= s.rel
  {
    if |series| == 0 then None
    else
      var pre, s := Base(series[..|series| - 1], focus), series[|series| - 1];
      assert series == series[..|series| - 1] + [s];
      if s.dir != focus then pre
      else if pre.None? || s.rel < pre.value then Some(s.rel) else pre
  }

  /** The furthest a sample of the focus direction reaches above `base`. */
  function Reach(series: seq<SeqPoint>, focus: Direction, base: int): (r: Option<int>)
    ensures r.None? <==> forall s | s in series :: s.dir != focus
    ensures r.Some? ==> exists s :: s in series && s.dir == focus && s.rel - base + s.len == r.value
    ensures r.Some? ==> forall s | s in series && s.dir == focus :: s.rel - base + s.len <= r.value
  {
    if |series| == 0 then None
    else
      var pre, s := Reach(series[..|series| - 1], focus, base), series[|series| - 1];
      assert series == series[..|series| - 1] + [s];
      if s.dir != focus then pre
      else if pre.None? || s.rel - base + s.len > pre.value then Some(s.rel - base + s.len) else pre
  }

  function OrZero(v: Option<int>): int { if v.Some? then v.value else 0 }

  function Axes(series: seq<SeqPoint>, focus: Direction, xSpan: (u64, u64), cursor: u64, width: u16, height: u16)
    : (v: View)
    requires !TooSmall(width, height)
    ensures v.Valid(series)
  {
    var base := OrZero(Base(series, focus));
    View(focus, xSpan.0, SatSub(xSpan.1, xSpan.0), base, OrZero(Reach(series, focus, base)), width, height, cursor)
  }

  // ------------------------------------------------------ what each cell shows

  /** Some revealed sample in the cell is as salient as any there, and has this glyph. */
  ghost predicate IsMostSalient(v: View, series: seq<SeqPoint>, col: nat, row: nat, ink: Ink)
    requires v.width > 0 && v.height > 0
  {
    && (exists s :: s in series && v.Lands(s, col, row) && KindInk(s.kind) == ink)
    && (forall s | s in series && v.Lands(s, col, row) :: KindInk(s.kind).prio <= ink.prio)
  }

  ghost predicate IsEmpty(v: View, series: seq<SeqPoint>, col: nat, row: nat)
    requires v.width > 0 && v.height > 0
  {
    forall s | s in series :: !v.Lands(s, col, row)
  }

  /** The cell's content, declaratively. */
  ghost predicate Shows(v: View, series: seq<SeqPoint>, cursorCol: nat, col: nat, row: nat, glyph: char)
    requires v.width > 0 && v.height > 0
  {
    || (exists ink :: IsMostSalient(v, series, col, row, ink) && ink.glyph == glyph)
    || (IsEmpty(v, series, col, row) && col == cursorCol && glyph == CURSOR_GLYPH)
  }

  /** The plot's marks are exactly what the cells show, in row-major order. */
  ghost predicate Pictures(marks: seq<Mark<char>>, v: View, series: seq<SeqPoint>, cursorCol: nat)
    requires v.width > 0 && v.height > 0
  {
    && RowMajor(marks)
    && forall m: Mark<char> ::
         m in marks <==> m.col < v.width && m.row < v.height && Shows(v, series, cursorCol, m.col, m.row, m.ink)
  }

  /** The content of one cell after the samples placed so far. */
  ghost predicate Holds(v: View, series: seq<SeqPoint>, col: nat, row: nat, cell: Option<Ink>)
    requires v.width > 0 && v.height > 0
  {
    match cell
    case None => IsEmpty(v, series, col, row)
    case Some(ink) => IsMostSalient(v, series, col, row, ink)
  }

  /** Placing one more sample keeps the most salient. */
  lemma PlaceKeepsMostSalient(v: View, pre: seq<SeqPoint>, s: SeqPoint, col: nat, row: nat, cell: Option<Ink>)
    requires v.width > 0 && v.height > 0 && Holds(v, pre, col, row, cell)
    ensures !v.Lands(s, col, row) ==> Holds(v, pre + [s], col, row, cell)
    ensures v.Lands(s, col, row) ==>
              Holds(v, pre + [s], col, row,
                    if cell.Some? && cell.value.prio >= KindInk(s.kind).prio then cell else Some(KindInk(s.kind)))
  {
    var all := pre + [s];
    assert all[|pre|] == s && s in all;
    assert forall x :: x in all <==> x in pre || x == s;
  }

  // -------------------------------------------------------------- projection

  ghost predicate GridHolds(grid: seq<Option<Ink>>, v: View, series: seq<SeqPoint>)
    requires v.width > 0 && v.height > 0
  {
    forall col: nat, row: nat | col < v.width && row < v.height ::
      Holds(v, series, col, row, At(grid, v.width, col, row))
  }

  method PlaceSamples(v: View, series: seq<SeqPoint>) returns (grid: array<Option<Ink>>)
    requires v.Valid(series)
    ensures fresh(grid) && grid.Length == v.width * v.height && GridHolds(grid[..], v, series)
  {
    grid := new Option<Ink>[v.width * v.height](_ => None);
    for i := 0 to |series|
      invariant GridHolds(grid[..], v, series[..i])
    {
      assert series[..i + 1] == series[..i] + [series[i]];
      PlaceOne(v, series[..i], series[i], grid);
    }
    assert series[..|series|] == series;
  }

  /** A cell's content once one more sample is placed: the sample's ink if it lands there and
      is more salient than what the cell held. */
  function Replaced(v: View, s: SeqPoint, grid: seq<Option<Ink>>, col: nat, row: nat): Option<Ink>
    requires v.width > 0 && v.height > 0
  {
    var cell := At(grid, v.width, col, row);
    if v.Lands(s, col, row) && !(cell.Some? && cell.value.prio >= KindInk(s.kind).prio)
    then Some(KindInk(s.kind)) else cell
  }

  lemma PlacedHolds(v: View, pre: seq<SeqPoint>, s: SeqPoint, was: seq<Option<Ink>>, now: seq<Option<Ink>>)
    requires v.width > 0 && v.height > 0 && GridHolds(was, v, pre)
    requires forall col: nat, row: nat | col < v.width && row < v.height ::
               At(now, v.width, col, row) == Replaced(v, s, was, col, row)
    ensures GridHolds(now, v, pre + [s])
  {
    forall col: nat, row: nat | col < v.width && row < v.height
      ensures Holds(v, pre + [s], col, row, At(now, v.width, col, row))
    {
      PlaceKeepsMostSalient(v, pre, s, col, row, At(was, v.width, col, row));
      assert At(now, v.width, col, row) == Replaced(v, s, was, col, row);
    }
  }

  method PlaceOne(v: View, ghost pre: seq<SeqPoint>, s: SeqPoint, grid: array<Option<Ink>>)
    requires v.Valid(pre + [s]) && grid.Length == v.width * v.height && GridHolds(grid[..], v, pre)
    modifies grid
    ensures GridHolds(grid[..], v, pre + [s])
  {
    ghost var was := grid[..];
    if v.Reveals(s) {
      assert s in pre + [s];
      WriteSample(v, s, grid);
    }
    PlacedHolds(v, pre, s, was, grid[..]);
  }

  method WriteSample(v: View, s: SeqPoint, grid: array<Option<Ink>>)
    requires !TooSmall(v.width, v.height) && grid.Length == v.width * v.height
    requires v.Reveals(s) && v.base <= s.rel
    modifies grid
    ensures forall col: nat, row: nat | col < v.width && row < v.height ::
              At(grid[..], v.width, col, row) == Replaced(v, s, old(grid[..]), col, row)
  {
    ghost var was := grid[..];
    var col, row := v.Col(s.t), v.Row(s);
    var ink := KindInk(s.kind);
    WriteCell(was, v.width, v.height, col, row, Some(ink));
    var k := Index(col, row, v.width);
    if !(grid[k].Some? && grid[k].value.prio >= ink.prio) {
      grid[k] := Some(ink);
      assert grid[..] == was[k := Some(ink)];
    }
  }

  /** The Time/Sequence plot of `series`, or nothing when the rectangle is too small. */
  method Project(series: seq<SeqPoint>, focus: Direction, xSpan: (u64, u64), cursor: u64, width: u16, height: u16)
    returns (plot: Option<SeqPlot>)
    requires TooSmall(width, height) || xSpan.0 <= xSpan.1
    ensures plot.None? <==> TooSmall(width, height)
    ensures plot.Some? ==> IsPlotOf(plot.value, series, focus, xSpan, cursor, width, height)
  {
    if TooSmall(width, height) {
      return None;
    }
    var v := Axes(series, focus, xSpan, cursor, width, height);
    var grid := PlaceSamples(v, series);
    ghost var placed := grid[..];
    var cursorCol := v.Col(Clamp(cursor, xSpan.0, xSpan.1));
    DrawCursor(grid, width, height, cursorCol, CURSOR);
    var marks := CollectMarks(grid, width, height, (ink: Ink) => ink.glyph);
    DrawnIsShown(v, series, cursorCol, placed, grid[..], marks);
    plot := Some(SeqPlot(width, height, v.maxRel, xSpan, cursorCol, marks));
  }

  ghost predicate IsPlotOf(plot: SeqPlot, series: seq<SeqPoint>, focus: Direction, xSpan: (u64, u64), cursor: u64,
                           width: u16, height: u16)
    requires !TooSmall(width, height) && xSpan.0 <= xSpan.1
  {
    var v := Axes(series, focus, xSpan, cursor, width, height);
    && plot.width == width && plot.height == height && plot.xSpan == xSpan && plot.maxRel == v.maxRel
    && plot.cursorCol == v.Col(Clamp(cursor, xSpan.0, xSpan.1))
    && Pictures(plot.marks, v, series, plot.cursorCol)
  }

  lemma DrawnIsShown(v: View, series: seq<SeqPoint>, cursorCol: nat, placed: seq<Option<Ink>>,
                     drawn: seq<Option<Ink>>, marks: seq<Mark<char>>)
    requires v.width > 0 && v.height > 0 && GridHolds(placed, v, series)
    requires forall col: nat, row: nat | col < v.width && row < v.height ::
               At(drawn, v.width, col, row) == WithCursor(placed, v.width, cursorCol, CURSOR, col, row)
    requires Depicts(marks, drawn, v.width, v.height, (ink: Ink) => ink.glyph)
    ensures Pictures(marks, v, series, cursorCol)
  {
    forall m: Mark<char> | m.col < v.width && m.row < v.height
      ensures Inked(At(drawn, v.width, m.col, m.row), (ink: Ink) => ink.glyph, m.ink)
           <==> Shows(v, series, cursorCol, m.col, m.row, m.ink)
    {
      HeldIsShown(v, series, cursorCol, m.col, m.row, At(placed, v.width, m.col, m.row), m.ink);
    }
  }

  lemma HeldIsShown(v: View, series: seq<SeqPoint>, cursorCol: nat, col: nat, row: nat, cell: Option<Ink>, glyph: char)
    requires v.width > 0 && v.height > 0 && Holds(v, series, col, row, cell)
    ensures Shows(v, series, cursorCol, col, row, glyph) <==>
              if cell.Some? then cell.value.glyph == glyph else col == cursorCol && glyph == CURSOR_GLYPH
  {
    if cell.Some? {
      forall ink | IsMostSalient(v, series, col, row, ink)
        ensures ink == cell.value
      {
        MostSalientIsUnique(v, series, col, row, ink, cell.value);
      }
    }
  }

  /** Priorities tell the kinds apart, so a cell has at most one most salient ink. */
  lemma MostSalientIsUnique(v: View, series: seq<SeqPoint>, col: nat, row: nat, a: Ink, b: Ink)
    requires v.width > 0 && v.height > 0
    requires IsMostSalient(v, series, col, row, a) && IsMostSalient(v, series, col, row, b)
    ensures a == b
  {
    assert a.prio == b.prio;
  }

  // --------------------------------------------------------------- properties

  ghost predicate SameSamples(a: seq<SeqPoint>, b: seq<SeqPoint>) { forall s :: s in a <==> s in b }

  /** The plot depends only on which samples there are, not on their order or repetition. */
  lemma PlotIgnoresOrder(p: SeqPlot, q: SeqPlot, a: seq<SeqPoint>, b: seq<SeqPoint>, focus: Direction,
                         xSpan: (u64, u64), cursor: u64, width: u16, height: u16)
    requires !TooSmall(width, height) && xSpan.0 <= xSpan.1 && SameSamples(a, b)
    requires IsPlotOf(p, a, focus, xSpan, cursor, width, height)
    requires IsPlotOf(q, b, focus, xSpan, cursor, width, height)
    ensures p == q
  {
    AxesIgnoreOrder(a, b, focus, xSpan, cursor, width, height);
    var v := Axes(a, focus, xSpan, cursor, width, height);
    forall m: Mark<char> | m.col < v.width && m.row < v.height
      ensures Shows(v, a, p.cursorCol, m.col, m.row, m.ink) <==> Shows(v, b, p.cursorCol, m.col, m.row, m.ink)
    {
      ShowsIgnoresOrder(v, a, b, p.cursorCol, m.col, m.row, m.ink);
    }
    RowMajorIsDetermined(p.marks, q.marks);
  }

  lemma AxesIgnoreOrder(a: seq<SeqPoint>, b: seq<SeqPoint>, focus: Direction, xSpan: (u64, u64), cursor: u64,
                        width: u16, height: u16)
    requires !TooSmall(width, height) && SameSamples(a, b)
    ensures Axes(a, focus, xSpan, cursor, width, height) == Axes(b, focus, xSpan, cursor, width, height)
  {
    BaseOfMore(a, b, focus);
    BaseOfMore(b, a, focus);
    var base := OrZero(Base(a, focus));
    ReachOfMore(a, b, focus, base);
    ReachOfMore(b, a, focus, base);
  }

  lemma BaseOfMore(a: seq<SeqPoint>, b: seq<SeqPoint>, focus: Direction)
    requires forall s | s in a :: s in b
    ensures var x, y := Base(a, focus), Base(b, focus); x.Some? ==> y.Some? && y.value <= x.value
  {
    var x := Base(a, focus);
    if x.Some? {
      var s :| s in a && s.dir == focus && s.rel == x.value;
      assert s in b;
    }
  }

  lemma ReachOfMore(a: seq<SeqPoint>, b: seq<SeqPoint>, focus: Direction, base: int)
    requires forall s | s in a :: s in b
    ensures var x, y := Reach(a, focus, base), Reach(b, focus, base); x.Some? ==> y.Some? && x.value <= y.value
  {
    var x := Reach(a, focus, base);
    if x.Some? {
      var s :| s in a && s.dir == focus && s.rel - base + s.len == x.value;
      assert s in b;
    }
  }

  lemma ShowsIgnoresOrder(v: View, a: seq<SeqPoint>, b: seq<SeqPoint>, cursorCol: nat, col: nat, row: nat, glyph: char)
    requires v.width > 0 && v.height > 0 && SameSamples(a, b)
    ensures Shows(v, a, cursorCol, col, row, glyph) <==> Shows(v, b, cursorCol, col, row, glyph)
  {
    forall ink ensures IsMostSalient(v, a, col, row, ink) <==> IsMostSalient(v, b, col, row, ink) {}
  }

  /** Moving the cursor later keeps the axes, and a cell that shows a sample goes on showing
      one at least as salient. */
  lemma RevealOnlyAdds(series: seq<SeqPoint>, focus: Direction, xSpan: (u64, u64), t1: u64, t2: u64,
                       width: u16, height: u16, col: nat, row: nat, ink: Ink)
    requires !TooSmall(width, height) && t1 <= t2
    requires IsMostSalient(Axes(series, focus, xSpan, t1, width, height), series, col, row, ink)
    ensures var late := Axes(series, focus, xSpan, t2, width, height);
            && late == Axes(series, focus, xSpan, t1, width, height).(cursor := t2)
            && exists ink' :: IsMostSalient(late, series, col, row, ink') && ink.prio <= ink'.prio
  {
    var late := Axes(series, focus, xSpan, t2, width, height);
    var s :| s in series && Axes(series, focus, xSpan, t1, width, height).Lands(s, col, row) && KindInk(s.kind) == ink;
    assert late.Lands(s, col, row);
    var i := SomeMostSalient(late, series, col, row, s);
    assert IsMostSalient(late, series, col, row, i);
  }

  /** A cell that some sample lands in has a most salient ink. */
  lemma SomeMostSalient(v: View, series: seq<SeqPoint>, col: nat, row: nat, s: SeqPoint) returns (ink: Ink)
    requires v.width > 0 && v.height > 0 && s in series && v.Lands(s, col, row)
    ensures IsMostSalient(v, series, col, row, ink) && KindInk(s.kind).prio <= ink.prio
  {
    var cell := Held(v, series, col, row);
    ink := cell.value;
  }

  lemma {:induction false} Held(v: View, series: seq<SeqPoint>, col: nat, row: nat) returns (cell: Option<Ink>)
    requires v.width > 0 && v.height > 0
    ensures Holds(v, series, col, row, cell)
  {
    cell := None;
    if |series| > 0 {
      var pre, s := series[..|series| - 1], series[|series| - 1];
      assert series == pre + [s];
      cell := Held(v, pre, col, row);
      PlaceKeepsMostSalient(v, pre, s, col, row, cell);
      if v.Lands(s, col, row) && !(cell.Some? && cell.value.prio >= KindInk(s.kind).prio) {
        cell := Some(KindInk(s.kind));
      }
    }
  }
}
