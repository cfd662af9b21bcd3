/** The throughput plot: for each column the tallest revealed throughput and goodput, the
    goodput winning a shared cell, with a cursor column behind them. */
module RatePlot {
  import opened Core
  import opened Canvas

  type RateSample = s: Sample | s.ThroughputSample? witness ThroughputSample(0, OriginToResponder, 0, 0)

  datatype Series = Total | Good {
    function Of(s: RateSample): u64 { if this == Total then s.throughput else s.goodput }
    function Glyph(): char { if this == Total then '.' else '#' }
    function Ink(): Ink { Ink_(Glyph(), this) }
  }

  datatype Ink = Ink_(glyph: char, series: Series)

  const CURSOR: Ink := Ink_('\U{250A}', Total)

  datatype RatePlot = RatePlot(
    width: u16, height: u16, maxRate: u64, xSpan: (u64, u64), cursorCol: nat, marks: seq<Mark<Ink>>)

  // ----------------------------------------------------------------- geometry

  datatype Geom = Geom(
    focus: Direction, t0: u64, span: u64, maxRate: u64, width: u16, height: u16, cursor: u64)
  {
    predicate Valid() { !TooSmall(width, height) }

    predicate Reveals(s: RateSample) { s.dir == focus && s.t <= cursor }

    function Col(t: u64): (c: nat)
      requires Valid()
      ensures c < width
    {
      Column(t, t0, span, width)
    }

    function Row(v: u64): (r: nat)
      requires Valid()
      ensures r < height
    {
      Cell(v, maxRate, height)
    }

    /** The sample is revealed in column `col`. */
    predicate InColumn(s: RateSample, col: nat)
      requires Valid()
    {
      Reveals(s) && Col(s.t) == col
    }

    /** Row `row` is the highest that a revealed sample of the series reaches in the column. */
    ghost predicate Tops(wire: seq<RateSample>, series: Series, col: nat, row: nat)
      requires Valid()
    {
      && (exists s :: s in wire && InColumn(s, col) && Row(series.Of(s)) == row)
      && (forall s | s in wire && InColumn(s, col) :: Row(series.Of(s)) <= row)
    }

    /** Declaratively, what cell (col, row) shows. */
    ghost predicate Shows(wire: seq<RateSample>, cursorCol: nat, col: nat, row: nat, ink: Ink)
      requires Valid()
    {
      if Tops(wire, Good, col, row) then ink == Good.Ink()
      else if Tops(wire, Total, col, row) then ink == Total.Ink()
      else col == cursorCol && ink == CURSOR
    }
  }

  /** The greatest rate of either series in the focus direction. */
  function MaxRate(wire: seq<RateSample>, focus: Direction): (m: u64)
    ensures forall s | s in wire && s.dir == focus :: s.throughput <= m && s.goodput <= m
    ensures m == 0 || exists s :: s in wire && s.dir == focus && (s.throughput == m || s.goodput == m)
  {
    if |wire| == 0 then 0
    else
      var pre, s := MaxRate(wire[..|wire| - 1], focus), wire[|wire| - 1];
      assert wire == wire[..|wire| - 1] + [s];
      if s.dir == focus then Max(pre, Max(s.throughput, s.goodput)) else pre
  }

  function Geometry(wire: seq<RateSample>, focus: Direction, xSpan: (u64, u64), cursor: u64, width: u16, height: u16)
    : Geom
  {
    Geom(focus, xSpan.0, SatSub(xSpan.1, xSpan.0), MaxRate(wire, focus), width, height, cursor)
  }

  // ---------------------------------------------------------------- placement

  /** The column's peak after some samples. */
  ghost predicate Peaks(g: Geom, wire: seq<RateSample>, series: Series, col: nat, peak: Option<nat>)
    requires g.Valid()
  {
    match peak
    case None => forall s | s in wire :: !g.InColumn(s, col)
    case Some(row) => g.Tops(wire, series, col, row)
  }

  lemma PeakKeepsTallest(g: Geom, pre: seq<RateSample>, s: RateSample, series: Series, col: nat, peak: Option<nat>)
    requires g.Valid() && Peaks(g, pre, series, col, peak)
    ensures !g.InColumn(s, col) ==> Peaks(g, pre + [s], series, col, peak)
    ensures g.InColumn(s, col) ==>
              var row := g.Row(series.Of(s));
              Peaks(g, pre + [s], series, col, if peak.None? || row > peak.value then Some(row) else peak)
  {
    var all := pre + [s];
    assert all[|pre|] == s && s in all;
    assert forall x :: x in all <==> x in pre || x == s;
  }

  method FindPeaks(g: Geom, wire: seq<RateSample>, series: Series) returns (peak: array<Option<nat>>)
    requires g.Valid()
    ensures fresh(peak) && peak.Length == g.width
    ensures forall c: nat | c < g.width :: Peaks(g, wire, series, c, peak[c])
  {
    peak := new Option<nat>[g.width](_ => None);
    for i := 0 to |wire|
      invariant forall c: nat | c < g.width :: Peaks(g, wire[..i], series, c, peak[c])
    {
      var s := wire[i];
      assert wire[..i + 1] == wire[..i] + [s];
      forall c: nat | c < g.width {
        PeakKeepsTallest(g, wire[..i], s, series, c, peak[c]);
      }
      if g.Reveals(s) {
        var col, row := g.Col(s.t), g.Row(series.Of(s));
        if peak[col].None? || row > peak[col].value {
          peak[col] := Some(row);
        }
      }
    }
    assert wire[..|wire|] == wire;
  }

  /** Writes the tallest revealed mark of each column for one series. */
  method Place(g: Geom, wire: seq<RateSample>, series: Series, grid: array<Option<Ink>>)
    requires g.Valid() && grid.Length == g.width * g.height
    modifies grid
    ensures forall c: nat, r: nat | c < g.width && r < g.height ::
              At(grid[..], g.width, c, r) == Overlaid(g, wire, series, old(grid[..]), c, r)
  {
    ghost var was := grid[..];
    var peak := FindPeaks(g, wire, series);
    ghost var found := peak[..];
    for col := 0 to g.width
      invariant peak[..] == found
      invariant forall c: nat, r: nat | c < g.width && r < g.height ::
                  At(grid[..], g.width, c, r) ==
                  if c < col then Overlaid(g, wire, series, was, c, r) else At(was, g.width, c, r)
    {
      assert found[col] == peak[col] && Peaks(g, wire, series, col, found[col]);
      PlaceColumn(g, wire, series, col, peak[col], grid);
    }
  }

  method PlaceColumn(g: Geom, ghost wire: seq<RateSample>, series: Series, col: nat, peak: Option<nat>,
                     grid: array<Option<Ink>>)
    requires g.Valid() && grid.Length == g.width * g.height && col < g.width
    requires Peaks(g, wire, series, col, peak)
    modifies grid
    ensures forall c: nat, r: nat | c < g.width && r < g.height ::
              At(grid[..], g.width, c, r) ==
              if c == col then Overlaid(g, wire, series, old(grid[..]), c, r) else At(old(grid[..]), g.width, c, r)
  {
    ghost var was := grid[..];
    forall r: nat {
      PeakIsUnique(g, wire, series, col, peak, r);
    }
    if peak.Some? {
      WriteCell(was, g.width, g.height, col, peak.value, Some(series.Ink()));
      var k := Index(col, peak.value, g.width);
      grid[k] := Some(series.Ink());
      assert grid[..] == was[k := Some(series.Ink())];
    }
  }

  /** The cell with one more series written over it. */
  ghost function Overlaid(g: Geom, wire: seq<RateSample>, series: Series, grid: seq<Option<Ink>>, col: nat, row: nat)
    : Option<Ink>
    requires g.Valid()
  {
    if g.Tops(wire, series, col, row) then Some(series.Ink()) else At(grid, g.width, col, row)
  }

  lemma PeakIsUnique(g: Geom, wire: seq<RateSample>, series: Series, col: nat, peak: Option<nat>, row: nat)
    requires g.Valid() && Peaks(g, wire, series, col, peak)
    ensures g.Tops(wire, series, col, row) <==> peak == Some(row)
  {}

  /** The throughput plot of `wire`, or nothing when the rectangle is too small. */
  method Project(wire: seq<RateSample>, focus: Direction, xSpan: (u64, u64), cursor: u64, width: u16, height: u16)
    returns (plot: Option<RatePlot>)
    requires TooSmall(width, height) || xSpan.0 <= xSpan.1
    ensures plot.None? <==> TooSmall(width, height)
    ensures plot.Some? ==> IsPlotOf(plot.value, wire, focus, xSpan, cursor, width, height)
  {
    if TooSmall(width, height) {
      return None;
    }
    var g := Geometry(wire, focus, xSpan, cursor, width, height);
    var grid := new Option<Ink>[width * height](_ => None);
    ghost var blank := grid[..];
    Place(g, wire, Total, grid);
    ghost var total := grid[..];
    Place(g, wire, Good, grid);
    ghost var both := grid[..];
    var cursorCol := g.Col(Clamp(cursor, xSpan.0, xSpan.1));
    DrawCursor(grid, width, height, cursorCol, CURSOR);
    var marks := CollectMarks(grid, width, height, (ink: Ink) => ink);
    forall c: nat, r: nat, ink | c < width && r < height
      ensures Inked(At(grid[..], width, c, r), (i: Ink) => i, ink) <==> g.Shows(wire, cursorCol, c, r, ink)
    {
      assert At(blank, width, c, r).None?;
      assert At(total, width, c, r) == Overlaid(g, wire, Total, blank, c, r);
      assert At(both, width, c, r) == Overlaid(g, wire, Good, total, c, r);
    }
    plot := Some(RatePlot(width, height, g.maxRate, xSpan, cursorCol, marks));
  }

  ghost predicate IsPlotOf(plot: RatePlot, wire: seq<RateSample>, focus: Direction, xSpan: (u64, u64), cursor: u64,
                           width: u16, height: u16)
    requires !TooSmall(width, height) && xSpan.0 <= xSpan.1
  {
    var g := Geometry(wire, focus, xSpan, cursor, width, height);
    && plot.width == width && plot.height == height && plot.xSpan == xSpan && plot.maxRate == g.maxRate
    && plot.cursorCol == g.Col(Clamp(cursor, xSpan.0, xSpan.1))
    && RowMajor(plot.marks)
    && forall m: Mark<Ink> ::
         m in plot.marks <==>
         m.col < width && m.row < height && g.Shows(wire, plot.cursorCol, m.col, m.row, m.ink)
  }

  // --------------------------------------------------------------- properties

  ghost predicate SameSamples(a: seq<RateSample>, b: seq<RateSample>) { forall s :: s in a <==> s in b }

  /** The plot depends only on which samples there are, not on their order or repetition. */
  lemma PlotIgnoresOrder(p: RatePlot, q: RatePlot, a: seq<RateSample>, b: seq<RateSample>, focus: Direction,
                         xSpan: (u64, u64), cursor: u64, width: u16, height: u16)
    requires !TooSmall(width, height) && xSpan.0 <= xSpan.1 && SameSamples(a, b)
    requires IsPlotOf(p, a, focus, xSpan, cursor, width, height)
    requires IsPlotOf(q, b, focus, xSpan, cursor, width, height)
    ensures p == q
  {
    MaxRateIgnoresOrder(a, b, focus);
    var g := Geometry(a, focus, xSpan, cursor, width, height);
    forall series: Series, c: nat, r: nat
      ensures g.Tops(a, series, c, r) <==> g.Tops(b, series, c, r)
    {}
    RowMajorIsDetermined(p.marks, q.marks);
  }

  lemma MaxRateIgnoresOrder(a: seq<RateSample>, b: seq<RateSample>, focus: Direction)
    requires SameSamples(a, b)
    ensures MaxRate(a, focus) == MaxRate(b, focus)
  {
    MaxRateOfMore(a, b, focus);
    MaxRateOfMore(b, a, focus);
  }

  lemma MaxRateOfMore(a: seq<RateSample>, b: seq<RateSample>, focus: Direction)
    requires forall s | s in a :: s in b
    ensures MaxRate(a, focus) <= MaxRate(b, focus)
  {
    var m := MaxRate(a, focus);
    if m > 0 {
      var s :| s in a && s.dir == focus && (s.throughput == m || s.goodput == m);
      assert s in b;
    }
  }

  /** When no sample's goodput exceeds its throughput, a column that shows either series has a
      peak of both, and the goodput's is never the higher. */
  lemma GoodputNeverAboveTotal(g: Geom, wire: seq<RateSample>, col: nat, good: nat)
    requires g.Valid() && (forall s | s in wire :: s.goodput <= s.throughput)
    requires g.Tops(wire, Good, col, good)
    ensures exists total :: g.Tops(wire, Total, col, total) && good <= total
  {
    var s :| s in wire && g.InColumn(s, col) && g.Row(s.goodput) == good;
    CellIsMonotone(s.goodput, s.throughput, g.maxRate, g.height);
    var peak := PeakOf(g, wire, Total, col);
    assert g.Row(Total.Of(s)) <= peak.value;
  }

  /** Every goodput mark has the total of its column at its own height, or marked above it. */
  ghost predicate GoodputSitsBelow(marks: seq<Mark<Ink>>, g: Geom, wire: seq<RateSample>)
    requires g.Valid()
  {
    forall m | m in marks && m.ink == Good.Ink() ::
      exists total: nat ::
        m.row <= total && g.Tops(wire, Total, m.col, total)
        && (total == m.row || Mark(m.col, total, Total.Ink()) in marks)
  }

  lemma PlotKeepsGoodputBelow(plot: RatePlot, wire: seq<RateSample>, focus: Direction, xSpan: (u64, u64),
                              cursor: u64, width: u16, height: u16)
    requires !TooSmall(width, height) && xSpan.0 <= xSpan.1
    requires IsPlotOf(plot, wire, focus, xSpan, cursor, width, height)
    requires forall k | 0 <= k < |wire| :: wire[k].goodput <= wire[k].throughput
    ensures GoodputSitsBelow(plot.marks, Geometry(wire, focus, xSpan, cursor, width, height), wire)
  {
    var g := Geometry(wire, focus, xSpan, cursor, width, height);
    forall m | m in plot.marks && m.ink == Good.Ink()
      ensures exists total: nat ::
                m.row <= total && g.Tops(wire, Total, m.col, total)
                && (total == m.row || Mark(m.col, total, Total.Ink()) in plot.marks)
    {
      assert g.Shows(wire, plot.cursorCol, m.col, m.row, m.ink);
      GoodputNeverAboveTotal(g, wire, m.col, m.row);
      var total :| g.Tops(wire, Total, m.col, total) && m.row <= total;
      TotalShowsAbove(g, wire, plot.cursorCol, m.col, m.row, total);
    }
  }

  lemma TotalShowsAbove(g: Geom, wire: seq<RateSample>, cursorCol: nat, col: nat, good: nat, total: nat)
    requires g.Valid() && g.Tops(wire, Good, col, good) && g.Tops(wire, Total, col, total)
    ensures total < g.height && (total != good ==> g.Shows(wire, cursorCol, col, total, Total.Ink()))
  {
    PeakIsUnique(g, wire, Good, col, Some(good), total);
  }

  lemma {:induction false} PeakOf(g: Geom, wire: seq<RateSample>, series: Series, col: nat) returns (peak: Option<nat>)
    requires g.Valid()
    ensures Peaks(g, wire, series, col, peak)
  {
    peak := None;
    if |wire| > 0 {
      var pre, s := wire[..|wire| - 1], wire[|wire| - 1];
      assert wire == pre + [s];
      peak := PeakOf(g, pre, series, col);
      PeakKeepsTallest(g, pre, s, series, col, peak);
      var row := g.Row(series.Of(s));
      if g.InColumn(s, col) && (peak.None? || row > peak.value) {
        peak := Some(row);
      }
    }
  }

  /** The peak of a column is the row of the greatest rate revealed in it. */
  lemma PeakIsRowOfGreatest(g: Geom, wire: seq<RateSample>, series: Series, col: nat, s: RateSample)
    requires g.Valid() && s in wire && g.InColumn(s, col)
    requires forall x | x in wire && g.InColumn(x, col) :: series.Of(x) <= series.Of(s)
    ensures g.Tops(wire, series, col, g.Row(series.Of(s)))
  {
    forall x | x in wire && g.InColumn(x, col)
      ensures g.Row(series.Of(x)) <= g.Row(series.Of(s))
    {
      CellIsMonotone(series.Of(x), series.Of(s), g.maxRate, g.height);
    }
  }
}
