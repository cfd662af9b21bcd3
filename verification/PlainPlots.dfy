/** Both plots in plain arithmetic: which cell a sample belongs to, and what each cell shows. */
module PlainPlots {
  import opened Core
  import opened Canvas
  import S = SequencePlot
  import R = RatePlot

  // --------------------------------------------------------------------------- axes

  /** Value `v` belongs to cell `c` of an axis from 0 to `top` with `cells` cells: the cells divide
      it into equal steps, the last holding the top alone; an empty axis has only cell 0. */
  predicate OnAxis(v: int, top: int, cells: int, c: int) {
    if top <= 0 then c == 0 else c * top <= v * (cells - 1) < (c + 1) * top
  }

  function Nearest(t: u64, span: (u64, u64)): u64 {
    if t < span.0 then span.0 else if t > span.1 then span.1 else t
  }

  /** Time runs from left to right over the span; times outside it fall on its ends. */
  predicate LiesInColumn(t: u64, span: (u64, u64), width: int, c: int) {
    OnAxis(Nearest(t, span) - span.0, span.1 - span.0, width, c)
  }

  lemma CellPlainly(v: nat, top: int, n: int, c: nat)
    requires n > 1 && (top <= 0 || v <= top)
    ensures Cell(v, top, n) == c <==> OnAxis(v, top, n, c)
  {
    if top > 0 {
      CellExactly(v, top, n, c);
    }
  }

  lemma BeyondTheEnd(v: nat, top: nat, n: int)
    requires n > 1 && 0 < top <= v
    ensures Cell(v, top, n) == Cell(top, top, n)
  {
    CellIsMonotone(top, v, top, n);
    assert (n - 1) * top <= top * (n - 1) < n * top;
    CellExactly(top, top, n, n - 1);
  }

  /** The column of a time, in plain arithmetic. */
  lemma ColumnPlainly(t: u64, span: (u64, u64), width: u16, c: nat)
    requires span.0 <= span.1 && width > 1
    ensures Column(t, span.0, SatSub(span.1, span.0), width) == c <==> LiesInColumn(t, span, width, c)
  {
    var top := span.1 - span.0;
    CellPlainly(Nearest(t, span) - span.0, top, width, c);
    if top > 0 && t > span.1 {
      BeyondTheEnd(t - span.0, top, width);
    }
  }

  /** The smallest plot is 8 by 3 cells. */
  lemma SmallestPlot(width: u16, height: u16)
    ensures TooSmall(width, height) <==> width < 8 || height < 3
  {}

  // -------------------------------------------------------------- the sequence plot

  /** The rectangle, the axes and the cursor of a plot. */
  datatype Plane = Plane(
    focus: Direction, span: (u64, u64), cursor: u64, base: int, top: int, width: u16, height: u16)

  /** The least relative number of the focus direction and the furthest reach above it. */
  ghost predicate Spans(p: Plane, series: seq<S.SeqPoint>) {
    if exists s :: s in series && s.dir == p.focus then
      && (exists s :: s in series && s.dir == p.focus && s.rel == p.base)
      && (forall s | s in series && s.dir == p.focus :: p.base <= s.rel)
      && (exists s :: s in series && s.dir == p.focus && s.rel - p.base + s.len == p.top)
      && (forall s | s in series && s.dir == p.focus :: s.rel - p.base + s.len <= p.top)
    else p.base == 0 && p.top == 0
  }

  /** The sample is of the focus direction, not after the cursor, and belongs to the cell. */
  predicate Lies(s: S.SeqPoint, p: Plane, col: nat, row: nat) {
    && s.dir == p.focus && s.t <= p.cursor && LiesInColumn(s.t, p.span, p.width, col)
    && OnAxis(s.rel - p.base, p.top, p.height, row)
  }

  predicate Again(k: SeqKind) { k.Data? && k.retransmit }
  predicate Late(k: SeqKind) { k.Data? && !k.retransmit && k.outOfOrder }
  predicate InTurn(k: SeqKind) { k.Data? && !k.retransmit && !k.outOfOrder }

  ghost predicate AnyOf(series: seq<S.SeqPoint>, p: Plane, col: nat, row: nat, kind: SeqKind -> bool) {
    exists s :: s in series && Lies(s, p, col, row) && kind(s.kind)
  }

  /** A retransmission shows before all else, then a SACK edge, then reordered data, then data in
      turn; the cursor shows where nothing does. */
  ghost predicate CellShows(series: seq<S.SeqPoint>, p: Plane, cursorCol: nat, col: nat, row: nat, glyph: char) {
    if AnyOf(series, p, col, row, Again) then glyph == '\U{00B7}'
    else if AnyOf(series, p, col, row, (k: SeqKind) => k.Sack?) then glyph == '\U{254E}'
    else if AnyOf(series, p, col, row, Late) then glyph == 'o'
    else if AnyOf(series, p, col, row, InTurn) then glyph == '#'
    else col == cursorCol && glyph == '\U{250A}'
  }

  lemma LandsPlainly(v: S.View, p: Plane, s: S.SeqPoint, col: nat, row: nat)
    requires p.span.0 <= p.span.1 && p.width > 1 && p.height > 1
    requires v == S.View(p.focus, p.span.0, SatSub(p.span.1, p.span.0), p.base, p.top, p.width, p.height, p.cursor)
    requires s.dir == p.focus ==> p.base <= s.rel && s.rel - p.base + s.len <= p.top
    ensures v.Lands(s, col, row) <==> Lies(s, p, col, row)
  {
    ColumnPlainly(s.t, p.span, p.width, col);
    if s.dir == p.focus {
      CellPlainly(s.rel - p.base, p.top, p.height, row);
    }
  }

  /** What a cell shows, by its most salient sample. */
  lemma ShowsPlainly(v: S.View, p: Plane, series: seq<S.SeqPoint>, cursorCol: nat, col: nat, row: nat, glyph: char)
    requires v.width > 0 && v.height > 0
    requires forall s | s in series :: v.Lands(s, col, row) <==> Lies(s, p, col, row)
    ensures S.Shows(v, series, cursorCol, col, row, glyph) <==> CellShows(series, p, cursorCol, col, row, glyph)
  {
    var cell := S.Held(v, series, col, row);
    S.HeldIsShown(v, series, cursorCol, col, row, cell, glyph);
    if cell.Some? {
      var s :| s in series && v.Lands(s, col, row) && S.KindInk(s.kind) == cell.value;
      assert Lies(s, p, col, row);
    }
  }

  /** The Time/Sequence plot, cell by cell. */
  lemma SequencePlotPlainly(plot: S.SeqPlot, series: seq<S.SeqPoint>, p: Plane)
    requires p.width >= 8 && p.height >= 3 && p.span.0 <= p.span.1 && Spans(p, series)
    requires S.IsPlotOf(plot, series, p.focus, p.span, p.cursor, p.width, p.height)
    ensures plot.maxRel == p.top && plot.cursorCol < p.width && LiesInColumn(p.cursor, p.span, p.width, plot.cursorCol)
    ensures forall m: Mark<char> ::
              m in plot.marks <==>
              m.col < p.width && m.row < p.height && CellShows(series, p, plot.cursorCol, m.col, m.row, m.ink)
  {
    var v := S.Axes(series, p.focus, p.span, p.cursor, p.width, p.height);
    AxesPlainly(series, p);
    ColumnPlainly(Clamp(p.cursor, p.span.0, p.span.1), p.span, p.width, plot.cursorCol);
    forall m: Mark<char>
      ensures S.Shows(v, series, plot.cursorCol, m.col, m.row, m.ink)
         <==> CellShows(series, p, plot.cursorCol, m.col, m.row, m.ink)
    {
      forall s | s in series
        ensures v.Lands(s, m.col, m.row) <==> Lies(s, p, m.col, m.row)
      {
        LandsPlainly(v, p, s, m.col, m.row);
      }
      ShowsPlainly(v, p, series, plot.cursorCol, m.col, m.row, m.ink);
    }
  }

  lemma AxesPlainly(series: seq<S.SeqPoint>, p: Plane)
    requires p.width >= 8 && p.height >= 3 && p.span.0 <= p.span.1 && Spans(p, series)
    ensures S.Axes(series, p.focus, p.span, p.cursor, p.width, p.height) ==
            S.View(p.focus, p.span.0, SatSub(p.span.1, p.span.0), p.base, p.top, p.width, p.height, p.cursor)
  {}

  // ------------------------------------------------------------------ the rate plot

  /** The greatest rate of either kind in the focus direction. */
  ghost predicate Tallest(top: u64, wire: seq<R.RateSample>, focus: Direction) {
    && (forall s | s in wire && s.dir == focus :: s.throughput <= top && s.goodput <= top)
    && (top == 0 || exists s :: s in wire && s.dir == focus && (s.throughput == top || s.goodput == top))
  }

  predicate Stands(s: R.RateSample, p: Plane, col: nat) {
    s.dir == p.focus && s.t <= p.cursor && LiesInColumn(s.t, p.span, p.width, col)
  }

  /** The greatest of the column's rates belongs to the row. */
  ghost predicate Peak(wire: seq<R.RateSample>, p: Plane, rate: R.RateSample -> u64, col: nat, row: nat) {
    exists s :: s in wire && Stands(s, p, col) && OnAxis(rate(s), p.top, p.height, row)
                && forall x | x in wire && Stands(x, p, col) :: rate(x) <= rate(s)
  }

  /** The goodput's peak shows before the throughput's; the cursor shows where neither does. */
  ghost predicate RateShows(wire: seq<R.RateSample>, p: Plane, cursorCol: nat, col: nat, row: nat, ink: R.Ink) {
    if Peak(wire, p, (s: R.RateSample) => s.goodput, col, row) then ink == R.Ink_('#', R.Good)
    else if Peak(wire, p, (s: R.RateSample) => s.throughput, col, row) then ink == R.Ink_('.', R.Total)
    else col == cursorCol && ink == R.Ink_('\U{250A}', R.Total)
  }

  lemma InColumnPlainly(g: R.Geom, p: Plane, s: R.RateSample, col: nat)
    requires p.width >= 8 && p.height >= 3 && p.span.0 <= p.span.1 && p.top >= 0
    requires g.Valid() && g.focus == p.focus && g.t0 == p.span.0 && g.span == SatSub(p.span.1, p.span.0)
    requires g.width == p.width && g.cursor == p.cursor
    ensures g.InColumn(s, col) <==> Stands(s, p, col)
  {
    ColumnPlainly(s.t, p.span, p.width, col);
  }

  /** The geometry of a plane. */
  ghost predicate Draws(g: R.Geom, p: Plane) {
    && p.width >= 8 && p.height >= 3 && p.span.0 <= p.span.1 && 0 <= p.top < 0x1_0000_0000_0000_0000
    && g == R.Geom(p.focus, p.span.0, SatSub(p.span.1, p.span.0), p.top, p.width, p.height, p.cursor)
  }

  /** A column with a sample has a greatest. */
  lemma {:induction false} GreatestOf(wire: seq<R.RateSample>, p: Plane, rate: R.RateSample -> u64, col: nat)
    returns (best: R.RateSample)
    requires exists s :: s in wire && Stands(s, p, col)
    ensures best in wire && Stands(best, p, col)
    ensures forall x | x in wire && Stands(x, p, col) :: rate(x) <= rate(best)
  {
    var pre, last := wire[..|wire| - 1], wire[|wire| - 1];
    assert wire == pre + [last];
    if exists s :: s in pre && Stands(s, p, col) {
      best := GreatestOf(pre, p, rate, col);
      if Stands(last, p, col) && rate(last) > rate(best) {
        best := last;
      }
    } else {
      best := last;
    }
  }

  lemma PeakPlainly(g: R.Geom, p: Plane, wire: seq<R.RateSample>, series: R.Series, rate: R.RateSample -> u64,
                    col: nat, row: nat)
    requires Draws(g, p) && Tallest(p.top, wire, p.focus)
    requires forall s | s in wire :: rate(s) == series.Of(s)
    ensures g.Tops(wire, series, col, row) <==> Peak(wire, p, rate, col, row)
  {
    forall s | s in wire
      ensures g.InColumn(s, col) <==> Stands(s, p, col)
    {
      InColumnPlainly(g, p, s, col);
    }
    if exists s :: s in wire && Stands(s, p, col) {
      var best := GreatestOf(wire, p, rate, col);
      GreatestTops(g, p, wire, series, rate, best, col, row);
      if Peak(wire, p, rate, col, row) {
        var s :| s in wire && Stands(s, p, col) && OnAxis(rate(s), p.top, p.height, row)
                 && forall x | x in wire && Stands(x, p, col) :: rate(x) <= rate(s);
        assert rate(s) == rate(best);
      }
    }
  }

  lemma GreatestTops(g: R.Geom, p: Plane, wire: seq<R.RateSample>, series: R.Series, rate: R.RateSample -> u64,
                     best: R.RateSample, col: nat, row: nat)
    requires Draws(g, p) && Tallest(p.top, wire, p.focus)
    requires forall s | s in wire :: rate(s) == series.Of(s) && (g.InColumn(s, col) <==> Stands(s, p, col))
    requires best in wire && Stands(best, p, col)
    requires forall x | x in wire && Stands(x, p, col) :: rate(x) <= rate(best)
    ensures g.Tops(wire, series, col, row) <==> OnAxis(rate(best), p.top, p.height, row)
  {
    R.PeakIsRowOfGreatest(g, wire, series, col, best);
    R.PeakIsUnique(g, wire, series, col, Some(g.Row(series.Of(best))), row);
    CellPlainly(rate(best), p.top, p.height, row);
  }

  /** The throughput plot, cell by cell. */
  lemma RatePlotPlainly(plot: R.RatePlot, wire: seq<R.RateSample>, p: Plane)
    requires p.width >= 8 && p.height >= 3 && p.span.0 <= p.span.1 && 0 <= p.top < 0x1_0000_0000_0000_0000
    requires Tallest(p.top, wire, p.focus)
    requires R.IsPlotOf(plot, wire, p.focus, p.span, p.cursor, p.width, p.height)
    ensures plot.maxRate == p.top && plot.cursorCol < p.width && LiesInColumn(p.cursor, p.span, p.width, plot.cursorCol)
    ensures forall m: Mark<R.Ink> ::
              m in plot.marks <==>
              m.col < p.width && m.row < p.height && RateShows(wire, p, plot.cursorCol, m.col, m.row, m.ink)
  {
    var g := R.Geometry(wire, p.focus, p.span, p.cursor, p.width, p.height);
    ColumnPlainly(Clamp(p.cursor, p.span.0, p.span.1), p.span, p.width, plot.cursorCol);
    forall m: Mark<R.Ink>
      ensures g.Shows(wire, plot.cursorCol, m.col, m.row, m.ink)
         <==> RateShows(wire, p, plot.cursorCol, m.col, m.row, m.ink)
    {
      PeakPlainly(g, p, wire, R.Good, (s: R.RateSample) => s.goodput, m.col, m.row);
      PeakPlainly(g, p, wire, R.Total, (s: R.RateSample) => s.throughput, m.col, m.row);
    }
  }
}
