/** From the tracker to the plots: the series of any timeline the tracker builds are what the
    plots take, and in every throughput plot of them goodput sits at or below the total. */
module PlotInputs {
  import opened Core
  import opened TrackerSpec
  import opened Walk
  import opened Shapes
  import opened Canvas
  import opened RatePlot
  import Seek
  import LiveView
  import T = Timeline

  lemma SortedFits(k: Kind, xs: seq<Sample>)
    requires SeriesFits(k, xs)
    ensures SeriesFits(k, T.SortByTime(xs))
  {
    T.SortSorts(xs);
    var sorted := T.SortByTime(xs);
    forall i | 0 <= i < |sorted|
      ensures Fits(k, sorted[i])
    {
      assert sorted[i] in multiset(sorted);
      assert sorted[i] in xs;
    }
  }

  /** The live timeline, or the finished one when collection succeeded. */
  ghost predicate IsTimelineOf(tl: T.Timeline, s: TState) {
    tl == LiveView.Snapshot(s) || (!s.overflowed && tl == Seek.IntoTimeline(s).timeline)
  }

  /** In every reachable state each connection of the timeline has a sequence series and a rate
      series the plots accept, no rate sample's goodput above its throughput. */
  lemma TimelinesFit(cfg: Config, items: seq<Item>, tl: T.Timeline, i: nat)
    requires IsTimelineOf(tl, Run(cfg, items)) && i < |tl.entries|
    ensures forall k | 0 <= k < |tl.entries[i].seqPoints| :: tl.entries[i].seqPoints[k].SeqSample?
    ensures forall k | 0 <= k < |tl.entries[i].throughput| ::
              var x := tl.entries[i].throughput[k]; x.ThroughputSample? && x.goodput <= x.throughput
  {
    SeriesAlwaysFit(cfg, items);
    var h := Run(cfg, items).conns[i].hist;
    assert HistFits(h);
    assert SeriesFits(SEQPOINTS, h[SEQPOINTS]) && SeriesFits(THROUGHPUT, h[THROUGHPUT]);
    SortedFits(SEQPOINTS, h[SEQPOINTS]);
    SortedFits(THROUGHPUT, h[THROUGHPUT]);
  }

  /** So no throughput plot of a connection of the tracker's timeline ever shows goodput above
      the total. */
  lemma GoodputMarksSitBelow(cfg: Config, items: seq<Item>, tl: T.Timeline, i: nat, wire: seq<RateSample>,
                             plot: RatePlot, focus: Direction, xSpan: (u64, u64), cursor: u64,
                             width: u16, height: u16)
    requires IsTimelineOf(tl, Run(cfg, items)) && i < |tl.entries| && wire == tl.entries[i].throughput
    requires !TooSmall(width, height) && xSpan.0 <= xSpan.1
    requires IsPlotOf(plot, wire, focus, xSpan, cursor, width, height)
    ensures GoodputSitsBelow(plot.marks, Geometry(wire, focus, xSpan, cursor, width, height), wire)
  {
    TimelinesFit(cfg, items, tl, i);
    PlotKeepsGoodputBelow(plot, wire, focus, xSpan, cursor, width, height);
  }
}
