/** What each segment, and each tick that samples, adds to each of a connection's six series, in
    plain terms, and that nothing is added to a series that is switched off. */
module PlainSeries {
  import opened Core
  import opened MetricSpec
  import opened Lifecycle
  import opened TrackerSpec
  import opened Recording
  import opened Eviction
  import opened Attribution
  import opened DerivedSeries
  import opened SeriesFolds
  import opened Stories
  import RecordedTruth
  import SeekAnyOrder
  import StateSeries
  import Unwrap

  // ------------------------------------------------------------------ what to expect

  /** The metric sample of observation `o` after the observations `pre`. */
  ghost predicate IsMetricSample(x: Sample, pre: seq<Obs>, o: Obs, cfg: Config) {
    var after := DirRun(o.dir, pre + [o], cfg);
    var verdict := Classify(DirRun(o.dir, pre, cfg), o.seg, cfg.reorderWindow);
    var rates := ThroughputAt(after, o.seg.ts, cfg.throughputWindow);
    && x.MetricSample? && x.t == o.seg.ts && x.dir == o.dir
    && InFlight(after) == Some(x.inFlightBytes)
    && x.throughputBps == (if rates.Some? then rates.value.total else 0)
    && x.rtt == RttOf(DirRun(o.dir.Opposite(), pre, cfg), o.seg)
    && (x.retransmit <==> verdict == Retransmitted) && (x.outOfOrder <==> verdict == Reordered)
    && (x.sack <==> o.seg.sackLefts != [])
  }

  /** The data point carries its segment's time, side, length and verdict. */
  ghost predicate IsPointOf(x: Sample, pre: seq<Obs>, o: Obs, cfg: Config) {
    var verdict := Classify(DirRun(o.dir, pre, cfg), o.seg, cfg.reorderWindow);
    && x.SeqSample? && x.t == o.seg.ts && x.dir == o.dir && x.len == o.seg.payloadLen && x.kind.Data?
    && (x.kind.retransmit <==> verdict == Retransmitted) && (x.kind.outOfOrder <==> verdict == Reordered)
  }

  /** A point for each SACK edge, on the other side, of no length. */
  ghost predicate AreSackPoints(xs: seq<Sample>, o: Obs) {
    && |xs| == |o.seg.sackLefts|
    && forall j | 0 <= j < |xs| ::
         xs[j].SeqSample? && xs[j].t == o.seg.ts && xs[j].dir != o.dir && xs[j].len == 0 && xs[j].kind == Sack
  }

  /** The data point first, if the segment carries data, then the SACK edges. */
  ghost predicate AreSeqPoints(xs: seq<Sample>, pre: seq<Obs>, o: Obs, cfg: Config) {
    if o.seg.payloadLen > 0
    then |xs| > 0 && IsPointOf(xs[0], pre, o, cfg) && AreSackPoints(xs[1..], o)
    else AreSackPoints(xs, o)
  }

  /** A reading for each direction that has sent anything. */
  ghost function Readings(obs: seq<Obs>, t: u64, cfg: Config): seq<Sample> {
    Reading(OriginToResponder, obs, t, cfg) + Reading(ResponderToOrigin, obs, t, cfg)
  }

  ghost function Reading(x: Direction, obs: seq<Obs>, t: u64, cfg: Config): seq<Sample> {
    var flight := InFlight(DirRun(x, obs, cfg));
    if (exists i :: 0 <= i < |obs| && obs[i].dir == x) && flight.Some?
    then [InFlightSample(t, x, flight.value)] else []
  }

  /** Rates for each direction that has sent data. */
  ghost function RatesOf(obs: seq<Obs>, t: u64, cfg: Config): seq<Sample> {
    RateOf(OriginToResponder, obs, t, cfg) + RateOf(ResponderToOrigin, obs, t, cfg)
  }

  ghost function RateOf(x: Direction, obs: seq<Obs>, t: u64, cfg: Config): seq<Sample> {
    var rates := ThroughputAt(DirRun(x, obs, cfg), t, cfg.throughputWindow);
    if (exists i :: 0 <= i < |obs| && obs[i].dir == x && obs[i].seg.payloadLen > 0) && rates.Some?
    then [ThroughputSample(t, x, rates.value.total, rates.value.good)] else []
  }

  // --------------------------------------------------------------------- the two parts

  lemma {:induction false} RatesSinceData(x: Direction, obs: seq<Obs>, cfg: Config)
    ensures DirRun(x, obs, cfg).tputMaxTs.Some? <==>
            exists i :: 0 <= i < |obs| && obs[i].dir == x && obs[i].seg.payloadLen > 0
  {
    if |obs| > 0 {
      var n := |obs| - 1;
      RatesSinceData(x, obs[..n], cfg);
      RecordedTruth.NewestDataStep(x, DirRun(x, obs[..n], cfg), obs[n], cfg);
      assert forall i | 0 <= i < n :: obs[..n][i] == obs[i];
      if exists i :: 0 <= i < n && obs[..n][i].dir == x && obs[..n][i].seg.payloadLen > 0 {
        var i :| 0 <= i < n && obs[..n][i].dir == x && obs[..n][i].seg.payloadLen > 0;
        assert obs[i].dir == x && obs[i].seg.payloadLen > 0;
      }
    }
  }

  lemma ReadingsPlainly(obs: seq<Obs>, t: u64, cfg: Config)
    ensures InFlightPoints(MetricRun(obs, cfg), t) == Readings(obs, t, cfg)
    ensures forall x | exists i :: 0 <= i < |obs| && obs[i].dir == x :: InFlight(DirRun(x, obs, cfg)).Some?
  {
    DirectionsAreIndependent(obs, cfg);
    AckedWithFirstSend(OriginToResponder, obs, cfg);
    AckedWithFirstSend(ResponderToOrigin, obs, cfg);
  }

  lemma RatePointsPlainly(obs: seq<Obs>, t: u64, cfg: Config)
    ensures ThroughputPoints(MetricRun(obs, cfg), t, cfg.throughputWindow) == RatesOf(obs, t, cfg)
    ensures forall x | exists i :: 0 <= i < |obs| && obs[i].dir == x && obs[i].seg.payloadLen > 0 ::
              ThroughputAt(DirRun(x, obs, cfg), t, cfg.throughputWindow).Some?
  {
    DirectionsAreIndependent(obs, cfg);
    RatesSinceData(OriginToResponder, obs, cfg);
    RatesSinceData(ResponderToOrigin, obs, cfg);
  }

  lemma MetricPlainly(pre: seq<Obs>, o: Obs, cfg: Config)
    ensures IsMetricSample(ObserveSample(MetricRun(pre, cfg), o.seg, o.dir, cfg), pre, o, cfg)
  {
    DirectionsAreIndependent(pre, cfg);
    assert (pre + [o])[..|pre|] == pre;
    AckedWithFirstSend(o.dir, pre + [o], cfg);
    assert (pre + [o])[|pre|].dir == o.dir;
  }

  lemma {:induction false} SacksPlainly(f: Option<Unwrap.Frontier>, lefts: seq<u32>, t: u64, acked: Direction)
    ensures var points := SackPoints(f, lefts, t, acked).1;
            && |points| == |lefts|
            && forall j | 0 <= j < |points| ::
                 points[j].SeqSample? && points[j].t == t && points[j].dir == acked && points[j].len == 0
                 && points[j].kind == Sack
  {
    if |lefts| > 0 {
      SacksPlainly(f, lefts[..|lefts| - 1], t, acked);
    }
  }

  lemma PointsPlainly(u: PerDir<Option<Unwrap.Frontier>>, x: Sample, pre: seq<Obs>, o: Obs, cfg: Config)
    requires IsMetricSample(x, pre, o, cfg)
    ensures AreSeqPoints(SeqPoints(u, o.seg, o.dir, x.retransmit, x.outOfOrder).1, pre, o, cfg)
  {
    var u1 := if o.seg.IsData() then u.Set(o.dir, Unwrap.Offset(u.Get(o.dir), o.seg.seqNo).0) else u;
    var acked := o.dir.Opposite();
    var sacks := SackPoints(u1.Get(acked), o.seg.sackLefts, o.seg.ts, acked).1;
    var points := SeqPoints(u, o.seg, o.dir, x.retransmit, x.outOfOrder).1;
    SacksPlainly(u1.Get(acked), o.seg.sackLefts, o.seg.ts, acked);
    assert o.seg.payloadLen > 0 ==> points[1..] == sacks;
    assert o.seg.payloadLen == 0 ==> points == sacks;
  }

  // ------------------------------------------------------------------ one segment more

  predicate Wanted(cfg: Config, id: ConnId) {
    cfg.seriesCollection == AllSeries || cfg.seriesCollection == OnlySeries(id)
  }

  /** What the last segment of a log adds to the series of kind `k`. */
  ghost function Adds(id: ConnId, log: Log, cfg: Config, k: Kind): seq<Sample>
    requires |log| > 0
  {
    Of(Yield(id, log, cfg), k)
  }

  lemma DetailHasNoSeries(d: Deriv, seg: Segment, dir: Direction, sample: Sample, cfg: Config)
    requires sample.MetricSample?
    ensures Of(DetailSamples(d, seg, dir, sample, cfg), SERIES) == []
  {
    var b := if cfg.collectInFlight then InFlightPoints(d.metrics, seg.ts) else [];
    var e := if cfg.collectThroughput then ThroughputPoints(d.metrics, seg.ts, cfg.throughputWindow) else [];
    var a, c := UnwrapInto(d.unwrap, seg, dir, sample, cfg).1, SmoothInto(d.srtt, sample, cfg).1;
    assert InFlightPart(d.metrics, seg.ts, cfg) == Tag(INFLIGHT, b);
    assert ThroughputPart(d.metrics, seg.ts, cfg) == Tag(THROUGHPUT, e);
    OfFourConcat(Tag(SEQPOINTS, a), Tag(INFLIGHT, b), Tag(RTTS, c), Tag(THROUGHPUT, e), SERIES);
    OfTag(a, SEQPOINTS, SERIES);
    OfTag(b, INFLIGHT, SERIES);
    OfTag(c, RTTS, SERIES);
    OfTag(e, THROUGHPUT, SERIES);
  }

  lemma DerivedSeriesSample(d: Deriv, id: ConnId, o: Obs, cfg: Config)
    ensures Of(Derived(d, id, o.seg, o.dir, cfg), SERIES) ==
            if Wanted(cfg, id) then [ObserveSample(d.metrics, o.seg, o.dir, cfg)] else []
  {
    if cfg.WantsMetrics(id) {
      var sample := ObserveSample(d.metrics, o.seg, o.dir, cfg);
      PartAndDetail(id, d.(metrics := ObserveState(d.metrics, o.seg, o.dir, cfg)), o.seg, o.dir, sample, cfg);
    }
  }

  lemma PartAndDetail(id: ConnId, d: Deriv, seg: Segment, dir: Direction, sample: Sample, cfg: Config)
    requires sample.MetricSample?
    ensures Of(SeriesPart(id, sample, cfg) + DetailSamples(d, seg, dir, sample, cfg), SERIES) ==
            if Wanted(cfg, id) then [sample] else []
  {
    DetailHasNoSeries(d, seg, dir, sample, cfg);
    StateSeries.OfConcat(SeriesPart(id, sample, cfg), DetailSamples(d, seg, dir, sample, cfg), SERIES);
    OneOfKind(SeriesPart(id, sample, cfg), SERIES);
  }

  lemma OneOfKind(xs: seq<Tagged>, k: Kind)
    requires |xs| <= 1 && forall i | 0 <= i < |xs| :: xs[i].kind == k
    ensures Of(xs, k) == if |xs| == 1 then [xs[0].sample] else []
  {
    assert |xs| == 1 ==> xs[..0] == [];
  }

  /** One state of the life so far. */
  lemma StateAdded(id: ConnId, log: Log, cfg: Config)
    requires |log| > 0
    ensures var l := LifeRun(id, log);
            Adds(id, log, cfg, STATES) ==
            if cfg.collectState
            then [StateSample(log[|log| - 1].ts, l.phase.state, l.traffic.bytesO2R, l.traffic.bytesR2O)] else []
  {
    var d, o := BeforeLastDeriv(id, log, cfg), LastObs(id, log);
    if cfg.collectState {
      SeekAnyOrder.YieldsOneState(id, log, cfg);
    } else {
      StateSeries.DerivedHasNoStates(d, id, o.seg, o.dir, cfg);
      StateSeries.OfNoStates(Derived(d, id, o.seg, o.dir, cfg));
      var derived := Derived(d, id, o.seg, o.dir, cfg);
      assert derived + [] == derived && [] + derived == derived;
    }
  }

  /** One metric sample, if the instance's series is wanted. */
  lemma MetricAdded(id: ConnId, log: Log, cfg: Config)
    requires |log| > 0
    ensures var added := Adds(id, log, cfg, SERIES);
            if Wanted(cfg, id)
            then |added| == 1 && IsMetricSample(added[0], BeforeLastObs(id, log), LastObs(id, log), cfg)
            else added == []
  {
    var d, o := BeforeLastDeriv(id, log, cfg), LastObs(id, log);
    WithoutState(Derived(d, id, o.seg, o.dir, cfg), LifeRun(id, log), o.seg.ts, cfg, SERIES);
    DerivedSeriesSample(d, id, o, cfg);
    if Wanted(cfg, id) {
      LastDerivation(id, log, cfg);
      MetricPlainly(BeforeLastObs(id, log), o, cfg);
    }
  }

  /** The sequence points of the segment, each data point with its length and verdict. */
  lemma PointsAdded(id: ConnId, log: Log, cfg: Config)
    requires |log| > 0
    ensures var added := Adds(id, log, cfg, SEQPOINTS);
            if cfg.collectSeq then AreSeqPoints(added, BeforeLastObs(id, log), LastObs(id, log), cfg) else added == []
  {
    YieldedAt(id, log, cfg, SEQPOINTS);
    if cfg.collectSeq {
      var d, o := BeforeLastDeriv(id, log, cfg), LastObs(id, log);
      LastDerivation(id, log, cfg);
      MetricPlainly(BeforeLastObs(id, log), o, cfg);
      PointsPlainly(d.unwrap, ObserveSample(d.metrics, o.seg, o.dir, cfg), BeforeLastObs(id, log), o, cfg);
    }
  }

  /** One round-trip sample of the other side, if the segment reports a time. */
  lemma RttAdded(id: ConnId, log: Log, cfg: Config)
    requires |log| > 0
    ensures IsReport(Adds(id, log, cfg, RTTS), BeforeLastObs(id, log), LastObs(id, log), cfg)
  {
    YieldedAt(id, log, cfg, RTTS);
    if cfg.collectRtt {
      RecordedTruth.AddedRttIs(id, log, cfg);
      LastDerivation(id, log, cfg);
      DirectionsAreIndependent(BeforeLastObs(id, log), cfg);
    }
  }

  // ------------------------------------------------------------ segments and ticks

  /** A story's segments, as the metric engine sees them. */
  function Seen(id: ConnId, story: Story): seq<Obs>
    requires Begins(story)
  {
    Observations(id, LogOf(story))
  }

  /** A switched-off series of readings or rates gets nothing. */
  lemma OffAdds(id: ConnId, story: Story, cfg: Config, k: Kind)
    requires Begins(story) && OfDecay(k) && (if k == INFLIGHT then !cfg.collectInFlight else !cfg.collectThroughput)
    ensures Of(Told(id, story, cfg), k) == []
  {
    match story[|story| - 1]
    case Heard(_) => YieldedAt(id, LogOf(story), cfg, k);
    case Decayed(t) => DecayAddsNoOther(DerivRun(id, LogOf(story), cfg).metrics, t, cfg, k);
  }

  /** What the last event of a story, segment or tick, adds of readings. */
  lemma ReadingsAdded(id: ConnId, story: Story, cfg: Config)
    requires Begins(story)
    ensures Of(Told(id, story, cfg), INFLIGHT) ==
            if cfg.collectInFlight then Readings(Seen(id, story), When(story[|story| - 1]), cfg) else []
  {
    if cfg.collectInFlight {
      RecordedTruth.ToldAreReadings(id, story, cfg);
      ReadingsPlainly(Seen(id, story), When(story[|story| - 1]), cfg);
    } else {
      OffAdds(id, story, cfg, INFLIGHT);
    }
  }

  /** And of rates. */
  lemma RatesAdded(id: ConnId, story: Story, cfg: Config)
    requires Begins(story)
    ensures Of(Told(id, story, cfg), THROUGHPUT) ==
            if cfg.collectThroughput then RatesOf(Seen(id, story), When(story[|story| - 1]), cfg) else []
  {
    if cfg.collectThroughput {
      RecordedTruth.ToldAreReadings(id, story, cfg);
      RatePointsPlainly(Seen(id, story), When(story[|story| - 1]), cfg);
    } else {
      OffAdds(id, story, cfg, THROUGHPUT);
    }
  }

  /** What a segment adds: its state, its metric sample, its points and the time it reports. */
  ghost predicate SegmentAdds(id: ConnId, log: Log, cfg: Config, told: seq<Tagged>)
    requires |log| > 0
  {
    var l, pre, o := LifeRun(id, log), BeforeLastObs(id, log), LastObs(id, log);
    && Of(told, STATES) == (if cfg.collectState
                            then [StateSample(o.seg.ts, l.phase.state, l.traffic.bytesO2R, l.traffic.bytesR2O)] else [])
    && (if Wanted(cfg, id) then |Of(told, SERIES)| == 1 && IsMetricSample(Of(told, SERIES)[0], pre, o, cfg)
        else Of(told, SERIES) == [])
    && (if cfg.collectSeq then AreSeqPoints(Of(told, SEQPOINTS), pre, o, cfg) else Of(told, SEQPOINTS) == [])
    && IsReport(Of(told, RTTS), pre, o, cfg)
  }

  ghost predicate IsReport(xs: seq<Sample>, pre: seq<Obs>, o: Obs, cfg: Config) {
    var rtt := RttOf(DirRun(o.dir.Opposite(), pre, cfg), o.seg);
    if cfg.collectRtt && rtt.Some?
    then |xs| == 1 && xs[0].RttSample? && xs[0].t == o.seg.ts && xs[0].dir != o.dir && xs[0].measured == rtt.value
    else xs == []
  }

  /** A tick adds to none of these. */
  ghost predicate TickAdds(told: seq<Tagged>) {
    Of(told, STATES) == [] && Of(told, SERIES) == [] && Of(told, SEQPOINTS) == [] && Of(told, RTTS) == []
  }

  /** Either adds a reading for each direction that has sent, and rates for each that has sent data;
      and nothing is added where a series is switched off. */
  ghost predicate AddsPlainly(id: ConnId, story: Story, cfg: Config)
    requires Begins(story)
  {
    var told, last := Told(id, story, cfg), story[|story| - 1];
    && (if last.Heard? then SegmentAdds(id, LogOf(story), cfg, told) else TickAdds(told))
    && Of(told, INFLIGHT) == (if cfg.collectInFlight then Readings(Seen(id, story), When(last), cfg) else [])
    && Of(told, THROUGHPUT) == (if cfg.collectThroughput then RatesOf(Seen(id, story), When(last), cfg) else [])
  }

  lemma YieldAdds(id: ConnId, log: Log, cfg: Config)
    requires |log| > 0
    ensures SegmentAdds(id, log, cfg, Yield(id, log, cfg))
  {
    StateAdded(id, log, cfg);
    MetricAdded(id, log, cfg);
    PointsAdded(id, log, cfg);
    RttAdded(id, log, cfg);
  }

  lemma DecayAddsNone(m: PerDir<DirState>, t: u64, cfg: Config)
    ensures TickAdds(DecayPart(m, t, cfg))
  {
    DecayAddsNoOther(m, t, cfg, STATES);
    DecayAddsNoOther(m, t, cfg, SERIES);
    DecayAddsNoOther(m, t, cfg, SEQPOINTS);
    DecayAddsNoOther(m, t, cfg, RTTS);
  }

  lemma GrowsByTold(id: ConnId, story: Story, cfg: Config)
    requires Begins(story)
    ensures forall k: Kind ::
              StoryHist(id, story, cfg)[k] == BeforeTold(id, story, cfg)[k] + Of(Told(id, story, cfg), k)
  {
    forall k: Kind
      ensures StoryHist(id, story, cfg)[k] == BeforeTold(id, story, cfg)[k] + Of(Told(id, story, cfg), k)
    {
      ToldAt(id, story, cfg, k);
    }
  }

  lemma ToldPlainly(id: ConnId, story: Story, cfg: Config)
    requires Begins(story)
    ensures AddsPlainly(id, story, cfg)
  {
    ReadingsAdded(id, story, cfg);
    RatesAdded(id, story, cfg);
    match story[|story| - 1]
    case Heard(_) => YieldAdds(id, LogOf(story), cfg);
    case Decayed(t) => DecayAddsNone(DerivRun(id, LogOf(story), cfg).metrics, t, cfg);
  }

  /** Each of the six series grows, event by event, by just that. */
  lemma EventAdds(id: ConnId, story: Story, cfg: Config)
    requires Begins(story)
    ensures forall k: Kind ::
              StoryHist(id, story, cfg)[k] == BeforeTold(id, story, cfg)[k] + Of(Told(id, story, cfg), k)
    ensures AddsPlainly(id, story, cfg)
  {
    GrowsByTold(id, story, cfg);
    ToldPlainly(id, story, cfg);
  }

  // ------------------------------------------------------------------ switched off

  /** The series of kind `k` is not asked for. */
  predicate Off(cfg: Config, id: ConnId, k: Kind) {
    if k == STATES then !cfg.collectState
    else if k == SERIES then !Wanted(cfg, id)
    else if k == SEQPOINTS then !cfg.collectSeq
    else if k == INFLIGHT then !cfg.collectInFlight
    else if k == RTTS then !cfg.collectRtt
    else !cfg.collectThroughput
  }

  lemma SegmentAddsNone(id: ConnId, log: Log, cfg: Config, told: seq<Tagged>, k: Kind)
    requires |log| > 0 && SegmentAdds(id, log, cfg, told) && Off(cfg, id, k) && !OfDecay(k)
    ensures Of(told, k) == []
  {}

  lemma OffToldNothing(id: ConnId, story: Story, cfg: Config, k: Kind)
    requires Begins(story) && Off(cfg, id, k)
    ensures Of(Told(id, story, cfg), k) == []
  {
    if OfDecay(k) {
      OffAdds(id, story, cfg, k);
    } else {
      match story[|story| - 1]
      case Heard(_) =>
        YieldAdds(id, LogOf(story), cfg);
        SegmentAddsNone(id, LogOf(story), cfg, Yield(id, LogOf(story), cfg), k);
      case Decayed(t) => DecayAddsNone(DerivRun(id, LogOf(story), cfg).metrics, t, cfg);
    }
  }

  lemma {:induction false} OffTellsNothing(id: ConnId, story: Story, cfg: Config, k: Kind)
    requires Begins(story) && Off(cfg, id, k)
    ensures StoryHist(id, story, cfg)[k] == []
  {
    ToldAt(id, story, cfg, k);
    OffToldNothing(id, story, cfg, k);
    if |story| > 1 {
      BeforeToldIs(id, story, cfg);
      OffTellsNothing(id, story[..|story| - 1], cfg, k);
    }
  }

  /** What is switched off is never retained, by any connection in any run that has not failed. */
  lemma SwitchedOffIsEmpty(cfg: Config, items: seq<Item>, i: nat, k: Kind)
    requires !Run(cfg, items).overflowed && i < |Run(cfg, items).conns|
    requires Off(cfg, Run(cfg, items).conns[i].life.ident.id, k)
    ensures Run(cfg, items).conns[i].hist[k] == []
  {
    SeriesAreTold(cfg, items);
    NothingTold(Run(cfg, items).conns[i], StoriesOf(cfg, items)[i], cfg, k);
  }

  lemma NothingTold(c: Conn, story: Story, cfg: Config, k: Kind)
    requires IsTold(c, story, cfg) && Off(cfg, c.life.ident.id, k)
    ensures c.hist[k] == []
  {
    OffTellsNothing(c.life.ident.id, story, cfg, k);
  }
}
