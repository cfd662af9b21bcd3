/** What the recorded series of a run say about the stream: every round-trip sample measures one
    unambiguous send, every in-flight sample is the unbounded engine's, and every rate sample
    that a tick made, or a segment in order, is the naive rate over the whole history. */
module RecordedTruth {
  import opened Core
  import opened Serial
  import opened MetricSpec
  import opened IdealMetrics
  import opened Karn
  import opened Srtt
  import opened Unwrap
  import opened TrackerSpec
  import opened Attribution
  import opened DerivedSeries
  import opened SeriesFolds
  import opened Eviction
  import opened Chronology
  import opened Stories
  import Window

  // ------------------------------------------------------- one sample, one segment

  /** The history up to and with item `n`. */
  function Through<T>(xs: seq<T>, n: nat): seq<T>
    requires n < |xs|
  {
    xs[..n + 1]
  }

  /** Sample `j` was made by item `made[j]`, items in order, and is right about the history
      through it. */
  ghost predicate Made<T(!new)>(xs: seq<Sample>, made: seq<nat>, items: seq<T>, right: (Sample, seq<T>) -> bool) {
    && |made| == |xs|
    && (forall j | 0 <= j < |made| :: made[j] < |items| && right(xs[j], Through(items, made[j])))
    && (forall j, k | 0 <= j < k < |made| :: made[j] <= made[k])
  }

  lemma ThroughMore<T>(items: seq<T>, item: T)
    ensures forall n: nat | n < |items| :: Through(items + [item], n) == Through(items, n)
    ensures Through(items + [item], |items|) == items + [item]
  {}

  ghost predicate AddedRight<T(!new)>(added: seq<Sample>, items: seq<T>, right: (Sample, seq<T>) -> bool) {
    forall j | 0 <= j < |added| :: right(added[j], items)
  }

  /** The last of the items makes some more samples. */
  lemma MadeMore<T(!new)>(xs: seq<Sample>, made: seq<nat>, items: seq<T>, added: seq<Sample>, late: seq<nat>,
                          right: (Sample, seq<T>) -> bool)
    requires |items| > 0 && Made(xs, made, items[..|items| - 1], right) && AddedRight(added, items, right)
    requires |late| == |added| && forall j | 0 <= j < |late| :: late[j] == |items| - 1
    ensures Made(xs + added, made + late, items, right)
  {
    var pre, item := items[..|items| - 1], items[|items| - 1];
    assert items == pre + [item];
    ThroughMore(pre, item);
    forall j | 0 <= j < |made + late|
      ensures (made + late)[j] < |items| && right((xs + added)[j], Through(items, (made + late)[j]))
    {
      if j < |made| {
        assert right(xs[j], Through(pre, made[j]));
      } else {
        assert right(added[j - |made|], items);
      }
    }
  }

  /** So a recorded series stays right when the samples its last segment added are. */
  lemma HistMade<T(!new)>(id: ConnId, log: Log, cfg: Config, k: Kind, made: seq<nat>, items: seq<T>,
                          right: (Sample, seq<T>) -> bool)
    requires |log| == |items| > 0 && SEQPOINTS <= k
    requires Made(BeforeLastHist(id, log, cfg)[k], made, items[..|items| - 1], right)
    requires AddedRight(Added(id, log, cfg, k), items, right)
    ensures Made(HistRun(id, log, cfg)[k], made + Lately(id, log, cfg, k), items, right)
  {
    HistStep(id, log, cfg, k);
    MadeMore(BeforeLastHist(id, log, cfg)[k], made, items, Added(id, log, cfg, k), Lately(id, log, cfg, k), right);
  }

  /** The last item, once for each sample it added. */
  ghost function Lately(id: ConnId, log: Log, cfg: Config, k: Kind): seq<nat>
    requires |log| > 0 && SEQPOINTS <= k
  {
    seq(|Added(id, log, cfg, k)|, j => |log| - 1)
  }

  // --------------------------------------------------------------- round-trip times

  /** The sample made by the last observation measures one unambiguous send of the other side,
      and carries the average of all measured so far. */
  ghost predicate MeasuresOneSend(x: Sample, obs: seq<Obs>, cfg: Config) {
    && x.RttSample? && |obs| > 0 && x.t == obs[|obs| - 1].seg.ts
    && var n, d := |obs| - 1, x.dir;
       && Reports(d, obs, n, cfg)
       && var i := Source(d, obs, n, cfg);
          && i < n && obs[i].dir == d && obs[i].seg.ConsumesSeq()
          && (forall j | i <= j < n :: !RetransmittedAt(d, obs, j, cfg))
          && SerialLe(SeqEnd(obs[i].seg), obs[n].seg.ackNo)
          && x.measured == SatSub(obs[n].seg.ts, obs[i].seg.ts)
          && Measured(obs, d, cfg) != [] && x.srtt == Smoothed(Measured(obs, d, cfg))
  }

  ghost function RttRight(cfg: Config): (Sample, seq<Obs>) -> bool {
    (x, obs) => MeasuresOneSend(x, obs, cfg)
  }

  /** Whether the last observation reports a round-trip time at all. */
  ghost predicate ReportsLast(obs: seq<Obs>, cfg: Config) {
    |obs| > 0 && Reports(obs[|obs| - 1].dir.Opposite(), obs, |obs| - 1, cfg)
  }

  /** Every report up to observation `n` has its sample. */
  ghost predicate Complete(made: seq<nat>, obs: seq<Obs>, cfg: Config) {
    && (forall j, k | 0 <= j < k < |made| :: made[j] < made[k])
    && (forall n: nat | n < |obs| && ReportsLast(Through(obs, n), cfg) :: n in made)
  }

  ghost predicate RttsTrue(xs: seq<Sample>, made: seq<nat>, obs: seq<Obs>, cfg: Config) {
    Made(xs, made, obs, RttRight(cfg)) && Complete(made, obs, cfg)
  }

  /** The time the last segment of a log reports, if it does. */
  ghost function LastRtt(id: ConnId, log: Log, cfg: Config): Option<u64>
    requires |log| > 0
  {
    var d, o := BeforeLastDeriv(id, log, cfg), LastObs(id, log);
    ObserveSample(d.metrics, o.seg, o.dir, cfg).rtt
  }

  lemma LastRttIs(id: ConnId, log: Log, cfg: Config)
    requires |log| > 0 && cfg.collectRtt
    ensures var obs, o := Observations(id, log), LastObs(id, log);
            && obs[|obs| - 1] == o
            && LastRtt(id, log, cfg) == RttOf(DirRun(o.dir.Opposite(), obs[..|obs| - 1], cfg), o.seg)
            && (LastRtt(id, log, cfg).Some? <==> ReportsLast(obs, cfg))
  {
    LastObservation(id, log);
    LastDerivation(id, log, cfg);
    ObservationsBeforeLast(id, log);
    DirectionsAreIndependent(BeforeLastObs(id, log), cfg);
  }

  /** The sample recorded for a reported time. */
  lemma RttSampleIsRight(id: ConnId, log: Log, cfg: Config)
    requires |log| > 0 && cfg.collectRtt && LastRtt(id, log, cfg).Some?
    ensures var d, o := BeforeLastDeriv(id, log, cfg), LastObs(id, log);
            var m, rtt := o.dir.Opposite(), LastRtt(id, log, cfg).value;
            MeasuresOneSend(RttSample(o.seg.ts, m, rtt, Smooth(d.srtt.Get(m), rtt)), Observations(id, log), cfg)
  {
    var obs, m := Observations(id, log), LastObs(id, log).dir.Opposite();
    LastRttIs(id, log, cfg);
    RttMeasuresUnambiguousSend(m, obs, |obs| - 1, cfg);
    SrttAfter(id, log, m, cfg);
  }

  lemma AddedRttIs(id: ConnId, log: Log, cfg: Config)
    requires |log| > 0 && cfg.collectRtt
    ensures var d, o, rtt := BeforeLastDeriv(id, log, cfg), LastObs(id, log), LastRtt(id, log, cfg);
            var m := o.dir.Opposite();
            Added(id, log, cfg, RTTS) ==
            if rtt.Some? then [RttSample(o.seg.ts, m, rtt.value, Smooth(d.srtt.Get(m), rtt.value))] else []
  {}

  lemma AddedRtts(id: ConnId, log: Log, cfg: Config)
    requires |log| > 0 && cfg.collectRtt
    ensures var obs, added := Observations(id, log), Added(id, log, cfg, RTTS);
            && |added| <= 1 && (|added| == 1 <==> ReportsLast(obs, cfg))
            && AddedRight(added, obs, RttRight(cfg))
  {
    AddedRttIs(id, log, cfg);
    LastRttIs(id, log, cfg);
    if LastRtt(id, log, cfg).Some? {
      RttSampleIsRight(id, log, cfg);
    }
  }

  /** The smoothed value recorded with a measurement is the average including it. */
  lemma SrttAfter(id: ConnId, log: Log, m: Direction, cfg: Config)
    requires |log| > 0 && cfg.collectRtt
    requires var d, o := BeforeLastDeriv(id, log, cfg), LastObs(id, log);
             m == o.dir.Opposite() && ObserveSample(d.metrics, o.seg, o.dir, cfg).rtt.Some?
    ensures var d, o := BeforeLastDeriv(id, log, cfg), LastObs(id, log);
            var sample, rtts := ObserveSample(d.metrics, o.seg, o.dir, cfg), Measured(Observations(id, log), m, cfg);
            rtts != [] && Smooth(d.srtt.Get(m), sample.rtt.value) == Smoothed(rtts)
  {
    var d, o := BeforeLastDeriv(id, log, cfg), LastObs(id, log);
    SmoothedIsAverage(id, log, m, cfg);
    LastStep(id, log, cfg);
    NextDerivParts(d, id, o, cfg);
  }

  lemma AddedCount(id: ConnId, log: Log, cfg: Config)
    requires |log| > 0 && cfg.collectRtt
    ensures var late := Lately(id, log, cfg, RTTS);
            && |late| <= 1 && (|late| == 1 <==> ReportsLast(Observations(id, log), cfg))
            && (|late| == 1 ==> late[0] == |log| - 1)
  {
    AddedRtts(id, log, cfg);
  }

  lemma CompleteMore(made: seq<nat>, late: seq<nat>, obs: seq<Obs>, o: Obs, cfg: Config)
    requires Complete(made, obs, cfg) && (forall j | 0 <= j < |made| :: made[j] < |obs|)
    requires |late| <= 1 && (|late| == 1 <==> ReportsLast(obs + [o], cfg)) && (|late| == 1 ==> late[0] == |obs|)
    ensures Complete(made + late, obs + [o], cfg)
  {
    ThroughMore(obs, o);
    forall n: nat | n < |obs + [o]| && ReportsLast(Through(obs + [o], n), cfg)
      ensures n in made + late
    {
      if n < |obs| {
        assert ReportsLast(Through(obs, n), cfg);
      } else {
        assert (made + late)[|made|] == n;
      }
    }
  }

  lemma RttsComplete(id: ConnId, log: Log, made: seq<nat>, cfg: Config)
    requires |log| > 0 && cfg.collectRtt && Complete(made, BeforeLastObs(id, log), cfg)
    requires forall j | 0 <= j < |made| :: made[j] < |log| - 1
    ensures Complete(made + Lately(id, log, cfg, RTTS), Observations(id, log), cfg)
  {
    AddedCount(id, log, cfg);
    LastObservation(id, log);
    CompleteMore(made, Lately(id, log, cfg, RTTS), BeforeLastObs(id, log), LastObs(id, log), cfg);
  }

  lemma RttsMade(id: ConnId, log: Log, made: seq<nat>, cfg: Config)
    requires |log| > 0 && cfg.collectRtt
    requires Made(BeforeLastHist(id, log, cfg)[RTTS], made, BeforeLastObs(id, log), RttRight(cfg))
    ensures Made(HistRun(id, log, cfg)[RTTS], made + Lately(id, log, cfg, RTTS), Observations(id, log), RttRight(cfg))
  {
    AddedRtts(id, log, cfg);
    ObservationsBeforeLast(id, log);
    HistMade(id, log, cfg, RTTS, made, Observations(id, log), RttRight(cfg));
  }

  lemma ObservationsBeforeLast(id: ConnId, log: Log)
    requires |log| > 0
    ensures Observations(id, log)[..|log| - 1] == BeforeLastObs(id, log)
  {
    LastObservation(id, log);
  }

  lemma {:induction false} HistRttsTrue(id: ConnId, log: Log, cfg: Config) returns (made: seq<nat>)
    requires |log| > 0 && cfg.collectRtt
    ensures RttsTrue(HistRun(id, log, cfg)[RTTS], made, Observations(id, log), cfg)
  {
    var before: seq<nat> := [];
    if |log| > 1 {
      before := HistRttsTrue(id, log[..|log| - 1], cfg);
    }
    RttsMade(id, log, before, cfg);
    RttsComplete(id, log, before, cfg);
    made := before + Lately(id, log, cfg, RTTS);
  }

  /** In an unfailed run the round-trip series of every connection's log is one sample for each
      acknowledgement that reports a time, in order; each measures one unambiguous send and
      carries the running average.  A replay records it all, a live run retains its end. */
  lemma RecordedRttsAreTrue(cfg: Config, items: seq<Item>, i: nat) returns (xs: seq<Sample>, made: seq<nat>)
    requires cfg.collectRtt && !Run(cfg, items).overflowed && i < |Run(cfg, items).conns|
    ensures |Logs(cfg, items)[i]| > 0
    ensures var c := Run(cfg, items).conns[i];
            && RttsTrue(xs, made, Observations(c.life.ident.id, Logs(cfg, items)[i]), cfg)
            && IsSuffix(c.hist[RTTS], xs) && (cfg.retention.FailFast? ==> c.hist[RTTS] == xs)
  {
    RetainedOfLog(cfg, items, i, RTTS);
    xs := HistRun(Run(cfg, items).conns[i].life.ident.id, Logs(cfg, items)[i], cfg)[RTTS];
    made := HistRttsTrue(Run(cfg, items).conns[i].life.ident.id, Logs(cfg, items)[i], cfg);
  }

  /** The times reported at `n` and `m` measure sends in that order. */
  ghost predicate MeasuresLaterSend(d: Direction, obs: seq<Obs>, n: nat, m: nat, cfg: Config) {
    && n < m < |obs| && Reports(d, Through(obs, n), n, cfg) && Reports(d, Through(obs, m), m, cfg)
    && Source(d, Through(obs, n), n, cfg) < Source(d, Through(obs, m), m, cfg)
  }

  /** Two such samples of one direction measure different sends, the later sample the later
      send. */
  lemma RecordedRttsDiffer(xs: seq<Sample>, made: seq<nat>, obs: seq<Obs>, j: nat, k: nat, cfg: Config)
    requires RttsTrue(xs, made, obs, cfg) && j < k < |xs| && xs[j].dir == xs[k].dir
    ensures |made| == |xs| && MeasuresLaterSend(xs[j].dir, obs, made[j], made[k], cfg)
  {
    var n, m := made[j], made[k];
    assert RttRight(cfg)(xs[j], Through(obs, n)) && RttRight(cfg)(xs[k], Through(obs, m));
    assert n < m;
    ReportsWhatItMeasures(xs[j], obs, n, cfg);
    ReportsWhatItMeasures(xs[k], obs, m, cfg);
    EarlierSource(xs[j].dir, obs, n, m, cfg);
  }

  lemma ReportsWhatItMeasures(x: Sample, obs: seq<Obs>, n: nat, cfg: Config)
    requires n < |obs| && MeasuresOneSend(x, Through(obs, n), cfg)
    ensures x.RttSample? && Reports(x.dir, Through(obs, n), n, cfg)
  {}

  lemma EarlierSource(d: Direction, obs: seq<Obs>, n: nat, m: nat, cfg: Config)
    requires n < m < |obs| && Reports(d, Through(obs, n), n, cfg) && Reports(d, Through(obs, m), m, cfg)
    ensures MeasuresLaterSend(d, obs, n, m, cfg)
  {
    var a, b := Through(obs, n), Through(obs, m);
    assert a[..n] == b[..n] && a[n] == b[n];
    NoSendMeasuredTwice(d, b, n, m, cfg);
  }

  // ---------------------------------------------------------------- sequence points

  /** The sequence series a live run retains is the end of the true distances' series too. */
  lemma RetainedPointsAreTrue(cfg: Config, items: seq<Item>, i: nat, d: Direction, ps: seq<int>)
    returns (xs: seq<Sample>)
    requires cfg.collectSeq && !Run(cfg, items).overflowed
    requires i < |Run(cfg, items).conns| && |Logs(cfg, items)[i]| > 0
    requires Positions(ps, Fed(Observations(Run(cfg, items).conns[i].life.ident.id, Logs(cfg, items)[i]), d))
    requires |ps| > 0 && WithinReach(ps)
    ensures IsSuffix(Run(cfg, items).conns[i].hist[SEQPOINTS], xs) && Rels(xs, d) == Distances(ps)
  {
    var id, log := Run(cfg, items).conns[i].life.ident.id, Logs(cfg, items)[i];
    RetainedOfLog(cfg, items, i, SEQPOINTS);
    RecordedArePoints(id, log, cfg);
    TrackedPointsAreTrue(cfg, items, i, d, ps);
    xs := Points(id, log, cfg);
  }

  // ------------------------------------------------------------- samples of stories

  lemma StoryMade(id: ConnId, story: Story, cfg: Config, k: Kind, made: seq<nat>, right: (Sample, Story) -> bool)
    requires Begins(story) && Made(BeforeTold(id, story, cfg)[k], made, story[..|story| - 1], right)
    requires AddedRight(Of(Told(id, story, cfg), k), story, right)
    ensures Made(StoryHist(id, story, cfg)[k], made + LatelyTold(id, story, cfg, k), story, right)
  {
    ToldAt(id, story, cfg, k);
    MadeMore(BeforeTold(id, story, cfg)[k], made, story, Of(Told(id, story, cfg), k),
             LatelyTold(id, story, cfg, k), right);
  }

  ghost function LatelyTold(id: ConnId, story: Story, cfg: Config, k: Kind): seq<nat>
    requires Begins(story)
  {
    seq(|Of(Told(id, story, cfg), k)|, j => |story| - 1)
  }

  /** The end of a series that was made so was made so. */
  lemma EndMade<T(!new)>(end: seq<Sample>, xs: seq<Sample>, made: seq<nat>, items: seq<T>,
                         right: (Sample, seq<T>) -> bool)
    requires IsSuffix(end, xs) && Made(xs, made, items, right)
    ensures Made(end, made[|xs| - |end|..], items, right)
  {
    var from := |xs| - |end|;
    forall j | 0 <= j < |end|
      ensures right(end[j], Through(items, made[from..][j]))
    {
      assert end[j] == xs[from + j] && made[from..][j] == made[from + j];
      assert right(xs[from + j], Through(items, made[from + j]));
    }
  }

  /** The metric state a story has come to, and the time of its last event. */
  ghost function MetricsAfter(id: ConnId, story: Story, cfg: Config): PerDir<DirState>
    requires Begins(story)
  {
    MetricRun(Observations(id, LogOf(story)), cfg)
  }

  function Latest(story: Story): u64
    requires Begins(story)
  {
    When(story[|story| - 1])
  }

  /** Segment or tick, what the last event adds are the readings of that metric state then. */
  lemma ToldAreReadings(id: ConnId, story: Story, cfg: Config)
    requires Begins(story)
    ensures var m, t := MetricsAfter(id, story, cfg), Latest(story);
            && (cfg.collectInFlight ==> Of(Told(id, story, cfg), INFLIGHT) == InFlightPoints(m, t))
            && (cfg.collectThroughput ==>
                  Of(Told(id, story, cfg), THROUGHPUT) == ThroughputPoints(m, t, cfg.throughputWindow))
  {
    var log := LogOf(story);
    LogBefore(story);
    if story[|story| - 1].Heard? {
      YieldedAt(id, log, cfg, INFLIGHT);
      YieldedAt(id, log, cfg, THROUGHPUT);
      AddedAreReadings(id, log, cfg);
    } else if cfg.WantsMetrics(id) {
      DerivedMetricsAreRun(id, log, cfg);
      DecayAddsNoOther(DerivRun(id, log, cfg).metrics, Latest(story), cfg, INFLIGHT);
      DecayAddsNoOther(DerivRun(id, log, cfg).metrics, Latest(story), cfg, THROUGHPUT);
    }
  }

  /** What is added after a segment are the readings of the metric run through it. */
  lemma AddedAreReadings(id: ConnId, log: Log, cfg: Config)
    requires |log| > 0
    ensures var m, o := MetricRun(Observations(id, log), cfg), LastObs(id, log);
            && (cfg.collectInFlight ==> Added(id, log, cfg, INFLIGHT) == InFlightPoints(m, o.seg.ts))
            && (cfg.collectThroughput ==>
                  Added(id, log, cfg, THROUGHPUT) == ThroughputPoints(m, o.seg.ts, cfg.throughputWindow))
  {
    if cfg.WantsMetrics(id) {
      LastDerivation(id, log, cfg);
      LastObservation(id, log);
      MetricRunStep(BeforeLastObs(id, log), LastObs(id, log), cfg);
    }
  }

  lemma MetricRunStep(obs: seq<Obs>, o: Obs, cfg: Config)
    ensures MetricRun(obs + [o], cfg) == ObserveState(MetricRun(obs, cfg), o.seg, o.dir, cfg)
  {
    assert (obs + [o])[..|obs|] == obs;
  }

  // ------------------------------------------------------------------ bytes in flight

  /** The sample is what the unbounded engine has in flight after the placed segments. */
  ghost predicate IdealReading(x: Sample, es: seq<Located>, t: u64, cfg: Config) {
    && x.InFlightSample? && x.t == t
    && var s := IdealRun(x.dir, es, cfg);
       s.sndNxt.Some? && s.acked.Some? && x.bytes == IdealInFlight(s)
  }

  /** Right after a story whose segments are the first of the placed ones. */
  ghost function ReadingRight(es: seq<Located>, cfg: Config): (Sample, Story) -> bool {
    (x: Sample, story: Story) =>
      Begins(story) && |LogOf(story)| <= |es| &&
      IdealReading(x, es[..|LogOf(story)|], Latest(story), cfg)
  }

  lemma ReadingsAreIdeal(es: seq<Located>, m: PerDir<DirState>, t: u64, cfg: Config)
    requires BothCoherent(es, cfg) && m == MetricRun(Plain(es), cfg)
    ensures forall x | x in InFlightPoints(m, t) :: IdealReading(x, es, t, cfg)
  {
    DirectionsAreIndependent(Plain(es), cfg);
    ReadingRefines(OriginToResponder, es, cfg);
    ReadingRefines(ResponderToOrigin, es, cfg);
  }

  ghost predicate BothCoherent(es: seq<Located>, cfg: Config) {
    CoherentRun(OriginToResponder, es, cfg) && CoherentRun(ResponderToOrigin, es, cfg)
  }

  /** The first of the placed segments are the story's. */
  ghost predicate Locates(es: seq<Located>, id: ConnId, story: Story, cfg: Config)
    requires Begins(story)
  {
    var n := |LogOf(story)|;
    n <= |es| && Plain(es[..n]) == Observations(id, LogOf(story)) && BothCoherent(es[..n], cfg)
  }

  /** The placed segments of a log, less the last, are those of the log less its last. */
  lemma LocatedBeforeLast(id: ConnId, log: Log, es: seq<Located>, cfg: Config)
    requires |log| > 1 && Plain(es) == Observations(id, log) && BothCoherent(es, cfg)
    ensures |es| == |log| && Plain(es[..|es| - 1]) == Observations(id, log[..|log| - 1])
    ensures BothCoherent(es[..|es| - 1], cfg)
  {
    LastObservation(id, log);
    assert |Plain(es)| == |log|;
    assert Plain(es[..|es| - 1]) == Plain(es)[..|es| - 1];
  }

  lemma LocatesBefore(es: seq<Located>, id: ConnId, story: Story, cfg: Config)
    requires Begins(story) && |story| > 1 && Locates(es, id, story, cfg)
    ensures Begins(story[..|story| - 1]) && Locates(es, id, story[..|story| - 1], cfg)
  {
    var n := |LogOf(story)|;
    LogBefore(story);
    if story[|story| - 1].Heard? {
      LocatedBeforeLast(id, LogOf(story), es[..n], cfg);
      assert es[..n][..n - 1] == es[..n - 1];
    }
  }

  lemma ToldReadingsRight(es: seq<Located>, id: ConnId, story: Story, cfg: Config)
    requires Begins(story) && Locates(es, id, story, cfg) && cfg.collectInFlight
    ensures AddedRight(Of(Told(id, story, cfg), INFLIGHT), story, ReadingRight(es, cfg))
  {
    ToldAreReadings(id, story, cfg);
    ReadingsAreIdeal(es[..|LogOf(story)|], MetricsAfter(id, story, cfg), Latest(story), cfg);
  }

  lemma {:induction false} StoryReadingsTrue(es: seq<Located>, id: ConnId, story: Story, cfg: Config)
    returns (made: seq<nat>)
    requires Begins(story) && Locates(es, id, story, cfg) && cfg.collectInFlight
    ensures Made(StoryHist(id, story, cfg)[INFLIGHT], made, story, ReadingRight(es, cfg))
  {
    var before: seq<nat> := [];
    if |story| > 1 {
      LocatesBefore(es, id, story, cfg);
      BeforeToldIs(id, story, cfg);
      before := StoryReadingsTrue(es, id, story[..|story| - 1], cfg);
    }
    ToldReadingsRight(es, id, story, cfg);
    StoryMade(id, story, cfg, INFLIGHT, before, ReadingRight(es, cfg));
    made := before + LatelyTold(id, story, cfg, INFLIGHT);
  }

  lemma AllLocated(es: seq<Located>, id: ConnId, story: Story, cfg: Config)
    requires Begins(story) && Plain(es) == Observations(id, LogOf(story)) && BothCoherent(es, cfg)
    ensures Locates(es, id, story, cfg)
  {
    assert |Plain(es)| == |es| && es[..|es|] == es;
  }

  /** What a connection retains of a series was made as the story's was. */
  lemma RetainedMade(c: Conn, story: Story, cfg: Config, k: Kind, made: seq<nat>, right: (Sample, Story) -> bool)
    returns (kept: seq<nat>)
    requires IsTold(c, story, cfg) && Made(StoryHist(c.life.ident.id, story, cfg)[k], made, story, right)
    ensures Made(c.hist[k], kept, story, right)
  {
    var told := StoryHist(c.life.ident.id, story, cfg)[k];
    EndMade(c.hist[k], told, made, story, right);
    kept := made[|told| - |c.hist[k]|..];
  }

  /** In any unfailed run, replay or live with ticks and eviction, for a connection whose
      segments stand at coherent positions, every in-flight sample retained is what an engine
      over unbounded integers has in flight at the segment or tick that made it, however often
      the numbers wrap. */
  lemma RecordedInFlightIsIdeal(cfg: Config, items: seq<Item>, i: nat, es: seq<Located>) returns (made: seq<nat>)
    requires cfg.collectInFlight && !Run(cfg, items).overflowed
    requires i < |Run(cfg, items).conns| && |Logs(cfg, items)[i]| > 0
    requires Plain(es) == Observations(Run(cfg, items).conns[i].life.ident.id, Logs(cfg, items)[i])
    requires BothCoherent(es, cfg)
    ensures Made(Run(cfg, items).conns[i].hist[INFLIGHT], made, StoriesOf(cfg, items)[i], ReadingRight(es, cfg))
  {
    StoryIsTold(cfg, items, i);
    AllLocated(es, Run(cfg, items).conns[i].life.ident.id, StoriesOf(cfg, items)[i], cfg);
    var all := StoryReadingsTrue(es, Run(cfg, items).conns[i].life.ident.id, StoriesOf(cfg, items)[i], cfg);
    made := RetainedMade(Run(cfg, items).conns[i], StoriesOf(cfg, items)[i], cfg, INFLIGHT, all, ReadingRight(es, cfg));
  }

  lemma StoryIsTold(cfg: Config, items: seq<Item>, i: nat)
    requires !Run(cfg, items).overflowed && i < |Run(cfg, items).conns|
    ensures var c, story := Run(cfg, items).conns[i], StoriesOf(cfg, items)[i];
            && IsTold(c, story, cfg) && LogOf(story) == Logs(cfg, items)[i]
            && Dated(story, Run(cfg, items).now) && (SegmentsInTime(items) ==> InTime(story))
  {
    SeriesAreTold(cfg, items);
    StoriesTellLogs(cfg, items);
    StoriesAreDated(cfg, items, SegmentsInTime(items));
    assert IsTold(Run(cfg, items).conns[i], StoriesOf(cfg, items)[i], cfg);
  }

  // ----------------------------------------------------------------------- the rates

  /** The sample is the naive rate over all data ever sent. */
  ghost predicate NaiveRate(x: Sample, obs: seq<Obs>, cfg: Config) {
    && x.ThroughputSample?
    && Window.NaiveRates(Window.History(x.dir, obs, cfg), x.t, cfg.throughputWindow)
       == Some(Rates(x.throughput, x.goodput))
  }

  /** The window can be trusted at `t`. */
  ghost predicate Trusted(d: Direction, obs: seq<Obs>, t: u64, cfg: Config) {
    var maxTs := DirRun(d, obs, cfg).tputMaxTs;
    maxTs.Some? ==> Window.Answerable(t, maxTs.value, cfg.throughputWindow)
  }

  ghost function RateRight(id: ConnId, cfg: Config): (Sample, Story) -> bool {
    (x: Sample, story: Story) =>
      && Begins(story) && x.ThroughputSample? && x.t == Latest(story)
      && var obs := Observations(id, LogOf(story));
         Trusted(x.dir, obs, x.t, cfg) ==> NaiveRate(x, obs, cfg)
  }

  lemma RateIsRight(id: ConnId, story: Story, d: Direction, cfg: Config)
    requires Begins(story)
    ensures AddedRight(ThroughputPoint(MetricsAfter(id, story, cfg), d, Latest(story), cfg.throughputWindow), story,
                       RateRight(id, cfg))
  {
    var obs := Observations(id, LogOf(story));
    DirectionsAreIndependent(obs, cfg);
    if Trusted(d, obs, Latest(story), cfg) {
      Window.WindowIsExact(d, obs, Latest(story), cfg);
    }
  }

  lemma ToldRatesRight(id: ConnId, story: Story, cfg: Config)
    requires Begins(story) && cfg.collectThroughput
    ensures AddedRight(Of(Told(id, story, cfg), THROUGHPUT), story, RateRight(id, cfg))
  {
    ToldAreReadings(id, story, cfg);
    RateIsRight(id, story, OriginToResponder, cfg);
    RateIsRight(id, story, ResponderToOrigin, cfg);
  }

  lemma {:induction false} StoryRatesTrue(id: ConnId, story: Story, cfg: Config) returns (made: seq<nat>)
    requires Begins(story) && cfg.collectThroughput
    ensures Made(StoryHist(id, story, cfg)[THROUGHPUT], made, story, RateRight(id, cfg))
  {
    var before: seq<nat> := [];
    if |story| > 1 {
      BeforeToldIs(id, story, cfg);
      before := StoryRatesTrue(id, story[..|story| - 1], cfg);
    }
    ToldRatesRight(id, story, cfg);
    StoryMade(id, story, cfg, THROUGHPUT, before, RateRight(id, cfg));
    made := before + LatelyTold(id, story, cfg, THROUGHPUT);
  }

  /** Nothing in the story is later than its last event. */
  ghost predicate LastIsLatest(story: Story) {
    Begins(story) && forall j | 0 <= j < |story| :: When(story[j]) <= Latest(story)
  }

  lemma {:induction false} LogNoLater(story: Story, t: u64)
    requires forall j | 0 <= j < |story| :: When(story[j]) <= t
    ensures forall seg | seg in LogOf(story) :: seg.ts <= t
  {
    if |story| > 0 {
      LogNoLater(story[..|story| - 1], t);
    }
  }

  /** Nothing in the history is newer than the newest segment. */
  lemma {:induction false} NewestIsLast(x: Direction, obs: seq<Obs>, t: u64, cfg: Config)
    requires forall i | 0 <= i < |obs| :: obs[i].seg.ts <= t
    ensures var maxTs := DirRun(x, obs, cfg).tputMaxTs; maxTs.Some? ==> maxTs.value <= t
  {
    if |obs| > 0 {
      var pre, o := obs[..|obs| - 1], obs[|obs| - 1];
      NewestIsLast(x, pre, t, cfg);
      NewestDataStep(x, DirRun(x, pre, cfg), o, cfg);
    }
  }

  lemma NewestDataStep(x: Direction, s: DirState, o: Obs, cfg: Config)
    ensures DirStep(x, s, o, cfg).tputMaxTs ==
            if o.dir == x && o.seg.IsData() then MaxTs(s.tputMaxTs, o.seg.ts) else s.tputMaxTs
  {}

  lemma LatestIsTrusted(id: ConnId, story: Story, cfg: Config)
    requires LastIsLatest(story)
    ensures forall d :: Trusted(d, Observations(id, LogOf(story)), Latest(story), cfg)
  {
    LogNoLater(story, Latest(story));
    forall d
      ensures Trusted(d, Observations(id, LogOf(story)), Latest(story), cfg)
    {
      NewestIsLast(d, Observations(id, LogOf(story)), Latest(story), cfg);
    }
  }

  /** So a sample made by a latest event is the naive rate. */
  lemma LatestIsNaive(id: ConnId, story: Story, x: Sample, cfg: Config)
    requires LastIsLatest(story) && RateRight(id, cfg)(x, story)
    ensures NaiveRate(x, Observations(id, LogOf(story)), cfg)
  {
    LatestIsTrusted(id, story, cfg);
    assert Trusted(x.dir, Observations(id, LogOf(story)), Latest(story), cfg);
  }

  lemma TicksAreLatest(story: Story, now: u64, n: nat)
    requires Begins(story) && Dated(story, now) && n < |story|
    requires story[n].Decayed? || InTime(story)
    ensures LastIsLatest(Through(story, n))
  {}

  /** Sample `x`, made by event `n` of the story, is the naive rate then. */
  ghost predicate NaiveAfter(x: Sample, id: ConnId, story: Story, n: nat, cfg: Config)
    requires n < |story| && Begins(story)
  {
    NaiveRate(x, Observations(id, LogOf(Through(story, n))), cfg)
  }

  /** In any unfailed run, replay or live with ticks and eviction, every rate sample retained is
      the naive rate, the scaled sums over all data its direction ever sent, whenever the window
      can be trusted at the event that made it: at every tick, therefore, and where no segment
      comes before an earlier item, at every segment too. */
  lemma RecordedRatesAreNaive(cfg: Config, items: seq<Item>, i: nat) returns (made: seq<nat>)
    requires cfg.collectThroughput && !Run(cfg, items).overflowed && i < |Run(cfg, items).conns|
    ensures Begins(StoriesOf(cfg, items)[i])
    ensures var c, story := Run(cfg, items).conns[i], StoriesOf(cfg, items)[i];
            && Made(c.hist[THROUGHPUT], made, story, RateRight(c.life.ident.id, cfg))
            && forall j | 0 <= j < |made| && (story[made[j]].Decayed? || SegmentsInTime(items)) ::
                 NaiveAfter(c.hist[THROUGHPUT][j], c.life.ident.id, story, made[j], cfg)
  {
    var c, story := Run(cfg, items).conns[i], StoriesOf(cfg, items)[i];
    var id := c.life.ident.id;
    StoryIsTold(cfg, items, i);
    var all := StoryRatesTrue(id, story, cfg);
    made := RetainedMade(c, story, cfg, THROUGHPUT, all, RateRight(id, cfg));
    forall j | 0 <= j < |made| && (story[made[j]].Decayed? || SegmentsInTime(items))
      ensures NaiveAfter(c.hist[THROUGHPUT][j], id, story, made[j], cfg)
    {
      TicksAreLatest(story, Run(cfg, items).now, made[j]);
      LatestIsNaive(id, Through(story, made[j]), c.hist[THROUGHPUT][j], cfg);
    }
  }
}
