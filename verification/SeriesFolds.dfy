/** In an unfailed replay every series of every connection is the fold of that connection's
    own segments, sample for sample. */
module SeriesFolds {
  import opened Core
  import opened MetricSpec
  import opened Unwrap
  import opened Lifecycle
  import opened TrackerSpec
  import opened TrackerLives
  import opened TrackerIndex
  import opened Recording
  import opened Accounting
  import opened Ceiling
  import opened Eviction
  import opened Attribution
  import opened DerivedSeries
  import StateSeries

  /** The samples the last segment of an instance's log produces, in order. */
  function Yield(id: ConnId, log: Log, cfg: Config): seq<Tagged>
    requires |log| > 0
  {
    var o := LastObs(id, log);
    var derived := Derived(BeforeLastDeriv(id, log, cfg), id, o.seg, o.dir, cfg);
    var state := StatePart(LifeRun(id, log), o.seg.ts, cfg);
    if |log| == 1 then derived + state else state + derived
  }

  /** The six series of an instance after the segments of its log. */
  ghost function HistRun(id: ConnId, log: Log, cfg: Config): Hist
    requires |log| > 0
  {
    AppendAll(if |log| == 1 then NO_HIST else HistRun(id, log[..|log| - 1], cfg), Yield(id, log, cfg))
  }

  ghost predicate AllRecorded(conns: seq<Conn>, logs: seq<Log>, cfg: Config) {
    && |logs| == |conns|
    && forall i | 0 <= i < |conns| :: |logs[i]| > 0 && conns[i].hist == HistRun(conns[i].life.ident.id, logs[i], cfg)
  }

  lemma JoinYields(s: TState, idx: nat, log: Log, seg: Segment)
    requires idx < |s.conns| && IsFoldOf(s.conns[idx].life, log)
    requires s.conns[idx].deriv == DerivRun(s.conns[idx].life.ident.id, log, s.cfg)
    ensures ProducedJoin(s, idx, seg) == Yield(s.conns[idx].life.ident.id, log + [seg], s.cfg)
  {
    var l := s.conns[idx].life;
    assert (log + [seg])[..|log|] == log;
    IdentityIsFixed(l.ident.id, log);
  }

  lemma OpenYields(s: TState, seg: Segment)
    ensures ProducedOpen(s, seg) == Yield(ConnId(seg.Pair(), NextInstance(s, seg.Pair())), [seg], s.cfg)
  {
  }

  lemma HistJoin(id: ConnId, log: Log, seg: Segment, cfg: Config)
    requires |log| > 0
    ensures HistRun(id, log + [seg], cfg) == AppendAll(HistRun(id, log, cfg), Yield(id, log + [seg], cfg))
  {
    assert (log + [seg])[..|log|] == log;
  }

  /** What a segment produces is what its connection's log says, and lands after what the
      connection had. */
  lemma ProducedIsYield(s: TState, logs: seq<Log>, seg: Segment)
    requires s.WF() && Indexed(s) && AllFolds(Lives(s.conns), logs)
    requires AllDerived(s.conns, logs, s.cfg) && AllRecorded(s.conns, logs, s.cfg)
    ensures var idx, id := Target(s, seg), Placed(s, seg).conns[Target(s, seg)].life.ident.id;
            var after := LogSegment(s, logs, seg);
            && |after| == |Placed(s, seg).conns|
            && AppendAll(Placed(s, seg).conns[idx].hist, Produced(s, seg)) == HistRun(id, after[idx], s.cfg)
  {
    PlacedRecordsNothing(s, seg);
    if Joins(s, seg) {
      var i := s.live[seg.Pair()];
      assert IsFoldOf(Lives(s.conns)[i], logs[i]);
      JoinYields(s, i, logs[i], seg);
      HistJoin(s.conns[i].life.ident.id, logs[i], seg, s.cfg);
    } else {
      OpenYields(s, seg);
    }
  }

  /** Placing leaves the ids, the logs and the series of the other connections alone. */
  lemma OthersRecorded(s: TState, logs: seq<Log>, seg: Segment)
    requires s.WF() && AllRecorded(s.conns, logs, s.cfg)
    ensures var p, after := Placed(s, seg), LogSegment(s, logs, seg);
            && |after| == |p.conns|
            && forall i | 0 <= i < |p.conns| && i != Target(s, seg) ::
                 |after[i]| > 0 && p.conns[i].hist == HistRun(p.conns[i].life.ident.id, after[i], s.cfg)
  {
  }

  lemma RecordingCompletes(p: TState, r: TState, idx: nat, logs: seq<Log>, cfg: Config)
    requires idx < |p.conns| == |logs| && Records(p, r, idx) && |logs[idx]| > 0
    requires forall i | 0 <= i < |p.conns| && i != idx ::
               |logs[i]| > 0 && p.conns[i].hist == HistRun(p.conns[i].life.ident.id, logs[i], cfg)
    requires r.conns[idx].hist == HistRun(p.conns[idx].life.ident.id, logs[idx], cfg)
    ensures AllRecorded(r.conns, logs, cfg)
  {
  }

  lemma SegmentRecorded(s: TState, logs: seq<Log>, seg: Segment)
    requires s.WF() && Indexed(s) && AllFolds(Lives(s.conns), logs)
    requires AllDerived(s.conns, logs, s.cfg) && AllRecorded(s.conns, logs, s.cfg)
    requires s.cfg.retention.FailFast? && !s.overflowed && !ObserveSegment(s, seg).overflowed
    ensures AllRecorded(ObserveSegment(s, seg).conns, LogSegment(s, logs, seg), s.cfg)
  {
    var p, idx, xs := Placed(s, seg), Target(s, seg), Produced(s, seg);
    ObserveSegmentIsPut(s, seg);
    PlacedRecordsNothing(s, seg);
    PushAllAppends(p, idx, xs);
    ProducedIsYield(s, logs, seg);
    OthersRecorded(s, logs, seg);
    RecordingCompletes(p, PushAll(p, idx, xs), idx, LogSegment(s, logs, seg), s.cfg);
  }

  /** As long as a replay has not failed, each series of each connection is exactly what its
      own segments produced, in order: nothing is lost, added or mixed up, whatever the other
      connections do. */
  lemma {:induction false} SeriesAreFolds(cfg: Config, items: seq<Item>)
    requires cfg.retention.FailFast? && !Run(cfg, items).overflowed
    ensures AllRecorded(Run(cfg, items).conns, Logs(cfg, items), cfg)
  {
    if |items| > 0 {
      var pre, last := items[..|items| - 1], items[|items| - 1];
      SuccessIsInherited(cfg, items);
      SeriesAreFolds(cfg, pre);
      RunKeepsConfig(cfg, pre);
      if last.Seg? {
        LastFailFast(cfg, items);
        LivesAreFolds(cfg, pre);
        RunIndexed(cfg, pre);
        DerivedAreFolds(cfg, pre);
        SegmentRecorded(BeforeLast(cfg, items), Logs(cfg, pre), last.seg);
      }
    }
  }

  // ---------------------------------------------------------- the four detail series

  /** What the last segment of a log adds to one of the four detail series. */
  function Added(id: ConnId, log: Log, cfg: Config, k: Kind): seq<Sample>
    requires |log| > 0 && SEQPOINTS <= k
  {
    var d, o := BeforeLastDeriv(id, log, cfg), LastObs(id, log);
    if !cfg.WantsMetrics(id) then []
    else
      Part(d.(metrics := ObserveState(d.metrics, o.seg, o.dir, cfg)), o.seg, o.dir,
           ObserveSample(d.metrics, o.seg, o.dir, cfg), cfg, k)
  }

  function Part(d: Deriv, seg: Segment, dir: Direction, sample: Sample, cfg: Config, k: Kind): seq<Sample>
    requires sample.MetricSample? && SEQPOINTS <= k
  {
    match k
    case 2 => UnwrapInto(d.unwrap, seg, dir, sample, cfg).1
    case 3 => if cfg.collectInFlight then InFlightPoints(d.metrics, seg.ts) else []
    case 4 => SmoothInto(d.srtt, sample, cfg).1
    case _ => if cfg.collectThroughput then ThroughputPoints(d.metrics, seg.ts, cfg.throughputWindow) else []
  }

  lemma {:induction false} OfTag(xs: seq<Sample>, k: Kind, j: Kind)
    ensures Of(Tag(k, xs), j) == if j == k then xs else []
  {
    if |xs| > 0 {
      var pre, x := xs[..|xs| - 1], xs[|xs| - 1];
      OfTag(pre, k, j);
      assert Tag(k, xs)[..|pre|] == Tag(k, pre) && Tag(k, xs)[|pre|] == Tagged(k, x);
      assert Of(Tag(k, xs), j) == Of(Tag(k, pre), j) + if j == k then [x] else [];
      assert xs == pre + [x];
    }
  }

  lemma OfFourConcat(a: seq<Tagged>, b: seq<Tagged>, c: seq<Tagged>, e: seq<Tagged>, k: Kind)
    ensures Of(a + b + c + e, k) == Of(a, k) + Of(b, k) + Of(c, k) + Of(e, k)
  {
    StateSeries.OfConcat(a + b + c, e, k);
    StateSeries.OfConcat(a + b, c, k);
    StateSeries.OfConcat(a, b, k);
  }

  lemma OnlyOne(xs: seq<Sample>)
    ensures xs + [] == xs && [] + xs == xs
  {}

  lemma OfFour(a: seq<Sample>, b: seq<Sample>, c: seq<Sample>, e: seq<Sample>, k: Kind)
    requires SEQPOINTS <= k
    ensures Of(Tag(SEQPOINTS, a) + Tag(INFLIGHT, b) + Tag(RTTS, c) + Tag(THROUGHPUT, e), k) ==
            if k == SEQPOINTS then a else if k == INFLIGHT then b else if k == RTTS then c else e
  {
    OfFourConcat(Tag(SEQPOINTS, a), Tag(INFLIGHT, b), Tag(RTTS, c), Tag(THROUGHPUT, e), k);
    OfTag(a, SEQPOINTS, k);
    OfTag(b, INFLIGHT, k);
    OfTag(c, RTTS, k);
    OfTag(e, THROUGHPUT, k);
    OnlyOne(if k == SEQPOINTS then a else if k == INFLIGHT then b else if k == RTTS then c else e);
  }

  lemma DetailParts(d: Deriv, seg: Segment, dir: Direction, sample: Sample, cfg: Config, k: Kind)
    requires sample.MetricSample? && SEQPOINTS <= k
    ensures Of(DetailSamples(d, seg, dir, sample, cfg), k) == Part(d, seg, dir, sample, cfg, k)
  {
    var b, e := Part(d, seg, dir, sample, cfg, INFLIGHT), Part(d, seg, dir, sample, cfg, THROUGHPUT);
    assert InFlightPart(d.metrics, seg.ts, cfg) == Tag(INFLIGHT, b);
    assert ThroughputPart(d.metrics, seg.ts, cfg) == Tag(THROUGHPUT, e);
    OfFour(UnwrapInto(d.unwrap, seg, dir, sample, cfg).1, b, SmoothInto(d.srtt, sample, cfg).1, e, k);
  }

  lemma OfAtMostOne(xs: seq<Tagged>, k: Kind)
    requires |xs| <= 1 && forall i | 0 <= i < |xs| :: xs[i].kind != k
    ensures Of(xs, k) == []
  {
    assert |xs| == 1 ==> xs[..0] == [];
  }

  lemma DerivedParts(d: Deriv, id: ConnId, o: Obs, cfg: Config, k: Kind)
    requires SEQPOINTS <= k && cfg.WantsMetrics(id)
    ensures Of(Derived(d, id, o.seg, o.dir, cfg), k) ==
            Part(d.(metrics := ObserveState(d.metrics, o.seg, o.dir, cfg)), o.seg, o.dir,
                 ObserveSample(d.metrics, o.seg, o.dir, cfg), cfg, k)
  {
    var sample := ObserveSample(d.metrics, o.seg, o.dir, cfg);
    var d' := d.(metrics := ObserveState(d.metrics, o.seg, o.dir, cfg));
    DetailParts(d', o.seg, o.dir, sample, cfg, k);
    OfAtMostOne(SeriesPart(id, sample, cfg), k);
    StateSeries.OfConcat(SeriesPart(id, sample, cfg), DetailSamples(d', o.seg, o.dir, sample, cfg), k);
  }

  lemma WithoutState(derived: seq<Tagged>, l: Life, t: u64, cfg: Config, k: Kind)
    requires k != STATES
    ensures Of(derived + StatePart(l, t, cfg), k) == Of(derived, k)
    ensures Of(StatePart(l, t, cfg) + derived, k) == Of(derived, k)
  {
    var state := StatePart(l, t, cfg);
    OfAtMostOne(state, k);
    StateSeries.OfConcat(derived, state, k);
    StateSeries.OfConcat(state, derived, k);
  }

  /** An instance's series before its last segment. */
  ghost function BeforeLastHist(id: ConnId, log: Log, cfg: Config): Hist
    requires |log| > 0
  {
    if |log| == 1 then NO_HIST else HistRun(id, log[..|log| - 1], cfg)
  }

  lemma YieldedAt(id: ConnId, log: Log, cfg: Config, k: Kind)
    requires |log| > 0 && SEQPOINTS <= k
    ensures Of(Yield(id, log, cfg), k) == Added(id, log, cfg, k)
  {
    var d, o := BeforeLastDeriv(id, log, cfg), LastObs(id, log);
    if cfg.WantsMetrics(id) {
      DerivedParts(d, id, o, cfg, k);
    }
    WithoutState(Derived(d, id, o.seg, o.dir, cfg), LifeRun(id, log), o.seg.ts, cfg, k);
  }

  /** Each detail series grows, segment by segment, by that segment's part and nothing else. */
  lemma HistStep(id: ConnId, log: Log, cfg: Config, k: Kind)
    requires |log| > 0 && SEQPOINTS <= k
    ensures HistRun(id, log, cfg)[k] ==
            BeforeLastHist(id, log, cfg)[k] + Added(id, log, cfg, k)
  {
    YieldedAt(id, log, cfg, k);
    AppendedAt(BeforeLastHist(id, log, cfg), Yield(id, log, cfg), k);
  }

  lemma AppendedAt(h: Hist, xs: seq<Tagged>, k: Kind)
    ensures AppendAll(h, xs)[k] == h[k] + Of(xs, k)
  {}

  // ------------------------------------------------------------ the sequence series

  lemma {:induction false} RecordedArePoints(id: ConnId, log: Log, cfg: Config)
    requires |log| > 0 && cfg.collectSeq
    ensures HistRun(id, log, cfg)[SEQPOINTS] == Points(id, log, cfg)
  {
    if |log| > 1 {
      RecordedArePoints(id, log[..|log| - 1], cfg);
    }
    HistStep(id, log, cfg, SEQPOINTS);
  }

  /** The recorded Time/Sequence series is true to the stream: where the positions fed in one
      direction each lie within reach of the furthest before, its points in that direction
      are, one for one and in order, those positions' distances from the first, however often
      the 32-bit space wraps. */
  lemma RecordedPointsAreTrue(cfg: Config, items: seq<Item>, i: nat, d: Direction, ps: seq<int>)
    requires cfg.retention.FailFast? && cfg.collectSeq && !Run(cfg, items).overflowed
    requires i < |Run(cfg, items).conns| && |Logs(cfg, items)[i]| > 0
    requires Positions(ps, Fed(Observations(Run(cfg, items).conns[i].life.ident.id, Logs(cfg, items)[i]), d))
    requires |ps| > 0 && WithinReach(ps)
    ensures Rels(Run(cfg, items).conns[i].hist[SEQPOINTS], d) == Distances(ps)
  {
    SeriesAreFolds(cfg, items);
    RecordedArePoints(Run(cfg, items).conns[i].life.ident.id, Logs(cfg, items)[i], cfg);
    TrackedPointsAreTrue(cfg, items, i, d, ps);
  }
}
