/** What the smoothing and the unwrapping come to over a tracked connection's whole run: the
    smoothed round-trip time is the average of what the connection measured, and every
    sequence point lies at its true distance from the first. */
module DerivedSeries {
  import opened Core
  import opened Serial
  import opened MetricSpec
  import opened Unwrap
  import opened Srtt
  import opened TrackerSpec
  import opened Recording
  import opened Attribution

  // ------------------------------------------------------------------- smoothing

  /** The round-trip time a sample reports for a send in direction `m`, if it does. */
  function RttFor(sample: Sample, m: Direction): seq<u64>
    requires sample.MetricSample?
  {
    if sample.dir.Opposite() == m && sample.rtt.Some? then [sample.rtt.value] else []
  }

  /** The round-trip times measured so far for sends in direction `m`, in order. */
  function Measured(obs: seq<Obs>, m: Direction, cfg: Config): seq<u64> {
    if |obs| == 0 then []
    else
      var pre, o := obs[..|obs| - 1], obs[|obs| - 1];
      Measured(pre, m, cfg) + RttFor(ObserveSample(MetricRun(pre, cfg), o.seg, o.dir, cfg), m)
  }

  function Average(rtts: seq<u64>): Option<u64> { if rtts == [] then None else Some(Smoothed(rtts)) }

  lemma AverageStep(rtts: seq<u64>, r: u64)
    ensures Average(rtts + [r]) == Some(Smooth(Average(rtts), r))
  {
    assert (rtts + [r])[..|rtts|] == rtts;
  }

  lemma SmoothStep(srtt: PerDir<Option<u64>>, rtts: seq<u64>, sample: Sample, m: Direction, cfg: Config)
    requires cfg.collectRtt && sample.MetricSample? && srtt.Get(m) == Average(rtts)
    ensures SmoothInto(srtt, sample, cfg).0.Get(m) == Average(rtts + RttFor(sample, m))
  {
    if RttFor(sample, m) == [] {
      assert rtts + [] == rtts;
    } else {
      AverageStep(rtts, sample.rtt.value);
    }
  }

  lemma MeasuredStep(obs: seq<Obs>, o: Obs, m: Direction, cfg: Config)
    ensures Measured(obs + [o], m, cfg) ==
            Measured(obs, m, cfg) + RttFor(ObserveSample(MetricRun(obs, cfg), o.seg, o.dir, cfg), m)
  {
    assert (obs + [o])[..|obs|] == obs;
  }

  /** The smoothing and unwrapping parts of one derivation step. */
  lemma NextDerivParts(d: Deriv, id: ConnId, o: Obs, cfg: Config)
    requires cfg.WantsMetrics(id)
    ensures var sample, next := ObserveSample(d.metrics, o.seg, o.dir, cfg), NextDeriv(d, id, o.seg, o.dir, cfg);
            && next.srtt == SmoothInto(d.srtt, sample, cfg).0
            && next.unwrap == UnwrapInto(d.unwrap, o.seg, o.dir, sample, cfg).0
  {}

  /** An instance's derived state before its last segment. */
  function BeforeLastDeriv(id: ConnId, log: Log, cfg: Config): Deriv
    requires |log| > 0
  {
    if |log| == 1 then NO_DERIV else DerivRun(id, log[..|log| - 1], cfg)
  }

  lemma LastDerivation(id: ConnId, log: Log, cfg: Config)
    requires |log| > 0 && cfg.WantsMetrics(id)
    ensures BeforeLastDeriv(id, log, cfg).metrics == MetricRun(BeforeLastObs(id, log), cfg)
  {
    if |log| > 1 {
      DerivedMetricsAreRun(id, log[..|log| - 1], cfg);
    }
  }

  lemma LastStep(id: ConnId, log: Log, cfg: Config)
    requires |log| > 0
    ensures var o := LastObs(id, log);
            DerivRun(id, log, cfg) == NextDeriv(BeforeLastDeriv(id, log, cfg), id, o.seg, o.dir, cfg)
  {}

  lemma {:induction false} SmoothedIsAverage(id: ConnId, log: Log, m: Direction, cfg: Config)
    requires |log| > 0 && cfg.collectRtt
    ensures DerivRun(id, log, cfg).srtt.Get(m) == Average(Measured(Observations(id, log), m, cfg))
  {
    var n := |log| - 1;
    if n > 0 {
      SmoothedIsAverage(id, log[..n], m, cfg);
    }
    LastStep(id, log, cfg);
    LastObservation(id, log);
    LastDerivation(id, log, cfg);
    var obs, o, d := BeforeLastObs(id, log), LastObs(id, log), BeforeLastDeriv(id, log, cfg);
    NextDerivParts(d, id, o, cfg);
    MeasuredStep(obs, o, m, cfg);
    SmoothStep(d.srtt, Measured(obs, m, cfg), ObserveSample(d.metrics, o.seg, o.dir, cfg), m, cfg);
  }

  /** In every reachable tracker that has not failed, each connection's smoothed time exists
      once something was measured, and is then at most seven nanoseconds below the exact
      average of section 2 of RFC 6298 over everything measured. */
  lemma TrackedSrttIsAverage(cfg: Config, items: seq<Item>, i: nat, m: Direction)
    requires cfg.collectRtt && !Run(cfg, items).overflowed && i < |Run(cfg, items).conns|
    ensures |Logs(cfg, items)[i]| > 0
    ensures var c := Run(cfg, items).conns[i];
            var rtts := Measured(Observations(c.life.ident.id, Logs(cfg, items)[i]), m, cfg);
            var srtt := c.deriv.srtt.Get(m);
            if rtts == [] then srtt.None?
            else srtt.Some? && srtt.value as real <= Ewma(rtts) < srtt.value as real + 7.0
  {
    DerivedAreFolds(cfg, items);
    var id, log := Run(cfg, items).conns[i].life.ident.id, Logs(cfg, items)[i];
    SmoothedIsAverage(id, log, m, cfg);
    var rtts := Measured(Observations(id, log), m, cfg);
    if rtts != [] {
      TracksExactAverage(rtts);
    }
  }

  // ------------------------------------------------------------------ unwrapping

  /** The sequence numbers a segment feeds to the unwrapping of direction `d`: its own when it
      carries data that way, its SACK edges when it acknowledges that way. */
  function FedBy(o: Obs, d: Direction): seq<u32> {
    if o.dir == d then (if o.seg.IsData() then [o.seg.seqNo] else []) else o.seg.sackLefts
  }

  function Fed(obs: seq<Obs>, d: Direction): seq<u32> {
    if |obs| == 0 then [] else Fed(obs[..|obs| - 1], d) + FedBy(obs[|obs| - 1], d)
  }

  /** The offset each of `vals` unwraps to, in order. */
  function Offsets(vals: seq<int>): (r: seq<int>)
    ensures |r| == |vals|
  {
    if |vals| == 0 then [] else Offsets(vals[..|vals| - 1]) + [OffsetRun(vals).1]
  }

  function Rels(points: seq<Sample>, d: Direction): seq<int> {
    if |points| == 0 then []
    else
      var x := points[|points| - 1];
      Rels(points[..|points| - 1], d) + if x.SeqSample? && x.dir == d then [x.rel] else []
  }

  /** All sequence points of an instance, in the order they are made. */
  function Points(id: ConnId, log: Log, cfg: Config): seq<Sample>
    requires |log| > 0
  {
    var d, o := BeforeLastDeriv(id, log, cfg), LastObs(id, log);
    (if |log| == 1 then [] else Points(id, log[..|log| - 1], cfg))
    + UnwrapInto(d.unwrap, o.seg, o.dir, ObserveSample(d.metrics, o.seg, o.dir, cfg), cfg).1
  }

  lemma OffsetsStep(vals: seq<u32>, v: u32)
    ensures OffsetRun(vals + [v]) == Offset(OffsetRun(vals).0, v)
    ensures Offsets(vals + [v]) == Offsets(vals) + [OffsetRun(vals + [v]).1]
  {
    assert (vals + [v])[..|vals|] == vals;
    assert Wrap(v) == v;
  }

  lemma {:induction false} RelsConcat(a: seq<Sample>, b: seq<Sample>, d: Direction)
    ensures Rels(a + b, d) == Rels(a, d) + Rels(b, d)
  {
    if |b| == 0 {
      assert a + b == a;
    } else {
      assert (a + b)[..|a + b| - 1] == a + b[..|b| - 1];
      RelsConcat(a, b[..|b| - 1], d);
    }
  }

  lemma RelsStep(a: seq<Sample>, x: Sample, d: Direction)
    ensures Rels(a + [x], d) == Rels(a, d) + if x.SeqSample? && x.dir == d then [x.rel] else []
  {
    assert (a + [x])[..|a|] == a;
  }

  /** `points`, all of direction `d`, are where `vals` unwrap to after `from`. */
  ghost predicate Unwrapped(from: seq<u32>, vals: seq<u32>, points: seq<Sample>, d: Direction) {
    && Offsets(from + vals) == Offsets(from) + Rels(points, d)
    && Rels(points, d.Opposite()) == []
  }

  lemma UnwrapOneMore(from: seq<u32>, vals: seq<u32>, points: seq<Sample>, v: u32, p: Sample)
    requires p.SeqSample? && p.rel == OffsetRun(from + vals + [v]).1 && Unwrapped(from, vals, points, p.dir)
    ensures Unwrapped(from, vals + [v], points + [p], p.dir)
  {
    var d, fed := p.dir, from + vals;
    assert from + (vals + [v]) == fed + [v];
    OffsetsStep(fed, v);
    RelsStep(points, p, d);
    RelsStep(points, p, d.Opposite());
    assert Offsets(from) + (Rels(points, d) + [p.rel]) == (Offsets(from) + Rels(points, d)) + [p.rel];
  }

  lemma UnwrapNothing(from: seq<u32>, d: Direction)
    ensures from + [] == from && Unwrapped(from, [], [], d)
  {
    assert from + [] == from;
  }

  lemma {:induction false} SackPointsUnwrap(from: seq<u32>, lefts: seq<u32>, t: u64, acked: Direction)
    ensures var (f, points) := SackPoints(OffsetRun(from).0, lefts, t, acked);
            f == OffsetRun(from + lefts).0 && Unwrapped(from, lefts, points, acked)
  {
    if |lefts| == 0 {
      UnwrapNothing(from, acked);
      assert lefts == [];
    } else {
      var pre, x := lefts[..|lefts| - 1], lefts[|lefts| - 1];
      SackPointsUnwrap(from, pre, t, acked);
      SackStep(from, pre, x, t, acked);
      assert lefts == pre + [x];
    }
  }

  lemma SackStep(from: seq<u32>, pre: seq<u32>, x: u32, t: u64, acked: Direction)
    requires var (f, points) := SackPoints(OffsetRun(from).0, pre, t, acked);
             f == OffsetRun(from + pre).0 && Unwrapped(from, pre, points, acked)
    ensures var (f, points) := SackPoints(OffsetRun(from).0, pre + [x], t, acked);
            f == OffsetRun(from + (pre + [x])).0 && Unwrapped(from, pre + [x], points, acked)
  {
    assert (pre + [x])[..|pre|] == pre;
    assert from + (pre + [x]) == (from + pre) + [x];
    OffsetsStep(from + pre, x);
    var (g, points) := SackPoints(OffsetRun(from).0, pre, t, acked);
    UnwrapOneMore(from, pre, points, x, SeqSample(t, acked, Offset(g, x).1, 0, Sack));
  }

  lemma DataPointUnwraps(f: Option<Frontier>, own: seq<u32>, seg: Segment, d: Direction, kind: SeqKind)
    requires f == OffsetRun(own).0
    ensures OffsetRun(own + [seg.seqNo]).0 == Offset(f, seg.seqNo).0
    ensures Unwrapped(own, [seg.seqNo], [SeqSample(seg.ts, d, Offset(f, seg.seqNo).1, seg.payloadLen, kind)], d)
  {
    UnwrapNothing(own, d);
    OffsetsStep(own, seg.seqNo);
    var p := SeqSample(seg.ts, d, Offset(f, seg.seqNo).1, seg.payloadLen, kind);
    UnwrapOneMore(own, [], [], seg.seqNo, p);
    assert [] + [p] == [p] && [] + [seg.seqNo] == [seg.seqNo];
  }

  lemma SegmentUnwraps(u: PerDir<Option<Frontier>>, own: seq<u32>, other: seq<u32>, o: Obs,
                       retransmit: bool, outOfOrder: bool)
    requires u.Get(o.dir) == OffsetRun(own).0 && u.Get(o.dir.Opposite()) == OffsetRun(other).0
    ensures var (v, points) := SeqPoints(u, o.seg, o.dir, retransmit, outOfOrder);
            && v.Get(o.dir) == OffsetRun(own + FedBy(o, o.dir)).0
            && v.Get(o.dir.Opposite()) == OffsetRun(other + FedBy(o, o.dir.Opposite())).0
            && Offsets(own + FedBy(o, o.dir)) == Offsets(own) + Rels(points, o.dir)
            && Offsets(other + FedBy(o, o.dir.Opposite())) == Offsets(other) + Rels(points, o.dir.Opposite())
  {
    var acked := o.dir.Opposite();
    assert acked.Opposite() == o.dir;
    SackPointsUnwrap(other, o.seg.sackLefts, o.seg.ts, acked);
    var sacks := SackPoints(OffsetRun(other).0, o.seg.sackLefts, o.seg.ts, acked).1;
    var kind := Data(retransmit, outOfOrder);
    DataPointUnwraps(u.Get(o.dir), own, o.seg, o.dir, kind);
    UnwrapNothing(own, o.dir);
    var data := if o.seg.IsData()
                then [SeqSample(o.seg.ts, o.dir, Offset(u.Get(o.dir), o.seg.seqNo).1, o.seg.payloadLen, kind)] else [];
    JoinPoints(data, sacks, o.dir);
  }

  lemma JoinPoints(data: seq<Sample>, sacks: seq<Sample>, d: Direction)
    requires Rels(data, d.Opposite()) == [] && Rels(sacks, d) == []
    ensures Rels(data + sacks, d) == Rels(data, d) && Rels(data + sacks, d.Opposite()) == Rels(sacks, d.Opposite())
  {
    RelsConcat(data, sacks, d);
    RelsConcat(data, sacks, d.Opposite());
  }

  ghost predicate UnwrapsTo(u: PerDir<Option<Frontier>>, points: seq<Sample>, obs: seq<Obs>) {
    forall d: Direction :: u.Get(d) == OffsetRun(Fed(obs, d)).0 && Rels(points, d) == Offsets(Fed(obs, d))
  }

  lemma FedStep(obs: seq<Obs>, o: Obs, d: Direction)
    ensures Fed(obs + [o], d) == Fed(obs, d) + FedBy(o, d)
  {
    assert (obs + [o])[..|obs|] == obs;
  }

  lemma UnwrapStep(u: PerDir<Option<Frontier>>, points: seq<Sample>, obs: seq<Obs>, o: Obs, sample: Sample,
                   cfg: Config)
    requires cfg.collectSeq && sample.MetricSample? && UnwrapsTo(u, points, obs)
    ensures var (v, more) := UnwrapInto(u, o.seg, o.dir, sample, cfg);
            UnwrapsTo(v, points + more, obs + [o])
  {
    var own, other := o.dir, o.dir.Opposite();
    SegmentUnwraps(u, Fed(obs, own), Fed(obs, other), o, sample.retransmit, sample.outOfOrder);
    var (v, more) := SeqPoints(u, o.seg, o.dir, sample.retransmit, sample.outOfOrder);
    forall d: Direction
      ensures v.Get(d) == OffsetRun(Fed(obs + [o], d)).0 && Rels(points + more, d) == Offsets(Fed(obs + [o], d))
    {
      assert d == own || d == other;
      UnwrapStepOf(v, points, more, obs, o, d);
    }
  }

  lemma UnwrapStepOf(v: PerDir<Option<Frontier>>, points: seq<Sample>, more: seq<Sample>, obs: seq<Obs>, o: Obs,
                     d: Direction)
    requires Rels(points, d) == Offsets(Fed(obs, d))
    requires v.Get(d) == OffsetRun(Fed(obs, d) + FedBy(o, d)).0
    requires Offsets(Fed(obs, d) + FedBy(o, d)) == Offsets(Fed(obs, d)) + Rels(more, d)
    ensures v.Get(d) == OffsetRun(Fed(obs + [o], d)).0 && Rels(points + more, d) == Offsets(Fed(obs + [o], d))
  {
    FedStep(obs, o, d);
    RelsConcat(points, more, d);
  }

  lemma {:induction false} DerivedUnwraps(id: ConnId, log: Log, cfg: Config)
    requires |log| > 0 && cfg.collectSeq
    ensures UnwrapsTo(DerivRun(id, log, cfg).unwrap, Points(id, log, cfg), Observations(id, log))
  {
    var n := |log| - 1;
    if n > 0 {
      DerivedUnwraps(id, log[..n], cfg);
    }
    LastStep(id, log, cfg);
    LastObservation(id, log);
    var obs, o, d := BeforeLastObs(id, log), LastObs(id, log), BeforeLastDeriv(id, log, cfg);
    NextDerivParts(d, id, o, cfg);
    var points := if n == 0 then [] else Points(id, log[..n], cfg);
    UnwrapStep(d.unwrap, points, obs, o, ObserveSample(d.metrics, o.seg, o.dir, cfg), cfg);
  }

  /** `ps` are true positions behind the wrapped values `vals`. */
  ghost predicate Positions(ps: seq<int>, vals: seq<u32>) {
    |ps| == |vals| && forall i | 0 <= i < |ps| :: Wrap(ps[i]) == vals[i]
  }

  lemma {:induction false} WrappingHidesNothing(ps: seq<int>, vals: seq<u32>)
    requires Positions(ps, vals)
    ensures OffsetRun(vals) == OffsetRun(ps)
  {
    if |ps| > 0 {
      var n := |ps| - 1;
      WrappingHidesNothing(ps[..n], vals[..n]);
      assert Wrap(vals[n]) == vals[n];
    }
  }

  function Distances(ps: seq<int>): seq<int> {
    seq(|ps|, k requires 0 <= k < |ps| => ps[k] - ps[0])
  }

  lemma DistancesStep(ps: seq<int>)
    requires |ps| > 0
    ensures Distances(ps) == Distances(ps[..|ps| - 1]) + [ps[|ps| - 1] - ps[0]]
  {}

  lemma {:induction false} OffsetsArePositions(ps: seq<int>, vals: seq<u32>)
    requires Positions(ps, vals) && (|ps| > 0 ==> WithinReach(ps))
    ensures Offsets(vals) == Distances(ps)
  {
    if |ps| > 0 {
      var n := |ps| - 1;
      OffsetsArePositions(ps[..n], vals[..n]);
      WrappingHidesNothing(ps, vals);
      UnwrapInvertsWrap(ps);
      DistancesStep(ps);
    }
  }

  /** If the positions behind what a tracked connection's segments feed in one direction each
      lie within reach of the furthest before, every point made for it, data and SACK alike,
      is at its true distance from the first, however often the space wraps. */
  lemma TrackedPointsAreTrue(cfg: Config, items: seq<Item>, i: nat, d: Direction, ps: seq<int>)
    requires cfg.collectSeq && !Run(cfg, items).overflowed && i < |Run(cfg, items).conns|
    requires |Logs(cfg, items)[i]| > 0
    requires Positions(ps, Fed(Observations(Run(cfg, items).conns[i].life.ident.id, Logs(cfg, items)[i]), d))
    requires |ps| > 0 && WithinReach(ps)
    ensures var c := Run(cfg, items).conns[i];
            && c.deriv.unwrap.Get(d) == Some(Frontier(Wrap(Top(ps)), Top(ps) - ps[0]))
            && Rels(Points(c.life.ident.id, Logs(cfg, items)[i], cfg), d) == Distances(ps)
  {
    DerivedAreFolds(cfg, items);
    var id, log := Run(cfg, items).conns[i].life.ident.id, Logs(cfg, items)[i];
    DerivedUnwraps(id, log, cfg);
    OffsetsArePositions(ps, Fed(Observations(id, log), d));
    WrappingHidesNothing(ps, Fed(Observations(id, log), d));
    UnwrapInvertsWrap(ps);
  }
}
