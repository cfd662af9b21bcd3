/** The normal form of one segment: as long as collection has not failed, a segment first
    places itself (identity, lifecycle, derived metrics) and only then records a list of
    samples, so derivation never depends on what retention kept. */
module Recording {
  import opened Core
  import opened MetricSpec
  import opened Unwrap
  import opened Srtt
  import opened Lifecycle
  import opened TrackerSpec

  // ---------------------------------------------------------- derivation alone

  function UnwrapInto(u: PerDir<Option<Frontier>>, seg: Segment, dir: Direction, sample: Sample, cfg: Config)
    : (PerDir<Option<Frontier>>, seq<Sample>)
    requires sample.MetricSample?
  {
    if cfg.collectSeq then SeqPoints(u, seg, dir, sample.retransmit, sample.outOfOrder) else (u, [])
  }

  function SmoothInto(srtt: PerDir<Option<u64>>, sample: Sample, cfg: Config): (PerDir<Option<u64>>, seq<Sample>)
    requires sample.MetricSample?
  {
    if cfg.collectRtt && sample.rtt.Some? then
      var m := sample.dir.Opposite();
      var v := Smooth(srtt.Get(m), sample.rtt.value);
      (srtt.Set(m, Some(v)), [RttSample(sample.t, m, sample.rtt.value, v)])
    else (srtt, [])
  }

  function InFlightPart(m: PerDir<DirState>, t: u64, cfg: Config): seq<Tagged> {
    if cfg.collectInFlight then Tag(INFLIGHT, InFlightPoints(m, t)) else []
  }

  function ThroughputPart(m: PerDir<DirState>, t: u64, cfg: Config): seq<Tagged> {
    if cfg.collectThroughput then Tag(THROUGHPUT, ThroughputPoints(m, t, cfg.throughputWindow)) else []
  }

  /** What a tick samples of a connection: a rate and an in-flight reading for each direction
      that has one. */
  function DecayPart(m: PerDir<DirState>, t: u64, cfg: Config): seq<Tagged> {
    ThroughputPart(m, t, cfg) + InFlightPart(m, t, cfg)
  }

  /** How many samples a tick at `t` takes of the first `n` connections, the idle ones none. */
  function DecayCount(s: TState, t: u64, n: nat): nat
    requires n <= |s.conns|
  {
    if n == 0 then 0
    else
      var c := s.conns[n - 1];
      DecayCount(s, t, n - 1) +
      if SatSub(t, c.life.traffic.lastAt) > s.cfg.deadAfter then 0 else |DecayPart(c.deriv.metrics, t, s.cfg)|
  }

  function SeriesPart(id: ConnId, sample: Sample, cfg: Config): seq<Tagged> {
    if cfg.ShouldCollect(id) then [Tagged(SERIES, sample)] else []
  }

  function DetailDeriv(d: Deriv, seg: Segment, dir: Direction, sample: Sample, cfg: Config): Deriv
    requires sample.MetricSample?
  {
    d.(unwrap := UnwrapInto(d.unwrap, seg, dir, sample, cfg).0, srtt := SmoothInto(d.srtt, sample, cfg).0)
  }

  function DetailSamples(d: Deriv, seg: Segment, dir: Direction, sample: Sample, cfg: Config): seq<Tagged>
    requires sample.MetricSample?
  {
    Tag(SEQPOINTS, UnwrapInto(d.unwrap, seg, dir, sample, cfg).1) + InFlightPart(d.metrics, seg.ts, cfg)
    + Tag(RTTS, SmoothInto(d.srtt, sample, cfg).1) + ThroughputPart(d.metrics, seg.ts, cfg)
  }

  /** The derived state after a segment, retention aside. */
  function NextDeriv(d: Deriv, id: ConnId, seg: Segment, dir: Direction, cfg: Config): Deriv {
    if !cfg.WantsMetrics(id) then d
    else
      DetailDeriv(d.(metrics := ObserveState(d.metrics, seg, dir, cfg)), seg, dir,
                  ObserveSample(d.metrics, seg, dir, cfg), cfg)
  }

  /** The samples a segment produces, in the order they are recorded. */
  function Derived(d: Deriv, id: ConnId, seg: Segment, dir: Direction, cfg: Config): seq<Tagged> {
    if !cfg.WantsMetrics(id) then []
    else
      var sample := ObserveSample(d.metrics, seg, dir, cfg);
      SeriesPart(id, sample, cfg)
      + DetailSamples(d.(metrics := ObserveState(d.metrics, seg, dir, cfg)), seg, dir, sample, cfg)
  }

  function StatePart(l: Life, t: u64, cfg: Config): seq<Tagged> {
    if cfg.collectState then [Tagged(STATES, l.Snapshot(t))] else []
  }

  // ------------------------------------------------------------ the normal form

  /** The connection a segment belongs to: the live instance, or a new last one. */
  function Target(s: TState, seg: Segment): (idx: nat)
    requires s.WF()
    ensures idx < |Placed(s, seg).conns|
  {
    if Joins(s, seg) then s.live[seg.Pair()] else |s.conns|
  }

  function PlacedJoin(s: TState, idx: nat, seg: Segment): (r: TState)
    requires idx < |s.conns|
  {
    var c := s.conns[idx];
    var l := c.life.Join(seg);
    s.(conns := s.conns[idx := c.(life := l, deriv := NextDeriv(c.deriv, l.ident.id, seg,
                                                                 l.ident.DirectionOf(seg.src), s.cfg))])
  }

  function PlacedOpen(s: TState, seg: Segment): (r: TState) {
    var o := Opened(s, seg);
    var l := o.conns[|s.conns|].life;
    SetDeriv(o, |s.conns|, NextDeriv(NO_DERIV, l.ident.id, seg, l.ident.DirectionOf(seg.src), s.cfg))
  }

  function ProducedJoin(s: TState, idx: nat, seg: Segment): seq<Tagged>
    requires idx < |s.conns|
  {
    var l := s.conns[idx].life.Join(seg);
    StatePart(l, seg.ts, s.cfg)
    + Derived(s.conns[idx].deriv, l.ident.id, seg, l.ident.DirectionOf(seg.src), s.cfg)
  }

  function ProducedOpen(s: TState, seg: Segment): seq<Tagged> {
    var l := Opened(s, seg).conns[|s.conns|].life;
    Derived(NO_DERIV, l.ident.id, seg, l.ident.DirectionOf(seg.src), s.cfg) + StatePart(l, seg.ts, s.cfg)
  }

  /** The tracker with the segment placed but nothing recorded. */
  function Placed(s: TState, seg: Segment): (r: TState)
    requires s.WF()
  {
    if Joins(s, seg) then PlacedJoin(s, s.live[seg.Pair()], seg) else PlacedOpen(s, seg)
  }

  function Produced(s: TState, seg: Segment): seq<Tagged>
    requires s.WF()
  {
    if Joins(s, seg) then ProducedJoin(s, s.live[seg.Pair()], seg) else ProducedOpen(s, seg)
  }

  /** Placing records nothing. */
  lemma PlacedRecordsNothing(s: TState, seg: Segment)
    requires s.WF()
    ensures var p := Placed(s, seg);
            && p.cfg == s.cfg && p.now == s.now && p.collected == s.collected && p.overflowed == s.overflowed
            && |p.conns| == Max(|s.conns|, Target(s, seg) + 1)
            && forall i | 0 <= i < |p.conns| ::
                 p.conns[i].hist == if i < |s.conns| then s.conns[i].hist else NO_HIST
  {
  }

  // ------------------------------------------------------------- about pushing

  lemma {:induction false} FailedPushesNothing(s: TState, idx: nat, xs: seq<Tagged>)
    requires idx < |s.conns| && s.overflowed
    ensures PushAll(s, idx, xs) == s
  {
    if |xs| > 0 {
      FailedPushesNothing(s, idx, xs[..|xs| - 1]);
    }
  }

  lemma {:induction false} PushAllConcat(s: TState, idx: nat, xs: seq<Tagged>, ys: seq<Tagged>)
    requires idx < |s.conns|
    ensures PushAll(s, idx, xs + ys) == PushAll(PushAll(s, idx, xs), idx, ys)
  {
    if |ys| == 0 {
      assert xs + ys == xs;
    } else {
      assert (xs + ys)[..|xs + ys| - 1] == xs + ys[..|ys| - 1];
      PushAllConcat(s, idx, xs, ys[..|ys| - 1]);
    }
  }

  lemma PushOne(s: TState, idx: nat, x: Tagged)
    requires idx < |s.conns|
    ensures PushAll(s, idx, [x]) == Push(s, idx, x)
  {
    assert [x][..0] == [];
  }

  lemma PushThenSetDeriv(s: TState, idx: nat, x: Tagged, d: Deriv)
    requires idx < |s.conns|
    ensures SetDeriv(Push(s, idx, x), idx, d) == Push(SetDeriv(s, idx, d), idx, x)
  {
  }

  lemma {:induction false} PushAllThenSetDeriv(s: TState, idx: nat, xs: seq<Tagged>, d: Deriv)
    requires idx < |s.conns|
    ensures SetDeriv(PushAll(s, idx, xs), idx, d) == PushAll(SetDeriv(s, idx, d), idx, xs)
  {
    if |xs| > 0 {
      PushAllThenSetDeriv(s, idx, xs[..|xs| - 1], d);
      PushThenSetDeriv(PushAll(s, idx, xs[..|xs| - 1]), idx, xs[|xs| - 1], d);
    }
  }

  /** `s` after taking on derived state `d` and then recording `xs`. */
  function Put(s: TState, idx: nat, d: Deriv, xs: seq<Tagged>): TState
    requires idx < |s.conns|
  {
    PushAll(SetDeriv(s, idx, d), idx, xs)
  }

  /** Further derivation and recording after a `Put` is one bigger `Put`. */
  lemma PutPut(s: TState, idx: nat, d: Deriv, xs: seq<Tagged>, d': Deriv, ys: seq<Tagged>)
    requires idx < |s.conns|
    ensures Put(Put(s, idx, d, xs), idx, d', ys) == Put(s, idx, d', xs + ys)
  {
    PushAllThenSetDeriv(SetDeriv(s, idx, d), idx, xs, d');
    assert SetDeriv(SetDeriv(s, idx, d), idx, d') == SetDeriv(s, idx, d');
    PushAllConcat(SetDeriv(s, idx, d'), idx, xs, ys);
  }

  lemma PutKeepsFailure(s: TState, idx: nat, d: Deriv, xs: seq<Tagged>)
    requires idx < |s.conns|
    ensures s.overflowed ==> Put(s, idx, d, xs).overflowed
    ensures Put(s, idx, d, xs).conns[idx].deriv == d
  {
    if s.overflowed {
      FailedPushesNothing(SetDeriv(s, idx, d), idx, xs);
    }
  }

  /** A `Put` that fails makes every further one fail. */
  lemma PutPrefix(s: TState, idx: nat, d: Deriv, xs: seq<Tagged>, d': Deriv, ys: seq<Tagged>)
    requires idx < |s.conns|
    ensures s.overflowed ==> Put(s, idx, d, xs).overflowed
    ensures Put(s, idx, d, xs).overflowed ==> Put(s, idx, d', xs + ys).overflowed
  {
    PutKeepsFailure(s, idx, d, xs);
    PutPut(s, idx, d, xs, d', ys);
    PutKeepsFailure(Put(s, idx, d, xs), idx, d', ys);
  }

  // each collecting stage is a Put of its own part, when it does not find or cause failure

  lemma CollectSeqIsPut(s: TState, idx: nat, seg: Segment, dir: Direction, sample: Sample)
    requires idx < |s.conns| && sample.MetricSample? && !s.overflowed
    ensures var d := s.conns[idx].deriv;
            var (u, points) := UnwrapInto(d.unwrap, seg, dir, sample, s.cfg);
            CollectSeq(s, idx, seg, dir, sample) == Put(s, idx, d.(unwrap := u), Tag(SEQPOINTS, points))
  {
    assert SetDeriv(s, idx, s.conns[idx].deriv) == s;
  }

  lemma CollectInFlightIsPut(s: TState, idx: nat, t: u64)
    requires idx < |s.conns| && !s.overflowed
    ensures var d := s.conns[idx].deriv;
            CollectInFlightAt(s, idx, t) == Put(s, idx, d, InFlightPart(d.metrics, t, s.cfg))
  {
    assert SetDeriv(s, idx, s.conns[idx].deriv) == s;
  }

  lemma CollectThroughputIsPut(s: TState, idx: nat, t: u64)
    requires idx < |s.conns| && !s.overflowed
    ensures var d := s.conns[idx].deriv;
            CollectThroughputAt(s, idx, t) == Put(s, idx, d, ThroughputPart(d.metrics, t, s.cfg))
  {
    assert SetDeriv(s, idx, s.conns[idx].deriv) == s;
  }

  lemma CollectRttIsPut(s: TState, idx: nat, sample: Sample)
    requires idx < |s.conns| && sample.MetricSample? && !s.overflowed
    ensures var d := s.conns[idx].deriv;
            var (v, points) := SmoothInto(d.srtt, sample, s.cfg);
            CollectRtt(s, idx, sample) == Put(s, idx, d.(srtt := v), Tag(RTTS, points))
  {
    var d := s.conns[idx].deriv;
    assert SetDeriv(s, idx, d) == s;
    if s.cfg.collectRtt && sample.rtt.Some? {
      var m := sample.dir.Opposite();
      var v := Smooth(d.srtt.Get(m), sample.rtt.value);
      var x := RttSample(sample.t, m, sample.rtt.value, v);
      PushOne(SetDeriv(s, idx, d.(srtt := d.srtt.Set(m, Some(v)))), idx, Tagged(RTTS, x));
      assert Tag(RTTS, [x]) == [Tagged(RTTS, x)];
    }
  }

  /** The detail series of one segment are one `Put`, when either does not fail. */
  lemma CollectDetailIsPut(s: TState, idx: nat, seg: Segment, dir: Direction, sample: Sample)
    requires idx < |s.conns| && sample.MetricSample?
    requires var d := s.conns[idx].deriv;
             !CollectDetail(s, idx, seg, dir, sample).overflowed ||
             !Put(s, idx, DetailDeriv(d, seg, dir, sample, s.cfg), DetailSamples(d, seg, dir, sample, s.cfg)).overflowed
    ensures var d := s.conns[idx].deriv;
            CollectDetail(s, idx, seg, dir, sample) ==
              Put(s, idx, DetailDeriv(d, seg, dir, sample, s.cfg), DetailSamples(d, seg, dir, sample, s.cfg))
  {
    var d := s.conns[idx].deriv;
    var (u, points) := UnwrapInto(d.unwrap, seg, dir, sample, s.cfg);
    var (v, rtts) := SmoothInto(d.srtt, sample, s.cfg);
    var d1, d3 := d.(unwrap := u), d.(unwrap := u, srtt := v);
    var x1, x2 := Tag(SEQPOINTS, points), InFlightPart(d.metrics, seg.ts, s.cfg);
    var x3, x4 := Tag(RTTS, rtts), ThroughputPart(d.metrics, seg.ts, s.cfg);
    PutPrefix(s, idx, d1, x1, d1, x2);
    PutPrefix(s, idx, d1, x1 + x2, d3, x3);
    PutPrefix(s, idx, d3, x1 + x2 + x3, d3, x4);
    CollectSeqIsPut(s, idx, seg, dir, sample);
    var s1 := CollectSeq(s, idx, seg, dir, sample);
    NextPart(s, idx, d1, x1, d1, x2);
    CollectInFlightIsPut(s1, idx, seg.ts);
    var s2 := CollectInFlightAt(s1, idx, seg.ts);
    NextPart(s, idx, d1, x1 + x2, d3, x3);
    CollectRttIsPut(s2, idx, sample);
    var s3 := CollectRtt(s2, idx, sample);
    NextPart(s, idx, d3, x1 + x2 + x3, d3, x4);
    CollectThroughputIsPut(s3, idx, seg.ts);
  }

  /** A `Put` on top of a `Put`, which holds what was learned. */
  lemma NextPart(s: TState, idx: nat, d: Deriv, xs: seq<Tagged>, d': Deriv, ys: seq<Tagged>)
    requires idx < |s.conns|
    ensures Put(s, idx, d, xs).conns[idx].deriv == d
    ensures Put(Put(s, idx, d, xs), idx, d', ys) == Put(s, idx, d', xs + ys)
  {
    PutKeepsFailure(s, idx, d, xs);
    PutPut(s, idx, d, xs, d', ys);
  }

  lemma RecordDerivedIsPut(s: TState, idx: nat, seg: Segment, dir: Direction, sample: Sample, m: PerDir<DirState>)
    requires idx < |s.conns| && sample.MetricSample?
    requires !RecordDerived(s, idx, seg, dir, sample, m).overflowed ||
             !DerivedPut(s, idx, seg, dir, sample, m).overflowed
    ensures RecordDerived(s, idx, seg, dir, sample, m) == DerivedPut(s, idx, seg, dir, sample, m)
  {
    var c := s.conns[idx];
    var d := c.deriv.(metrics := m);
    var x1 := SeriesPart(c.life.ident.id, sample, s.cfg);
    PushOne(SetDeriv(s, idx, d), idx, Tagged(SERIES, sample));
    NextPart(s, idx, d, x1, DetailDeriv(d, seg, dir, sample, s.cfg), DetailSamples(d, seg, dir, sample, s.cfg));
    CollectDetailIsPut(Put(s, idx, d, x1), idx, seg, dir, sample);
  }

  /** What recording a segment's derivation comes to: one `Put`. */
  function DerivedPut(s: TState, idx: nat, seg: Segment, dir: Direction, sample: Sample, m: PerDir<DirState>): TState
    requires idx < |s.conns| && sample.MetricSample?
  {
    var c := s.conns[idx];
    var d := c.deriv.(metrics := m);
    Put(s, idx, DetailDeriv(d, seg, dir, sample, s.cfg),
        SeriesPart(c.life.ident.id, sample, s.cfg) + DetailSamples(d, seg, dir, sample, s.cfg))
  }

  /** Deriving and recording one segment is one `Put`, when either does not fail. */
  lemma DeriveIsPut(s: TState, idx: nat, seg: Segment, dir: Direction)
    requires idx < |s.conns|
    requires !Derive(s, idx, seg, dir).overflowed || !DerivePut(s, idx, seg, dir).overflowed
    ensures Derive(s, idx, seg, dir) == DerivePut(s, idx, seg, dir) && !s.overflowed
  {
    var c := s.conns[idx];
    var id := c.life.ident.id;
    PutKeepsFailure(s, idx, NextDeriv(c.deriv, id, seg, dir, s.cfg), Derived(c.deriv, id, seg, dir, s.cfg));
    if s.cfg.WantsMetrics(c.life.ident.id) {
      RecordDerivedIsPut(s, idx, seg, dir, ObserveSample(c.deriv.metrics, seg, dir, s.cfg),
                         ObserveState(c.deriv.metrics, seg, dir, s.cfg));
    } else {
      assert SetDeriv(s, idx, c.deriv) == s;
    }
  }

  function DerivePut(s: TState, idx: nat, seg: Segment, dir: Direction): TState
    requires idx < |s.conns|
  {
    var c := s.conns[idx];
    var id := c.life.ident.id;
    Put(s, idx, NextDeriv(c.deriv, id, seg, dir, s.cfg), Derived(c.deriv, id, seg, dir, s.cfg))
  }

  /** One segment, retention aside, is placing it and recording what it produced, when either
      does not fail. */
  lemma ObserveSegmentIsPut(s: TState, seg: Segment)
    requires s.WF()
    requires !ObserveSegment(s, seg).overflowed || !PushAll(Placed(s, seg), Target(s, seg), Produced(s, seg)).overflowed
    ensures ObserveSegment(s, seg) == PushAll(Placed(s, seg), Target(s, seg), Produced(s, seg))
  {
    if Joins(s, seg) {
      JoinIsPut(s, seg);
    } else {
      CreateIsPut(s, seg);
    }
  }

  lemma RecordStateIsPut(s: TState, idx: nat, t: u64)
    requires idx < |s.conns|
    ensures RecordState(s, idx, t) == Put(s, idx, s.conns[idx].deriv, StatePart(s.conns[idx].life, t, s.cfg))
  {
    assert SetDeriv(s, idx, s.conns[idx].deriv) == s;
    PushOne(s, idx, Tagged(STATES, s.conns[idx].life.Snapshot(t)));
  }

  lemma JoinIsPut(s: TState, seg: Segment)
    requires s.WF() && Joins(s, seg)
    requires !ObserveSegment(s, seg).overflowed || !PushAll(Placed(s, seg), Target(s, seg), Produced(s, seg)).overflowed
    ensures ObserveSegment(s, seg) == PushAll(Placed(s, seg), Target(s, seg), Produced(s, seg))
  {
    var idx := s.live[seg.Pair()];
    var c := s.conns[idx];
    var l := c.life.Join(seg);
    var dir := l.ident.DirectionOf(seg.src);
    var s1 := SetLife(s, idx, l);
    var s2 := RecordState(s1, idx, seg.ts);
    RecordStateIsPut(s1, idx, seg.ts);
    var d := NextDeriv(c.deriv, l.ident.id, seg, dir, s.cfg);
    NextPart(s1, idx, c.deriv, StatePart(l, seg.ts, s.cfg), d, Derived(c.deriv, l.ident.id, seg, dir, s.cfg));
    assert SetDeriv(s1, idx, d) == Placed(s, seg);
    DeriveIsPut(s2, idx, seg, dir);
  }

  lemma CreateIsPut(s: TState, seg: Segment)
    requires s.WF() && !Joins(s, seg)
    requires !ObserveSegment(s, seg).overflowed || !PushAll(Placed(s, seg), Target(s, seg), Produced(s, seg)).overflowed
    ensures ObserveSegment(s, seg) == PushAll(Placed(s, seg), Target(s, seg), Produced(s, seg))
  {
    var idx := |s.conns|;
    var o := Opened(s, seg);
    var l := o.conns[idx].life;
    var dir := l.ident.DirectionOf(seg.src);
    var s1 := Derive(o, idx, seg, dir);
    var d := NextDeriv(NO_DERIV, l.ident.id, seg, dir, s.cfg);
    var xs, x := Derived(NO_DERIV, l.ident.id, seg, dir, s.cfg), StatePart(l, seg.ts, s.cfg);
    RecordStateIsPut(s1, idx, seg.ts);
    PutKeepsFailure(s1, idx, s1.conns[idx].deriv, x);
    PutPrefix(o, idx, d, xs, d, x);
    DeriveIsPut(o, idx, seg, dir);
    NextPart(o, idx, d, xs, d, x);
  }

  // -------------------------------------------------- derivation ignores retention

  /** Derivation reads windows from the configuration, never the retention policy. */
  lemma ObserveIgnoresRetention(m: PerDir<DirState>, seg: Segment, d: Direction, cfg: Config, r: Retention)
    ensures ObserveState(m, seg, d, cfg.(retention := r)) == ObserveState(m, seg, d, cfg)
    ensures ObserveSample(m, seg, d, cfg.(retention := r)) == ObserveSample(m, seg, d, cfg)
  {
  }

  lemma DerivationIgnoresRetention(d: Deriv, id: ConnId, seg: Segment, dir: Direction, cfg: Config, r: Retention)
    ensures NextDeriv(d, id, seg, dir, cfg.(retention := r)) == NextDeriv(d, id, seg, dir, cfg)
    ensures Derived(d, id, seg, dir, cfg.(retention := r)) == Derived(d, id, seg, dir, cfg)
  {
    var sample, m := ObserveSample(d.metrics, seg, dir, cfg), ObserveState(d.metrics, seg, dir, cfg);
    ObserveIgnoresRetention(d.metrics, seg, dir, cfg, r);
    DetailIgnoresRetention(d.(metrics := m), seg, dir, sample, cfg, r);
  }

  lemma DetailIgnoresRetention(d: Deriv, seg: Segment, dir: Direction, sample: Sample, cfg: Config, r: Retention)
    requires sample.MetricSample?
    ensures DetailDeriv(d, seg, dir, sample, cfg.(retention := r)) == DetailDeriv(d, seg, dir, sample, cfg)
    ensures DetailSamples(d, seg, dir, sample, cfg.(retention := r)) == DetailSamples(d, seg, dir, sample, cfg)
  {
  }
}
