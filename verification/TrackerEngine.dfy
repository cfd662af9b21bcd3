/** The tracker as the program has it: an object whose connections, index and counters are
    updated in place.  Every method is proved to do to the tracker's value exactly what the
    specification function of the same name does. */
module TrackerEngine {
  import opened Core
  import opened Lifecycle
  import opened TrackerSpec
  import opened Connection
  import Accounting
  import TrackerLives
  import Seek
  import LiveView
  import Timeline
  import Report

  /** Distinct objects, all in `parts`, that stand for `views`. */
  ghost predicate Backs(conns: seq<ConnTrack>, views: seq<Conn>, parts: set<object>)
    reads parts
  {
    && |views| == |conns|
    && (forall i | 0 <= i < |conns| ::
          conns[i] in parts && conns[i].metrics in parts && conns[i].View() == views[i])
    && (forall i, j | 0 <= i < j < |conns| :: conns[i] != conns[j] && conns[i].metrics != conns[j].metrics)
  }

  class Tracker {
    const config: Config
    var conns: seq<ConnTrack>
    var live: map<EndpointPair, nat>
    var nextInstance: map<EndpointPair, nat>
    var collected: nat
    var overflowed: bool
    var now: u64

    /** What each connection stands for. */
    ghost var views: seq<Conn>
    /** The connections and their metric states. */
    ghost var Parts: set<object>

    ghost predicate Valid()
      reads this, Parts
    {
      this !in Parts && Backs(conns, views, Parts)
    }

    /** The value this tracker stands for. */
    ghost function View(): TState
      reads this
    {
      TState(config, views, live, nextInstance, collected, overflowed, now)
    }

    constructor (config: Config)
      ensures Valid() && View() == New(config) && fresh(Parts)
    {
      this.config := config;
      conns, live, nextInstance := [], map[], map[];
      collected, overflowed, now := 0, false, 0;
      views := [];
      Parts := {};
    }

    // ------------------------------------------------------------- recording

    method Admit(idx: nat) returns (admitted: bool)
      requires Valid() && idx < |conns|
      modifies this, conns[idx]
      ensures Valid() && conns == old(conns) && Parts == old(Parts)
      ensures View() == TrackerSpec.Admit(old(View()), idx).0
      ensures admitted == TrackerSpec.Admit(old(View()), idx).1
    {
      if collected >= config.retention.MaxSamples() {
        if config.retention.Window().Some? {
          EvictOldest(idx);
        } else {
          overflowed := true;
          return false;
        }
      }
      collected := collected + 1;
      admitted := true;
    }

    /** Drops the oldest sample of the longest series of connection `idx`, if it has one to
        give up. */
    method EvictOldest(idx: nat)
      requires Valid() && idx < |conns|
      modifies this`collected, this`views, conns[idx]
      ensures Valid()
      ensures var c := old(views)[idx];
              && views == old(views)[idx := c.(hist := PopLongest(c.hist))]
              && collected == (if CanPop(c.hist) then SatSub(old(collected), 1) else old(collected))
    {
      var popped := conns[idx].PopLongestFront();
      views := views[idx := conns[idx].View()];
      if popped {
        collected := SatSub(collected, 1);
      }
    }

    method Record(idx: nat, k: Kind, x: Sample)
      requires Valid() && idx < |conns|
      modifies this, conns[idx]
      ensures Valid() && conns == old(conns) && Parts == old(Parts)
      ensures View() == Push(old(View()), idx, Tagged(k, x))
    {
      if overflowed {
        return;
      }
      var admitted := Admit(idx);
      if admitted {
        Store(idx, k, x);
      }
    }

    method Store(idx: nat, k: Kind, x: Sample)
      requires Valid() && idx < |conns|
      modifies this`views, conns[idx]
      ensures Valid()
      ensures View() == SetHist(old(View()), idx, TrackerSpec.Append(old(views)[idx].hist, k, x))
    {
      conns[idx].PushBack(k, x);
      views := views[idx := conns[idx].View()];
    }

    method RecordAll(idx: nat, k: Kind, xs: seq<Sample>)
      requires Valid() && idx < |conns|
      modifies this, conns[idx]
      ensures Valid() && conns == old(conns) && Parts == old(Parts)
      ensures View() == PushAll(old(View()), idx, Tag(k, xs))
    {
      ghost var s := View();
      for i := 0 to |xs|
        invariant Valid() && conns == old(conns) && Parts == old(Parts)
        invariant View() == PushAll(s, idx, Tag(k, xs)[..i])
      {
        assert Tag(k, xs)[..i + 1][..i] == Tag(k, xs)[..i];
        Record(idx, k, xs[i]);
      }
      assert Tag(k, xs)[..|xs|] == Tag(k, xs);
    }

    method CollectSeqPoints(idx: nat, seg: Segment, d: Direction, sample: Sample)
      requires Valid() && idx < |conns| && sample.MetricSample?
      modifies this, conns[idx]
      ensures Valid() && conns == old(conns) && Parts == old(Parts)
      ensures View() == CollectSeq(old(View()), idx, seg, d, sample)
    {
      if overflowed || !config.collectSeq {
        return;
      }
      var points := conns[idx].PushSeqPoints(seg, d, sample);
      views := views[idx := conns[idx].View()];
      RecordAll(idx, SEQPOINTS, points);
    }

    method CollectInFlight(idx: nat, t: u64)
      requires Valid() && idx < |conns|
      modifies this, conns[idx]
      ensures Valid() && conns == old(conns) && Parts == old(Parts)
      ensures View() == CollectInFlightAt(old(View()), idx, t)
    {
      if overflowed || !config.collectInFlight {
        return;
      }
      var points: seq<Sample> := [];
      var o2r := conns[idx].metrics.ReadInFlight(OriginToResponder);
      if o2r.Some? {
        points := points + [InFlightSample(t, OriginToResponder, o2r.value)];
      }
      var r2o := conns[idx].metrics.ReadInFlight(ResponderToOrigin);
      if r2o.Some? {
        points := points + [InFlightSample(t, ResponderToOrigin, r2o.value)];
      }
      assert points == InFlightPoints(View().conns[idx].deriv.metrics, t);
      RecordAll(idx, INFLIGHT, points);
    }

    method CollectThroughput(idx: nat, t: u64)
      requires Valid() && idx < |conns|
      modifies this, conns[idx]
      ensures Valid() && conns == old(conns) && Parts == old(Parts)
      ensures View() == CollectThroughputAt(old(View()), idx, t)
    {
      if overflowed || !config.collectThroughput {
        return;
      }
      var points: seq<Sample> := [];
      var o2r := conns[idx].metrics.ReadThroughput(OriginToResponder, t, config.throughputWindow);
      if o2r.Some? {
        points := points + [ThroughputSample(t, OriginToResponder, o2r.value.total, o2r.value.good)];
      }
      var r2o := conns[idx].metrics.ReadThroughput(ResponderToOrigin, t, config.throughputWindow);
      if r2o.Some? {
        points := points + [ThroughputSample(t, ResponderToOrigin, r2o.value.total, r2o.value.good)];
      }
      assert points == ThroughputPoints(View().conns[idx].deriv.metrics, t, config.throughputWindow);
      RecordAll(idx, THROUGHPUT, points);
    }

    method CollectRttPoint(idx: nat, sample: Sample)
      requires Valid() && idx < |conns| && sample.MetricSample?
      modifies this, conns[idx]
      ensures Valid() && conns == old(conns) && Parts == old(Parts)
      ensures View() == CollectRtt(old(View()), idx, sample)
    {
      if overflowed || !config.collectRtt || sample.rtt.None? {
        return;
      }
      var m := sample.dir.Opposite();
      var v := Srtt.Smooth(conns[idx].srtt.Get(m), sample.rtt.value);
      conns[idx].srtt := conns[idx].srtt.Set(m, Some(v));
      views := views[idx := conns[idx].View()];
      Record(idx, RTTS, RttSample(sample.t, m, sample.rtt.value, v));
    }

    method CollectAll(idx: nat, seg: Segment, d: Direction, sample: Sample)
      requires Valid() && idx < |conns| && sample.MetricSample?
      modifies this, conns[idx]
      ensures Valid() && conns == old(conns) && Parts == old(Parts)
      ensures View() == CollectDetail(old(View()), idx, seg, d, sample)
    {
      CollectSeqPoints(idx, seg, d, sample);
      CollectInFlight(idx, seg.ts);
      CollectRttPoint(idx, sample);
      CollectThroughput(idx, seg.ts);
    }

    /** Derives and records one segment's metrics, unless nothing wants them or collection
        has failed. */
    method DeriveMetrics(idx: nat, seg: Segment, d: Direction)
      requires Valid() && idx < |conns|
      modifies this, conns[idx], conns[idx].metrics
      ensures Valid() && conns == old(conns) && Parts == old(Parts)
      ensures View() == Derive(old(View()), idx, seg, d)
    {
      var c := conns[idx];
      if overflowed || !config.WantsMetrics(c.id) {
        return;
      }
      var sample := c.metrics.Observe(seg, d, config);
      views := views[idx := conns[idx].View()];
      if config.ShouldCollect(c.id) {
        Record(idx, SERIES, sample);
      }
      CollectAll(idx, seg, d, sample);
    }

    method RecordStateOf(idx: nat, t: u64)
      requires Valid() && idx < |conns|
      modifies this, conns[idx]
      ensures Valid() && conns == old(conns) && Parts == old(Parts)
      ensures View() == RecordState(old(View()), idx, t)
    {
      if config.collectState {
        var c := conns[idx];
        Record(idx, STATES, StateSample(t, c.state, c.bytesO2R, c.bytesR2O));
      }
    }

    // ------------------------------------------------------------- segments

    method SplitsFrom(idx: nat, seg: Segment) returns (b: bool)
      requires Valid() && idx < |conns|
      ensures b == ShouldSplit(View(), idx, seg)
    {
      var c := conns[idx];
      assert c.View() == views[idx];
      if seg.flags.BareSyn() {
        return c.state.Terminal() || SatSub(seg.ts, c.lastAt) > config.deadAfter;
      }
      if c.state == Established {
        var base := c.Baseline(c.DirectionOf(seg.src));
        if base.Some? {
          return IsBackwardReset(base.value, seg.seqNo, config.resetThreshold);
        }
      }
      return false;
    }

    method Join(idx: nat, seg: Segment)
      requires Valid() && idx < |conns|
      modifies this, conns[idx], conns[idx].metrics
      ensures Valid() && conns == old(conns) && Parts == old(Parts)
      ensures View() == JoinInstance(old(View()), idx, seg)
    {
      var c := conns[idx];
      var d := c.DirectionOf(seg.src);
      c.Account(seg, d);
      c.ApplyState(seg, d);
      views := views[idx := conns[idx].View()];
      RecordStateOf(idx, seg.ts);
      DeriveMetrics(idx, seg, d);
    }

    method NewTrack(seg: Segment, instance: nat) returns (c: ConnTrack)
      ensures fresh(c) && fresh(c.metrics)
      ensures c.View() == Conn(Open(ConnId(seg.Pair(), instance), seg), NO_DERIV, NO_HIST)
    {
      var ident := OpeningIdentity(ConnId(seg.Pair(), instance), seg);
      c := new ConnTrack(ident.id, ident.origin, ident.responder, ident.originInferred,
                         OpeningState(seg.flags), seg.ts);
      var d := c.DirectionOf(seg.src);
      c.Account(seg, d);
      if seg.flags.fin {
        c.SetFin(d);
      }
    }

    method AddInstance(seg: Segment) returns (c: ConnTrack)
      requires Valid()
      modifies this
      ensures fresh(c) && fresh(c.metrics)
      ensures Valid() && conns == old(conns) + [c] && Parts == old(Parts) + {c, c.metrics}
      ensures View() == Opened(old(View()), seg)
    {
      var instance := ClaimInstance(seg.Pair());
      c := NewTrack(seg, instance);
      Enlist(c);
    }

    /** Takes the pair's next instance number, and points the index at the connection to come. */
    method ClaimInstance(pair: EndpointPair) returns (instance: nat)
      modifies this`live, this`nextInstance
      ensures instance == NextInstance(old(View()), pair)
      ensures live == old(live)[pair := |conns|]
      ensures nextInstance == old(nextInstance)[pair := instance + 1]
    {
      instance := if pair in nextInstance then nextInstance[pair] else 0;
      nextInstance := nextInstance[pair := instance + 1];
      live := live[pair := |conns|];
    }

    method Enlist(c: ConnTrack)
      requires Valid() && c !in Parts && c.metrics !in Parts
      modifies this`conns, this`views, this`Parts
      ensures Valid() && conns == old(conns) + [c] && Parts == old(Parts) + {c, c.metrics}
      ensures views == old(views) + [c.View()]
    {
      conns := conns + [c];
      views := views + [c.View()];
      Parts := Parts + {c, c.metrics};
    }

    method Create(seg: Segment)
      requires Valid()
      modifies this
      ensures Valid() && fresh(Parts - old(Parts))
      ensures View() == CreateInstance(old(View()), seg)
    {
      var idx := |conns|;
      var c := AddInstance(seg);
      var d := c.DirectionOf(seg.src);
      DeriveMetrics(idx, seg, d);
      RecordStateOf(idx, seg.ts);
    }

    method ObserveOne(seg: Segment)
      requires Valid() && View().WF()
      modifies this, Parts
      ensures Valid() && fresh(Parts - old(Parts))
      ensures View() == ObserveSegment(old(View()), seg)
    {
      var pair := seg.Pair();
      if pair in live {
        var split := SplitsFrom(live[pair], seg);
        if !split {
          Join(live[pair], seg);
          return;
        }
      }
      Create(seg);
    }

    // ------------------------------------------------------------- retention

    /** Ages one connection further. */
    method AgeNext(ghost was: seq<Conn>, i: nat, horizon: u64, ghost before: nat)
      requires AgedTo(was, i, horizon, before) && i < |conns|
      modifies this`collected, this`views, Parts
      ensures AgedTo(was, i + 1, horizon, before)
    {
      AgerShrinks(horizon);
      AgeingStep(was, views, Ager(horizon), i, before, collected);
      AgeOne(i, horizon);
    }

    ghost predicate AgedTo(was: seq<Conn>, n: nat, horizon: u64, before: nat)
      reads this, Parts
    {
      Valid() && Ageing(was, views, Ager(horizon), n, before, collected)
    }

    method AgeOne(i: nat, horizon: u64)
      requires Valid() && i < |conns|
      modifies this`collected, this`views, conns[i]
      ensures Valid()
      ensures var c, aged := old(views)[i], Ager(horizon)(old(views)[i]);
              && views == old(views)[i := aged]
              && collected == SatSub(old(collected), HistLen(c.hist) - HistLen(aged.hist))
    {
      assert conns[i].View() == views[i];
      var left := conns[i].Age(horizon, collected);
      collected := left;
      views := views[i := conns[i].View()];
    }

    /** Drops every sample that has fallen out of the retention window. */
    method AgeSamples()
      requires Valid()
      modifies this, Parts
      ensures Valid() && conns == old(conns) && Parts == old(Parts)
      ensures View() == EvictSamples(old(View()))
    {
      if config.retention.Window().Some? {
        var horizon := Horizon(now, config.retention.Window().value);
        AgeEach(horizon);
        AgedIsEvicted(old(View()), View());
      }
    }

    method AgeEach(horizon: u64)
      requires Valid()
      modifies this`collected, this`views, Parts
      ensures AgedTo(old(views), |conns|, horizon, old(collected))
    {
      ghost var was, before := views, collected;
      AgeingStarts(was, Ager(horizon), before);
      for i := 0 to |conns|
        invariant AgedTo(was, i, horizon, before)
      {
        AgeNext(was, i, horizon, before);
      }
    }

    method DecaySamples(t: u64)
      requires Valid()
      modifies this, Parts
      ensures Valid() && conns == old(conns) && Parts == old(Parts)
      ensures View() == EmitDecay(old(View()), t)
    {
      if overflowed {
        return;
      }
      ghost var s := View();
      for idx := 0 to |conns|
        invariant Valid() && conns == old(conns) && Parts == old(Parts)
        invariant View() == DecayUpTo(s, t, idx)
      {
        assert conns[idx].View() == views[idx];
        if SatSub(t, conns[idx].lastAt) > config.deadAfter {
          continue;
        }
        DecayOne(idx, t);
      }
    }

    method DecayOne(idx: nat, t: u64)
      requires Valid() && idx < |conns|
      modifies this, conns[idx]
      ensures Valid() && conns == old(conns) && Parts == old(Parts)
      ensures View() == CollectInFlightAt(CollectThroughputAt(old(View()), idx, t), idx, t)
    {
      CollectThroughput(idx, t);
      CollectInFlight(idx, t);
    }

    /** Keeps the connections that survive, in order. */
    method RetainSurvivors(horizon: u64)
      requires Valid()
      modifies this`conns, this`views
      ensures Valid()
      ensures views == Survivors(old(views), now, horizon, config.deadAfter)
    {
      var kept, from := SelectSurvivors(horizon);
      ghost var keptViews := Survivors(views, now, horizon, config.deadAfter);
      PickedBacks(conns, views, from, kept, keptViews, Parts);
      conns := kept;
      views := keptViews;
    }

    method SelectSurvivors(horizon: u64) returns (kept: seq<ConnTrack>, ghost from: seq<nat>)
      requires Valid()
      ensures Picked(conns, views, from, |conns|, kept, Survivors(views, now, horizon, config.deadAfter))
    {
      kept, from := [], [];
      for i := 0 to |conns|
        invariant Picked(conns, views, from, i, kept, Survivors(views[..i], now, horizon, config.deadAfter))
      {
        PickedStep(conns, views, from, i, kept, now, horizon, config.deadAfter);
        assert conns[i].View() == views[i];
        if !conns[i].Dead(now, horizon, config.deadAfter) {
          kept := kept + [conns[i]];
          from := from + [i];
        }
      }
      assert views[..|conns|] == views;
    }

    method EvictDeadConnections()
      requires Valid() && View().WF()
      modifies this
      ensures Valid() && Parts == old(Parts)
      ensures View() == EvictDead(old(View()))
    {
      if config.retention.Window().None? {
        return;
      }
      var horizon := Horizon(now, config.retention.Window().value);
      var before := |conns|;
      RetainSurvivors(horizon);
      if |conns| == before {
        TrackerLives.AllSurvive(old(views), now, horizon, config.deadAfter);
        return;
      }
      Reindex();
    }

    method Reindex()
      requires Valid()
      modifies this`live, this`nextInstance, this`collected
      ensures Valid()
      ensures live == Index(views) && collected == TotalLen(views)
      ensures nextInstance == map p | p in old(nextInstance) && p in live :: old(nextInstance)[p]
    {
      RebuildIndex();
      Recount();
    }

    /** Points the index at the last connection of each pair and forgets the instance
        numbers of pairs no longer tracked. */
    method RebuildIndex()
      requires Valid()
      modifies this`live, this`nextInstance
      ensures Valid()
      ensures live == Index(views)
      ensures nextInstance == map p | p in old(nextInstance) && p in live :: old(nextInstance)[p]
    {
      live := map[];
      for i := 0 to |conns|
        invariant live == Index(views[..i]) && nextInstance == old(nextInstance)
      {
        assert views[..i + 1][..i] == views[..i];
        assert conns[i].View() == views[i];
        live := live[conns[i].id.pair := i];
      }
      assert views[..|conns|] == views;
      nextInstance := map p | p in nextInstance && p in live :: nextInstance[p];
    }

    method Recount()
      requires Valid()
      modifies this`collected
      ensures Valid()
      ensures collected == TotalLen(views)
    {
      collected := 0;
      for i := 0 to |conns|
        invariant collected == TotalLen(views[..i])
      {
        TotalLenStep(views, i);
        assert conns[i].View() == views[i];
        collected := collected + conns[i].Retained();
      }
      assert views[..|conns|] == views;
    }

    // ----------------------------------------------------------------- items

    method ObserveTickAt(t: u64)
      requires Valid() && View().WF()
      modifies this, Parts
      ensures Valid() && Parts == old(Parts)
      ensures View() == ObserveTick(old(View()), t)
    {
      if config.retention.Window().None? {
        return;
      }
      now := Max(now, t);
      DecaySamples(now);
      AgeSamples();
      EvictDeadConnections();
    }

    /** Folds one item into the tracker. */
    method Observe(item: Item)
      requires Valid() && View().WF()
      modifies this, Parts
      ensures Valid() && fresh(Parts - old(Parts))
      ensures View() == Step(old(View()), item)
    {
      match item {
        case Seg(seg) =>
          now := Max(now, seg.ts);
          ObserveOne(seg);
          AgeSamples();
        case Tick(t) =>
          ObserveTickAt(t);
      }
    }

    // ---------------------------------------------------------------- readings

    method CollectSeries() returns (all: seq<Timeline.ConnSeries>)
      requires Valid()
      ensures all == Seek.SeriesOfAll(views)
    {
      all := [];
      for i := 0 to |conns|
        invariant all == Seek.SeriesOfAll(views)[..i]
      {
        var c := conns[i];
        assert c.View() == views[i];
        var life := Life(Identity(c.id, c.origin, c.responder, c.originInferred, c.openedAt),
                         Traffic(c.lastAt, c.bytesO2R, c.bytesR2O, c.segments, c.baseO2R, c.baseR2O),
                         Phase(c.state, c.finO2R, c.finR2O));
        all := all + [Timeline.ConnSeries(life, c.states, c.seqPoints, c.inFlight, c.rtts, c.throughput)];
      }
    }

    /** The live timeline, read without consuming the tracker. */
    method Snapshot() returns (tl: Timeline.Timeline)
      requires Valid()
      ensures tl == LiveView.Snapshot(View())
    {
      var all := CollectSeries();
      tl := Timeline.WithSeqEnding(all, now);
    }

    /** The finished replay timeline, or the ceiling that withheld it. */
    method IntoTimeline() returns (outcome: Seek.Outcome)
      requires Valid()
      ensures outcome == Seek.IntoTimeline(View())
    {
      if overflowed {
        return Seek.SampleCeiling(collected + 1, config.retention.MaxSamples());
      }
      var all := CollectSeries();
      var end := 0;
      for i := 0 to |all|
        invariant end == Timeline.LastActivity(all[..i])
      {
        assert all[..i + 1][..i] == all[..i];
        end := Max(end, all[i].conn.traffic.lastAt);
      }
      assert all[..|all|] == all;
      var tl := Timeline.WithSeqEnding(all, end);
      outcome := Seek.Ready(tl);
    }

    method CollectReports() returns (all: seq<Report.Reported>)
      requires Valid()
      ensures all == Report.AllReported(views)
    {
      all := [];
      for i := 0 to |conns|
        invariant all == Report.AllReported(views)[..i]
      {
        var c := conns[i];
        assert c.View() == views[i];
        var life := Life(Identity(c.id, c.origin, c.responder, c.originInferred, c.openedAt),
                         Traffic(c.lastAt, c.bytesO2R, c.bytesR2O, c.segments, c.baseO2R, c.baseR2O),
                         Phase(c.state, c.finO2R, c.finR2O));
        all := all + [Report.Reported(life, c.series)];
      }
    }

    /** Every connection, in the order of the report. */
    method IntoConnections() returns (out: seq<Life>)
      requires Valid()
      ensures out == Report.Views(Report.ByOpening(Report.AllReported(View().conns)))
    {
      var all := CollectReports();
      out := Report.Views(Report.ByOpening(all));
    }

    /** Every connection with its metric series, or the ceiling that withheld them. */
    method IntoMetrics() returns (outcome: Report.Metrics)
      requires Valid()
      ensures outcome == Report.IntoMetrics(View())
    {
      if overflowed {
        return Report.MetricCeiling(collected + 1, config.retention.MaxSamples());
      }
      var all := CollectReports();
      outcome := Report.Metrics(Report.ByOpening(all));
    }
  }

  /** `kept` and `keptViews` are the items of `conns` and `views` at increasing positions
      below `n`. */
  ghost predicate Picked(conns: seq<ConnTrack>, views: seq<Conn>, from: seq<nat>, n: nat,
                         kept: seq<ConnTrack>, keptViews: seq<Conn>)
  {
    && n <= |conns| == |views|
    && |kept| == |keptViews| == |from|
    && (forall k | 0 <= k < |from| :: from[k] < n && kept[k] == conns[from[k]] && keptViews[k] == views[from[k]])
    && (forall k, m | 0 <= k < m < |from| :: from[k] < from[m])
  }

  lemma PickedBacks(conns: seq<ConnTrack>, views: seq<Conn>, from: seq<nat>,
                    kept: seq<ConnTrack>, keptViews: seq<Conn>, parts: set<object>)
    requires Backs(conns, views, parts) && Picked(conns, views, from, |conns|, kept, keptViews)
    ensures Backs(kept, keptViews, parts)
  {
    forall i | 0 <= i < |kept|
      ensures kept[i] in parts && kept[i].metrics in parts && kept[i].View() == keptViews[i]
    {
      assert conns[from[i]].View() == views[from[i]];
    }
  }

  lemma PickedStep(conns: seq<ConnTrack>, views: seq<Conn>, from: seq<nat>, i: nat, kept: seq<ConnTrack>,
                   now: u64, horizon: u64, deadAfter: u64)
    requires i < |conns| == |views|
    requires Picked(conns, views, from, i, kept, Survivors(views[..i], now, horizon, deadAfter))
    ensures var next := Survivors(views[..i + 1], now, horizon, deadAfter);
            if Survives(views[i].life, now, horizon, deadAfter)
            then Picked(conns, views, from + [i], i + 1, kept + [conns[i]], next)
            else Picked(conns, views, from, i + 1, kept, next)
  {
    assert views[..i + 1][..i] == views[..i];
  }

  lemma TotalLenStep(conns: seq<Conn>, i: nat)
    requires i < |conns|
    ensures TotalLen(conns[..i + 1]) == TotalLen(conns[..i]) + HistLen(conns[i].hist)
  {
    assert conns[..i + 1][..i] == conns[..i];
  }

  function AgeConn(c: Conn, horizon: u64): Conn { c.(hist := AgeHist(c.hist, horizon)) }

  ghost function Ager(horizon: u64): Conn -> Conn { c => AgeConn(c, horizon) }

  /** `f` has been applied to the first `n` of the connections `was`, giving `views`, and what
      that dropped has been taken off the count. */
  ghost predicate Ageing(was: seq<Conn>, views: seq<Conn>, f: Conn -> Conn, n: nat, before: nat, count: nat) {
    && n <= |was| == |views|
    && (forall i | 0 <= i < |was| :: views[i] == if i < n then f(was[i]) else was[i])
    && TotalLen(views) <= TotalLen(was)
    && count == SatSub(before, TotalLen(was) - TotalLen(views))
  }

  lemma AgeingStarts(was: seq<Conn>, f: Conn -> Conn, before: nat)
    ensures Ageing(was, was, f, 0, before, before)
  {}

  lemma AgeingStep(was: seq<Conn>, views: seq<Conn>, f: Conn -> Conn, n: nat, before: nat, count: nat)
    requires Ageing(was, views, f, n, before, count) && n < |was|
    requires forall c :: HistLen(f(c).hist) <= HistLen(c.hist)
    ensures var aged := f(views[n]);
            Ageing(was, views[n := aged], f, n + 1, before,
                   SatSub(count, HistLen(views[n].hist) - HistLen(aged.hist)))
  {
    Accounting.SumsUpdate(views, n, f(views[n]));
  }

  /** Aging every connection, taking off the count what each drops, is aging the tracker. */
  lemma AgedIsEvicted(s: TState, r: TState)
    requires s.cfg.retention.Evict? && r == s.(conns := r.conns, collected := r.collected)
    requires var f := Ager(Horizon(s.now, s.cfg.retention.horizon));
             Ageing(s.conns, r.conns, f, |s.conns|, s.collected, r.collected)
    ensures r == EvictSamples(s)
  {
    assert r.conns == AgeAll(s.conns, Horizon(s.now, s.cfg.retention.horizon));
  }

  lemma AgerShrinks(horizon: u64)
    ensures forall c :: HistLen(Ager(horizon)(c).hist) <= HistLen(c.hist)
  {
    forall c: Conn
      ensures HistLen(Ager(horizon)(c).hist) <= HistLen(c.hist)
    {
      AgeHistShrinks(c.hist, horizon);
    }
  }

  lemma AgeHistShrinks(h: Hist, horizon: u64)
    ensures HistLen(AgeHist(h, horizon)) <= HistLen(h)
  {}

  /** Tracks every item in turn and reports the connections. */
  method Track(items: seq<Item>, config: Config) returns (out: seq<Life>)
    ensures out == Report.Views(Report.ByOpening(Report.AllReported(Run(config, items).conns)))
  {
    var tracker := new Tracker(config);
    for i := 0 to |items|
      invariant tracker.Valid() && fresh(tracker) && fresh(tracker.Parts)
      invariant tracker.View() == Run(config, items[..i])
    {
      assert items[..i + 1][..i] == items[..i];
      tracker.Observe(items[i]);
    }
    assert items[..|items|] == items;
    out := tracker.IntoConnections();
  }
}
