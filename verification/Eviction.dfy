/** Bounded retention never corrupts derivation: the evicting tracker against an unbounded
    one that keeps everything. */
module Eviction {
  import opened Core
  import opened Lifecycle
  import opened TrackerSpec
  import opened Recording
  import opened Accounting
  import opened Ceiling

  // -------------------------------------------------------------------- suffixes

  ghost predicate IsSuffix<T>(a: seq<T>, b: seq<T>) {
    |a| <= |b| && a == b[|b| - |a|..]
  }

  lemma SuffixTrans<T>(a: seq<T>, b: seq<T>, c: seq<T>)
    requires IsSuffix(a, b) && IsSuffix(b, c)
    ensures IsSuffix(a, c)
  {
  }

  lemma SuffixAppend<T>(a: seq<T>, b: seq<T>, x: T)
    requires IsSuffix(a, b)
    ensures IsSuffix(a + [x], b + [x])
  {
  }

  lemma {:induction false} EvictFrontIsSuffix(dq: seq<Sample>, horizon: u64, keepMin: nat)
    ensures IsSuffix(EvictFront(dq, horizon, keepMin), dq)
    ensures |dq| >= keepMin ==> |EvictFront(dq, horizon, keepMin)| >= keepMin
  {
    if |dq| > keepMin && dq[0].t < horizon {
      EvictFrontIsSuffix(dq[1..], horizon, keepMin);
      SuffixTrans(EvictFront(dq, horizon, keepMin), dq[1..], dq);
    }
  }

  ghost predicate HistSuffix(h: Hist, g: Hist) {
    forall k: Kind :: IsSuffix(h[k], g[k])
  }

  lemma AgedIsSuffix(h: Hist, g: Hist, horizon: u64)
    requires HistSuffix(h, g)
    ensures HistSuffix(AgeHist(h, horizon), g)
  {
    forall k: Kind
      ensures IsSuffix(AgeHist(h, horizon)[k], g[k])
    {
      AgedSeries(h, horizon, k);
      EvictFrontIsSuffix(h[k], horizon, KeepMin(k));
      SuffixTrans(EvictFront(h[k], horizon, KeepMin(k)), h[k], g[k]);
    }
  }

  lemma AgedSeries(h: Hist, horizon: u64, k: Kind)
    ensures AgeHist(h, horizon)[k] == EvictFront(h[k], horizon, KeepMin(k))
  {}

  lemma RoomIsSuffix(s: TState, h: Hist, j: Kind)
    ensures IsSuffix(Room(s, h)[j], h[j])
  {
  }

  /** Making room and then appending stays a suffix of only appending. */
  lemma RoomAppendSuffix(s: TState, h: Hist, g: Hist, k: Kind, x: Sample)
    requires HistSuffix(h, g)
    ensures HistSuffix(Append(Room(s, h), k, x), Append(g, k, x))
  {
    forall j: Kind
      ensures IsSuffix(Append(Room(s, h), k, x)[j], Append(g, k, x)[j])
    {
      RoomIsSuffix(s, h, j);
      SuffixTransAppend(Room(s, h)[j], h[j], g[j], x);
    }
  }

  lemma SuffixTransAppend<T>(a: seq<T>, b: seq<T>, c: seq<T>, x: T)
    requires IsSuffix(a, b) && IsSuffix(b, c)
    ensures IsSuffix(a, c) && IsSuffix(a + [x], c + [x])
  {
    SuffixTrans(a, b, c);
    SuffixAppend(a, c, x);
  }

  // ------------------------------------------------------------------- simulation

  /** Agreement on everything but the retained series. */
  ghost predicate SameButSeries(e: TState, f: TState) {
    && e.cfg == f.cfg.(retention := e.cfg.retention)
    && |e.conns| == |f.conns|
    && (forall i | 0 <= i < |e.conns| :: e.conns[i].life == f.conns[i].life && e.conns[i].deriv == f.conns[i].deriv)
    && e.live == f.live && e.nextInstance == f.nextInstance && e.now == f.now
    && e.overflowed == f.overflowed
  }

  /** The evicting tracker `e` simulates the fail-fast tracker `f`. */
  ghost predicate Sim(e: TState, f: TState) {
    && e.cfg.retention.Evict? && f.cfg.retention.FailFast?
    && !f.overflowed && SameButSeries(e, f)
    && forall i | 0 <= i < |e.conns| :: HistSuffix(e.conns[i].hist, f.conns[i].hist)
  }

  lemma PushSim(e: TState, f: TState, idx: nat, x: Tagged)
    requires Sim(e, f) && idx < |e.conns| && !Push(f, idx, x).overflowed
    ensures Sim(Push(e, idx, x), Push(f, idx, x))
  {
    PushEffect(e, idx, x);
    PushEffect(f, idx, x);
    RoomAppendSuffix(e, e.conns[idx].hist, f.conns[idx].hist, x.kind, x.sample);
  }

  lemma {:induction false} PushAllSim(e: TState, f: TState, idx: nat, xs: seq<Tagged>)
    requires Sim(e, f) && idx < |e.conns| && !PushAll(f, idx, xs).overflowed
    ensures Sim(PushAll(e, idx, xs), PushAll(f, idx, xs))
  {
    if |xs| > 0 {
      var pre := xs[..|xs| - 1];
      PushEffect(PushAll(f, idx, pre), idx, xs[|xs| - 1]);
      PushAllSim(e, f, idx, pre);
      PushSim(PushAll(e, idx, pre), PushAll(f, idx, pre), idx, xs[|xs| - 1]);
    }
  }

  lemma JoinsAgree(e: TState, f: TState, seg: Segment)
    requires e.WF() && f.WF() && SameButSeries(e, f)
    ensures Joins(e, seg) == Joins(f, seg) && Target(e, seg) == Target(f, seg)
  {
  }

  lemma JoinedAgree(e: TState, f: TState, idx: nat, seg: Segment)
    requires SameButSeries(e, f) && idx < |e.conns|
    ensures SameButSeries(PlacedJoin(e, idx, seg), PlacedJoin(f, idx, seg))
    ensures ProducedJoin(e, idx, seg) == ProducedJoin(f, idx, seg)
  {
    var l := f.conns[idx].life.Join(seg);
    DerivationIgnoresRetention(f.conns[idx].deriv, l.ident.id, seg, l.ident.DirectionOf(seg.src),
                               f.cfg, e.cfg.retention);
  }

  lemma OpenedAgree(e: TState, f: TState, seg: Segment)
    requires SameButSeries(e, f)
    ensures SameButSeries(PlacedOpen(e, seg), PlacedOpen(f, seg))
  {
    OpenedAlike(e, f, seg);
    var l := Opened(f, seg).conns[|f.conns|].life;
    var dir := l.ident.DirectionOf(seg.src);
    DerivationIgnoresRetention(NO_DERIV, l.ident.id, seg, dir, f.cfg, e.cfg.retention);
    DerivedAlike(Opened(e, seg), Opened(f, seg), |e.conns|, NextDeriv(NO_DERIV, l.ident.id, seg, dir, f.cfg));
  }

  lemma OpenedAlike(e: TState, f: TState, seg: Segment)
    requires SameButSeries(e, f)
    ensures SameButSeries(Opened(e, seg), Opened(f, seg))
  {
    assert NextInstance(e, seg.Pair()) == NextInstance(f, seg.Pair());
  }

  lemma DerivedAlike(e: TState, f: TState, idx: nat, d: Deriv)
    requires SameButSeries(e, f) && idx < |e.conns|
    ensures SameButSeries(SetDeriv(e, idx, d), SetDeriv(f, idx, d))
  {}

  lemma OpenedProduceAlike(e: TState, f: TState, seg: Segment)
    requires SameButSeries(e, f)
    ensures ProducedOpen(e, seg) == ProducedOpen(f, seg)
  {
    assert NextInstance(e, seg.Pair()) == NextInstance(f, seg.Pair());
    var l := Open(ConnId(seg.Pair(), NextInstance(f, seg.Pair())), seg);
    DerivationIgnoresRetention(NO_DERIV, l.ident.id, seg, l.ident.DirectionOf(seg.src), f.cfg, e.cfg.retention);
  }

  /** Placement and production do not depend on what was retained. */
  lemma PlacedAgree(e: TState, f: TState, seg: Segment)
    requires e.WF() && f.WF() && SameButSeries(e, f)
    ensures SameButSeries(Placed(e, seg), Placed(f, seg))
    ensures Target(e, seg) == Target(f, seg) && Produced(e, seg) == Produced(f, seg)
  {
    JoinsAgree(e, f, seg);
    if Joins(f, seg) {
      JoinedAgree(e, f, f.live[seg.Pair()], seg);
    } else {
      OpenedAgree(e, f, seg);
      OpenedProduceAlike(e, f, seg);
    }
  }

  lemma PlacedSim(e: TState, f: TState, seg: Segment)
    requires e.WF() && f.WF() && Sim(e, f)
    ensures Sim(Placed(e, seg), Placed(f, seg))
    ensures Target(e, seg) == Target(f, seg) && Produced(e, seg) == Produced(f, seg)
  {
    PlacedAgree(e, f, seg);
    PlacedRecordsNothing(e, seg);
    PlacedRecordsNothing(f, seg);
  }

  lemma EvictSim(e: TState, f: TState)
    requires Sim(e, f)
    ensures Sim(EvictSamples(e), f)
  {
    var horizon := Horizon(e.now, e.cfg.retention.horizon);
    forall i | 0 <= i < |e.conns|
      ensures HistSuffix(EvictSamples(e).conns[i].hist, f.conns[i].hist)
    {
      AgedIsSuffix(e.conns[i].hist, f.conns[i].hist, horizon);
    }
  }

  /** Both trackers place the segment alike and record the same samples. */
  lemma SegmentSplits(e: TState, f: TState, seg: Segment)
    requires e.WF() && f.WF() && Sim(e, f) && Accounted(e)
    requires !ObserveSegment(f, seg).overflowed
    ensures ObserveSegment(e, seg) == PushAll(Placed(e, seg), Target(e, seg), Produced(e, seg))
    ensures Target(e, seg) < |Placed(f, seg).conns|
    ensures ObserveSegment(f, seg) == PushAll(Placed(f, seg), Target(e, seg), Produced(e, seg))
    ensures Sim(Placed(e, seg), Placed(f, seg))
  {
    PlacedSim(e, f, seg);
    ObserveSegmentAccounted(e, seg);
    EvictingStays(e, seg);
    ObserveSegmentIsPut(e, seg);
    ObserveSegmentIsPut(f, seg);
  }

  lemma SegmentSim(e: TState, f: TState, seg: Segment)
    requires e.WF() && f.WF() && Sim(e, f) && Accounted(e)
    requires !ObserveSegment(f, seg).overflowed
    ensures Sim(EvictSamples(ObserveSegment(e, seg)), ObserveSegment(f, seg))
  {
    SegmentSplits(e, f, seg);
    PushAllSim(Placed(e, seg), Placed(f, seg), Target(e, seg), Produced(e, seg));
    EvictSim(ObserveSegment(e, seg), ObserveSegment(f, seg));
  }

  lemma EvictingStays(e: TState, seg: Segment)
    requires e.WF()
    ensures ObserveSegment(e, seg).cfg == e.cfg && ObserveSegment(e, seg).now == e.now
  {
  }

  predicate SegmentsOnly(items: seq<Item>) {
    forall i | 0 <= i < |items| :: items[i].Seg?
  }

  lemma StepSim(e: TState, f: TState, seg: Segment)
    requires e.WF() && f.WF() && Sim(e, f) && Accounted(e)
    requires !ObserveSegment(f.(now := Max(f.now, seg.ts)), seg).overflowed
    ensures Sim(Step(e, Seg(seg)), Step(f, Seg(seg)))
  {
    SegmentSim(e.(now := Max(e.now, seg.ts)), f.(now := Max(f.now, seg.ts)), seg);
  }

  /** On any stream of segments the evicting tracker agrees with an unbounded one on every
      connection's life, baselines, metrics, smoothed round-trip times and unwrapping, on
      the index and on time; and each series it retains is a suffix of the unbounded one. */
  lemma {:induction false} EvictionNeverCorrupts(cfg: Config, window: u64, backstop: nat, ceiling: nat,
                                                 items: seq<Item>)
    requires SegmentsOnly(items)
    requires !Run(cfg.(retention := FailFast(ceiling)), items).overflowed
    ensures Sim(Run(cfg.(retention := Evict(window, backstop)), items),
                Run(cfg.(retention := FailFast(ceiling)), items))
  {
    if |items| > 0 {
      var n := |items| - 1;
      var ce, cf := cfg.(retention := Evict(window, backstop)), cfg.(retention := FailFast(ceiling));
      LastFailFast(cf, items);
      EvictionNeverCorrupts(cfg, window, backstop, ceiling, items[..n]);
      RunAccounted(ce, items[..n]);
      StepSim(Run(ce, items[..n]), Run(cf, items[..n]), items[n].seg);
    }
  }

  // ------------------------------------------------------- exactly what is retained

  /** Evicting now what was evicted before, with more recorded since, is evicting it all
      now. */
  lemma {:induction false} EvictFrontLater(a: seq<Sample>, b: seq<Sample>, h1: u64, h2: u64, keepMin: nat)
    requires h1 <= h2
    ensures EvictFront(EvictFront(a, h1, keepMin) + b, h2, keepMin) == EvictFront(a + b, h2, keepMin)
  {
    if |a| > keepMin && a[0].t < h1 {
      assert (a + b)[1..] == a[1..] + b;
      EvictFrontLater(a[1..], b, h1, h2, keepMin);
    }
  }

  /** The samples of one kind, in order. */
  ghost function Of(xs: seq<Tagged>, k: Kind): seq<Sample> {
    if |xs| == 0 then []
    else Of(xs[..|xs| - 1], k) + if xs[|xs| - 1].kind == k then [xs[|xs| - 1].sample] else []
  }

  ghost function AppendAll(h: Hist, xs: seq<Tagged>): Hist {
    [h[0] + Of(xs, 0), h[1] + Of(xs, 1), h[2] + Of(xs, 2), h[3] + Of(xs, 3), h[4] + Of(xs, 4), h[5] + Of(xs, 5)]
  }

  lemma AppendAllStep(h: Hist, xs: seq<Tagged>)
    requires |xs| > 0
    ensures var x := xs[|xs| - 1];
            Append(AppendAll(h, xs[..|xs| - 1]), x.kind, x.sample) == AppendAll(h, xs)
  {
    var x := xs[|xs| - 1];
    var a := Append(AppendAll(h, xs[..|xs| - 1]), x.kind, x.sample);
    forall k: Kind
      ensures a[k] == AppendAll(h, xs)[k]
    {
    }
  }

  /** Without reaching the ceiling, recording only appends. */
  lemma {:induction false} PushAllAppends(s: TState, idx: nat, xs: seq<Tagged>)
    requires idx < |s.conns| && !s.overflowed
    requires s.collected + |xs| <= s.cfg.retention.MaxSamples() ||
             (s.cfg.retention.FailFast? && !PushAll(s, idx, xs).overflowed)
    ensures var r := PushAll(s, idx, xs);
            && r.collected == s.collected + |xs| && !r.overflowed
            && r.conns[idx].hist == AppendAll(s.conns[idx].hist, xs)
  {
    if |xs| > 0 {
      var pre := xs[..|xs| - 1];
      PushEffect(PushAll(s, idx, pre), idx, xs[|xs| - 1]);
      PushAllAppends(s, idx, pre);
      AppendAllStep(s.conns[idx].hist, xs);
    } else {
      var h := s.conns[idx].hist;
      assert forall k: Kind :: h[k] + Of(xs, k) == h[k];
      assert AppendAll(h, xs) == h;
    }
  }

  /** How many samples an item has the tracker record. */
  function Recorded(s: TState, item: Item): nat
    requires s.WF()
  {
    match item
    case Seg(seg) => |Produced(s.(now := Max(s.now, seg.ts)), seg)|
    case Tick(t) => if s.cfg.retention.FailFast? then 0 else DecayCount(s, Max(s.now, t), |s.conns|)
  }

  /** The ceiling is never met: at each item there is room, beside what aging and collection have
      left, for all it records. */
  ghost predicate NeverFull(cfg: Config, items: seq<Item>) {
    |items| > 0 ==>
      var pre, last := items[..|items| - 1], items[|items| - 1];
      && NeverFull(cfg, pre)
      && Run(cfg, pre).collected + Recorded(Run(cfg, pre), last) <= cfg.retention.MaxSamples()
  }

  ghost predicate RetainsExactly(e: TState, f: TState, horizon: u64) {
    && |e.conns| == |f.conns|
    && forall i | 0 <= i < |e.conns| :: e.conns[i].hist == AgeHist(f.conns[i].hist, horizon)
  }

  lemma AgeHistLater(h: Hist, xs: seq<Tagged>, h1: u64, h2: u64)
    requires h1 <= h2
    ensures AgeHist(AppendAll(AgeHist(h, h1), xs), h2) == AgeHist(AppendAll(h, xs), h2)
    ensures AgeHist(AgeHist(h, h1), h2) == AgeHist(h, h2)
  {
    forall k: Kind
      ensures EvictFront(EvictFront(h[k], h1, KeepMin(k)) + Of(xs, k), h2, KeepMin(k)) ==
              EvictFront(h[k] + Of(xs, k), h2, KeepMin(k))
      ensures EvictFront(EvictFront(h[k], h1, KeepMin(k)), h2, KeepMin(k)) == EvictFront(h[k], h2, KeepMin(k))
    {
      EvictFrontLater(h[k], Of(xs, k), h1, h2, KeepMin(k));
      EvictFrontLater(h[k], [], h1, h2, KeepMin(k));
      assert h[k] + [] == h[k];
      assert EvictFront(h[k], h1, KeepMin(k)) + [] == EvictFront(h[k], h1, KeepMin(k));
    }
  }

  lemma AgingRetains(e1: TState, f1: TState, e2: TState, f2: TState, idx: nat, xs: seq<Tagged>, h1: u64)
    requires idx < |e1.conns| && e2.cfg.retention.Evict?
    requires RetainsExactly(e1, f1, h1) && h1 <= Horizon(e2.now, e2.cfg.retention.horizon)
    requires |e2.conns| == |e1.conns| && e2.conns == e1.conns[idx := e2.conns[idx]]
    requires |f2.conns| == |f1.conns| && f2.conns == f1.conns[idx := f2.conns[idx]]
    requires e2.conns[idx].hist == AppendAll(e1.conns[idx].hist, xs)
    requires f2.conns[idx].hist == AppendAll(f1.conns[idx].hist, xs)
    ensures RetainsExactly(EvictSamples(e2), f2, Horizon(e2.now, e2.cfg.retention.horizon))
  {
    var h2 := Horizon(e2.now, e2.cfg.retention.horizon);
    forall i | 0 <= i < |e2.conns|
      ensures AgeHist(e2.conns[i].hist, h2) == AgeHist(f2.conns[i].hist, h2)
    {
      AgeHistLater(f1.conns[i].hist, xs, h1, h2);
    }
  }

  lemma SegmentRetains(e: TState, f: TState, seg: Segment, h1: u64)
    requires e.WF() && f.WF() && Sim(e, f) && Accounted(e)
    requires !ObserveSegment(f, seg).overflowed
    requires RetainsExactly(e, f, h1) && h1 <= Horizon(e.now, e.cfg.retention.horizon)
    requires e.collected + |Produced(e, seg)| <= e.cfg.retention.MaxSamples()
    ensures RetainsExactly(EvictSamples(ObserveSegment(e, seg)), ObserveSegment(f, seg),
                           Horizon(e.now, e.cfg.retention.horizon))
    ensures EvictSamples(ObserveSegment(e, seg)).now == e.now
  {
    SegmentSplits(e, f, seg);
    EvictingStays(e, seg);
    PlacedRetains(e, f, seg, h1);
    var e1, f1, idx, xs := Placed(e, seg), Placed(f, seg), Target(e, seg), Produced(e, seg);
    PutRetains(e1, f1, idx, xs, h1);
    assert e1.cfg == e.cfg && e1.now == e.now;
  }

  lemma PlacedRetains(e: TState, f: TState, seg: Segment, h1: u64)
    requires e.WF() && f.WF() && Sim(e, f) && RetainsExactly(e, f, h1)
    ensures RetainsExactly(Placed(e, seg), Placed(f, seg), h1)
    ensures Placed(e, seg).collected == e.collected
  {
    PlacedAgree(e, f, seg);
    PlacedRecordsNothing(e, seg);
    PlacedRecordsNothing(f, seg);
    assert AgeHist(NO_HIST, h1) == NO_HIST;
  }

  lemma PutRetains(e1: TState, f1: TState, idx: nat, xs: seq<Tagged>, h1: u64)
    requires Sim(e1, f1) && idx < |e1.conns| && !PushAll(f1, idx, xs).overflowed && !e1.overflowed
    requires RetainsExactly(e1, f1, h1) && h1 <= Horizon(e1.now, e1.cfg.retention.horizon)
    requires e1.collected + |xs| <= e1.cfg.retention.MaxSamples()
    ensures RetainsExactly(EvictSamples(PushAll(e1, idx, xs)), PushAll(f1, idx, xs),
                           Horizon(e1.now, e1.cfg.retention.horizon))
  {
    PushAllAppends(e1, idx, xs);
    PushAllAppends(f1, idx, xs);
    AgingRetains(e1, f1, PushAll(e1, idx, xs), PushAll(f1, idx, xs), idx, xs, h1);
  }

  /** Advancing the clock keeps both relations, and only raises the horizon. */
  lemma ClockKeeps(e: TState, f: TState, now: u64)
    requires Sim(e, f) && RetainsExactly(e, f, Horizon(e.now, e.cfg.retention.horizon)) && e.now <= now
    ensures Sim(e.(now := now), f.(now := now))
    ensures RetainsExactly(e.(now := now), f.(now := now), Horizon(e.now, e.cfg.retention.horizon))
    ensures Horizon(e.now, e.cfg.retention.horizon) <= Horizon(now, e.cfg.retention.horizon)
  {
  }

  /** One segment keeps retention exact, from the horizon before it to the one after. */
  lemma SegmentKeepsRetention(e0: TState, f0: TState, seg: Segment)
    requires e0.WF() && f0.WF() && Sim(e0, f0) && Accounted(e0)
    requires RetainsExactly(e0, f0, Horizon(e0.now, e0.cfg.retention.horizon))
    requires var e, f := e0.(now := Max(e0.now, seg.ts)), f0.(now := Max(f0.now, seg.ts));
             !ObserveSegment(f, seg).overflowed &&
             e.collected + |Produced(e, seg)| <= e.cfg.retention.MaxSamples()
    ensures var e, f := Step(e0, Seg(seg)), Step(f0, Seg(seg));
            RetainsExactly(e, f, Horizon(e.now, e0.cfg.retention.horizon))
  {
    var now := Max(e0.now, seg.ts);
    ClockKeeps(e0, f0, now);
    SegmentRetains(e0.(now := now), f0.(now := now), seg, Horizon(e0.now, e0.cfg.retention.horizon));
  }

  lemma RetentionStep(ce: Config, cf: Config, items: seq<Item>)
    requires |items| > 0 && SegmentsOnly(items) && NeverFull(ce, items)
    requires ce.retention.Evict? && cf.retention.FailFast? && !Run(cf, items).overflowed
    requires var e, f := Run(ce, items[..|items| - 1]), Run(cf, items[..|items| - 1]);
             Sim(e, f) && RetainsExactly(e, f, Horizon(e.now, ce.retention.horizon))
    ensures RetainsExactly(Run(ce, items), Run(cf, items), Horizon(Run(ce, items).now, ce.retention.horizon))
  {
    RunKeepsConfig(ce, items[..|items| - 1]);
    RunAccounted(ce, items[..|items| - 1]);
    LastFailFast(cf, items);
    SegmentKeepsRetention(Run(ce, items[..|items| - 1]), Run(cf, items[..|items| - 1]), items[|items| - 1].seg);
  }

  /** While the ceiling is never met, the evicting tracker holds exactly what aging the
      unbounded series at the current horizon leaves, whatever the order of timestamps. */
  lemma {:induction false} RetentionIsExact(cfg: Config, window: u64, backstop: nat, ceiling: nat, items: seq<Item>)
    requires SegmentsOnly(items)
    requires !Run(cfg.(retention := FailFast(ceiling)), items).overflowed
    requires NeverFull(cfg.(retention := Evict(window, backstop)), items)
    ensures var e := Run(cfg.(retention := Evict(window, backstop)), items);
            RetainsExactly(e, Run(cfg.(retention := FailFast(ceiling)), items), Horizon(e.now, window))
  {
    if |items| > 0 {
      var n := |items| - 1;
      var ce, cf := cfg.(retention := Evict(window, backstop)), cfg.(retention := FailFast(ceiling));
      LastFailFast(cf, items);
      EvictionNeverCorrupts(cfg, window, backstop, ceiling, items[..n]);
      RetentionIsExact(cfg, window, backstop, ceiling, items[..n]);
      RetentionStep(ce, cf, items);
    }
  }
}
