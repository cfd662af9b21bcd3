/** What a live run retains, ticks and all: as long as the ceiling leaves room for all that is ever
    recorded, each series is exactly what aging leaves of all its story tells. */
module LiveRetention {
  import opened Core
  import opened MetricSpec
  import opened TrackerSpec
  import opened TrackerLives
  import opened Recording
  import opened Walk
  import opened Accounting
  import opened Ceiling
  import opened Eviction
  import opened Attribution
  import opened DerivedSeries
  import opened SeriesFolds
  import opened Stories
  import EnoughRoom
  import Chronology
  import RetentionByTime

  // ------------------------------------------------------------------- equal once aged

  /** From horizon `h` on aging leaves the same of both. */
  ghost predicate AgeAlike(a: Hist, b: Hist, h: u64) {
    forall later: u64 | h <= later :: AgeHist(a, later) == AgeHist(b, later)
  }

  lemma AppendAlike(a: Hist, b: Hist, xs: seq<Tagged>, h: u64)
    requires AgeAlike(a, b, h)
    ensures AgeAlike(AppendAll(a, xs), AppendAll(b, xs), h)
  {
    forall later: u64 | h <= later
      ensures AgeHist(AppendAll(a, xs), later) == AgeHist(AppendAll(b, xs), later)
    {
      AgeHistLater(a, xs, later, later);
      AgeHistLater(b, xs, later, later);
    }
  }

  lemma AgedAlike(a: Hist, b: Hist, h: u64)
    requires a == AgeHist(b, h)
    ensures AgeAlike(a, b, h)
  {
    forall later: u64 | h <= later
      ensures AgeHist(a, later) == AgeHist(b, later)
    {
      AgeHistLater(b, [], h, later);
    }
  }

  // ---------------------------------------------------------------------- connections

  /** Aging leaves of the connection's series what it leaves of all its story tells. */
  ghost predicate Keeps(c: Conn, story: Story, cfg: Config, h: u64) {
    Begins(story) && AgeAlike(c.hist, StoryHist(c.life.ident.id, story, cfg), h)
  }

  /** And nothing else is held. */
  ghost predicate KeepsExactly(c: Conn, story: Story, cfg: Config, h: u64) {
    Begins(story) && c.hist == AgeHist(StoryHist(c.life.ident.id, story, cfg), h)
  }

  ghost function Keeper(cfg: Config, h: u64): (Conn, Story) -> bool {
    (c: Conn, story: Story) => Keeps(c, story, cfg, h) && Knows(c, story, cfg)
  }

  ghost function ExactKeeper(cfg: Config, h: u64): (Conn, Story) -> bool {
    (c: Conn, story: Story) => KeepsExactly(c, story, cfg, h)
  }

  lemma ExactKeeps(c: Conn, story: Story, cfg: Config, h: u64, later: u64)
    requires KeepsExactly(c, story, cfg, h) && h <= later
    ensures Keeps(c, story, cfg, later)
  {
    AgedAlike(c.hist, StoryHist(c.life.ident.id, story, cfg), h);
  }

  /** Recording an event's samples, with room for all of them. */
  lemma PushesKeep(p: TState, idx: nat, xs: seq<Tagged>, id: ConnId, story: Story, cfg: Config, h: u64)
    requires idx < |p.conns| && !p.overflowed && Begins(story) && p.conns[idx].life.ident.id == id
    requires p.collected + |xs| <= p.cfg.retention.MaxSamples()
    requires AgeAlike(p.conns[idx].hist, BeforeTold(id, story, cfg), h) && xs == Told(id, story, cfg)
    ensures Keeps(PushAll(p, idx, xs).conns[idx], story, cfg, h)
  {
    PushAllAppends(p, idx, xs);
    AppendAlike(p.conns[idx].hist, BeforeTold(id, story, cfg), xs, h);
  }

  lemma SampledKeeps(p: TState, i: nat, t: u64, story: Story, h: u64)
    requires i < |p.conns| && !p.overflowed && !Sampled(p, i, t).overflowed
    requires p.collected + |DecayPart(p.conns[i].deriv.metrics, t, p.cfg)| <= p.cfg.retention.MaxSamples()
    requires Keeps(p.conns[i], story, p.cfg, h) && Knows(p.conns[i], story, p.cfg)
    ensures Keeps(Sampled(p, i, t).conns[i], story + [Decayed(t)], p.cfg, h)
  {
    var id, m := p.conns[i].life.ident.id, p.conns[i].deriv.metrics;
    DecayOneIsPush(p, i, t);
    DecayTells(id, story, t, p.cfg);
    PushesKeep(p, i, DecayPart(m, t, p.cfg), id, story + [Decayed(t)], p.cfg, h);
  }

  lemma SamplingKeepsAll(t: u64, cfg: Config, h: u64)
    ensures KeptBySampling(Keeper(cfg, h), t, cfg, cfg.retention.MaxSamples())
  {
    forall p: TState, i: nat, story |
      && i < |p.conns| && Ready(p, i, t, cfg, cfg.retention.MaxSamples()) && !Sampled(p, i, t).overflowed
      && Keeper(cfg, h)(p.conns[i], story)
      ensures Keeper(cfg, h)(Sampled(p, i, t).conns[i], story + [Decayed(t)])
    {
      SampledKeeps(p, i, t, story, h);
      DecayKeepsKnown(p.conns[i], Sampled(p, i, t).conns[i], story, t, cfg);
    }
  }

  // ------------------------------------------------------------------------- segments

  ghost function Keeping(cfg: Config, h: u64): (Conn, Story) -> bool {
    (c: Conn, story: Story) => Keeps(c, story, cfg, h)
  }

  /** What the segment's own connection keeps. */
  lemma SegmentIsKept(s: TState, stories: seq<Story>, seg: Segment, h: u64)
    requires s.WF() && AllKnown(s.conns, stories, s.cfg) && AllHold(s.conns, stories, Keeping(s.cfg, h))
    requires !s.overflowed && s.collected + |Produced(s, seg)| <= s.cfg.retention.MaxSamples()
    ensures var r, idx, after := PushAll(Placed(s, seg), Target(s, seg), Produced(s, seg)), Target(s, seg),
                                 TellSegment(s, stories, seg);
            |after| == |r.conns| && Keeps(r.conns[idx], after[idx], s.cfg, h)
  {
    var p, idx, after := Placed(s, seg), Target(s, seg), TellSegment(s, stories, seg);
    SegmentTells(s, stories, seg);
    PlacedRecordsNothing(s, seg);
    if idx < |s.conns| {
      assert Keeping(s.cfg, h)(s.conns[idx], stories[idx]);
    }
    PushesKeep(p, idx, Produced(s, seg), p.conns[idx].life.ident.id, after[idx], s.cfg, h);
  }

  lemma AgingKeepsExactly(s: TState, stories: seq<Story>, cfg: Config)
    requires s.cfg.retention.Evict?
    requires AllHold(s.conns, stories, Keeping(cfg, Horizon(s.now, s.cfg.retention.horizon)))
    ensures AllHold(EvictSamples(s).conns, stories, ExactKeeper(cfg, Horizon(s.now, s.cfg.retention.horizon)))
  {
    var h := Horizon(s.now, s.cfg.retention.horizon);
    forall i | 0 <= i < |s.conns|
      ensures ExactKeeper(cfg, h)(EvictSamples(s).conns[i], stories[i])
    {
      assert Keeping(cfg, h)(s.conns[i], stories[i]);
    }
  }

  lemma SegmentKept(s: TState, stories: seq<Story>, seg: Segment)
    requires s.WF() && AllKnown(s.conns, stories, s.cfg) && s.cfg.retention.Evict? && Accounted(s)
    requires AllHold(s.conns, stories, Keeping(s.cfg, Horizon(s.now, s.cfg.retention.horizon)))
    requires s.collected + |Produced(s, seg)| <= s.cfg.retention.MaxSamples()
    ensures AllHold(EvictSamples(ObserveSegment(s, seg)).conns, TellSegment(s, stories, seg),
                    ExactKeeper(s.cfg, Horizon(s.now, s.cfg.retention.horizon)))
  {
    var h := Horizon(s.now, s.cfg.retention.horizon);
    ObserveSegmentAccounted(s, seg);
    EvictingStays(s, seg);
    ObserveSegmentIsPut(s, seg);
    SegmentIsKept(s, stories, seg, h);
    SegmentHolds(s, stories, seg, ObserveSegment(s, seg), Keeping(s.cfg, h));
    AgingKeepsExactly(ObserveSegment(s, seg), TellSegment(s, stories, seg), s.cfg);
  }

  // ---------------------------------------------------------------------------- ticks

  lemma KeptAndKnown(conns: seq<Conn>, stories: seq<Story>, cfg: Config, h: u64)
    requires AllHold(conns, stories, Keeping(cfg, h)) && AllKnown(conns, stories, cfg)
    ensures AllHold(conns, stories, Keeper(cfg, h))
  {
    forall i | 0 <= i < |conns|
      ensures Keeper(cfg, h)(conns[i], stories[i])
    {
      assert Keeping(cfg, h)(conns[i], stories[i]) && Knows(conns[i], stories[i], cfg);
    }
  }

  lemma KeeperKeeps(conns: seq<Conn>, stories: seq<Story>, cfg: Config, h: u64)
    requires AllHold(conns, stories, Keeper(cfg, h))
    ensures AllHold(conns, stories, Keeping(cfg, h))
  {
    forall i | 0 <= i < |conns|
      ensures Keeping(cfg, h)(conns[i], stories[i])
    {
      assert Keeper(cfg, h)(conns[i], stories[i]);
    }
  }

  /** What a tick samples depends on its time, not on the clock it finds. */
  lemma {:induction false} SameCount(s: TState, now: u64, n: nat)
    requires n <= |s.conns|
    ensures DecayCount(s.(now := now), now, n) == DecayCount(s, now, n)
  {
    if n > 0 {
      SameCount(s, now, n - 1);
    }
  }

  lemma TickKept(s: TState, stories: seq<Story>, t: u64, now: u64)
    requires s.WF() && AllKnown(s.conns, stories, s.cfg) && s.cfg.retention.Evict? && Accounted(s)
    requires now == Max(s.now, t)
    requires AllHold(s.conns, stories, Keeping(s.cfg, Horizon(now, s.cfg.retention.horizon)))
    requires s.collected + DecayCount(s, now, |s.conns|) <= s.cfg.retention.MaxSamples()
    ensures AllHold(ObserveTick(s, t).conns, TellTick(s, stories, t),
                    ExactKeeper(s.cfg, Horizon(now, s.cfg.retention.horizon)))
  {
    var s1, h := s.(now := now), Horizon(now, s.cfg.retention.horizon);
    var after := TellDecay(Lives(s.conns), stories, now, s.cfg.deadAfter, |stories|);
    SamplingKeepsAll(now, s.cfg, h);
    KeptAndKnown(s.conns, stories, s.cfg, h);
    SameCount(s, now, |s.conns|);
    DecayHolds(s1, stories, now, |s.conns|, Keeper(s.cfg, h), s.cfg.retention.MaxSamples());
    KeeperKeeps(EmitDecay(s1, now).conns, after, s.cfg, h);
    AgingKeepsExactly(EmitDecay(s1, now), after, s.cfg);
    CollectionHolds(s, stories, t, after, ExactKeeper(s.cfg, h));
  }

  // ------------------------------------------------------------------------ whole runs

  /** The horizon only moves forward, and what was exact before is kept. */
  lemma LaterKeeps(s: TState, stories: seq<Story>, cfg: Config, now: u64)
    requires cfg.retention.Evict? && s.now <= now
    requires AllHold(s.conns, stories, ExactKeeper(cfg, Horizon(s.now, cfg.retention.horizon)))
    ensures AllHold(s.conns, stories, Keeping(cfg, Horizon(now, cfg.retention.horizon)))
  {
    var h, later := Horizon(s.now, cfg.retention.horizon), Horizon(now, cfg.retention.horizon);
    forall i | 0 <= i < |s.conns|
      ensures Keeping(cfg, later)(s.conns[i], stories[i])
    {
      assert ExactKeeper(cfg, h)(s.conns[i], stories[i]);
      ExactKeeps(s.conns[i], stories[i], cfg, h, later);
    }
  }

  /** Every connection retains what aging at the present horizon leaves of its whole story. */
  ghost predicate AllExact(cfg: Config, items: seq<Item>)
    requires cfg.retention.Evict?
  {
    var s := Run(cfg, items);
    AllHold(s.conns, StoriesOf(cfg, items), ExactKeeper(cfg, Horizon(s.now, cfg.retention.horizon)))
  }

  lemma SegmentExact(cfg: Config, items: seq<Item>)
    requires cfg.retention.Evict? && |items| > 0 && items[|items| - 1].Seg?
    requires AllExact(cfg, items[..|items| - 1]) && NeverFull(cfg, items)
    ensures AllExact(cfg, items)
  {
    var pre, seg := items[..|items| - 1], items[|items| - 1].seg;
    var s := BeforeLast(cfg, items);
    RunKeepsConfig(cfg, pre);
    RunAccounted(cfg, pre);
    StoriesAreKnown(cfg, pre);
    LaterKeeps(Run(cfg, pre), StoriesOf(cfg, pre), cfg, s.now);
    SegmentKept(s, StoriesOf(cfg, pre), seg);
    SegmentLives(s, seg);
  }

  lemma TickExact(cfg: Config, items: seq<Item>)
    requires cfg.retention.Evict? && |items| > 0 && items[|items| - 1].Tick?
    requires AllExact(cfg, items[..|items| - 1]) && NeverFull(cfg, items)
    ensures AllExact(cfg, items)
  {
    var pre, t := items[..|items| - 1], items[|items| - 1].t;
    RunKeepsConfig(cfg, pre);
    RunAccounted(cfg, pre);
    StoriesAreKnown(cfg, pre);
    TickStaysExact(Run(cfg, pre), StoriesOf(cfg, pre), t);
    TickClock(Run(cfg, pre), t);
  }

  lemma TickStaysExact(s: TState, stories: seq<Story>, t: u64)
    requires s.WF() && AllKnown(s.conns, stories, s.cfg) && s.cfg.retention.Evict? && Accounted(s)
    requires AllHold(s.conns, stories, ExactKeeper(s.cfg, Horizon(s.now, s.cfg.retention.horizon)))
    requires s.collected + DecayCount(s, Max(s.now, t), |s.conns|) <= s.cfg.retention.MaxSamples()
    ensures AllHold(ObserveTick(s, t).conns, TellTick(s, stories, t),
                    ExactKeeper(s.cfg, Horizon(Max(s.now, t), s.cfg.retention.horizon)))
  {
    var now := Max(s.now, t);
    LaterKeeps(s, stories, s.cfg, now);
    TickKept(s, stories, t, now);
  }

  lemma TickClock(s: TState, t: u64)
    requires s.WF() && s.cfg.retention.Evict?
    ensures ObserveTick(s, t).now == Max(s.now, t)
  {
    TickLives(s, t);
  }

  /** As long as the ceiling is never met, and whatever the order of segments and ticks, a live
      run retains exactly what aging at its horizon leaves of each connection's whole story:
      however much has been recorded, aged and collected before. */
  lemma {:induction false} LiveRetentionIsExact(cfg: Config, items: seq<Item>)
    requires cfg.retention.Evict? && NeverFull(cfg, items)
    ensures AllExact(cfg, items)
  {
    if |items| > 0 {
      LiveRetentionIsExact(cfg, items[..|items| - 1]);
      if items[|items| - 1].Seg? {
        SegmentExact(cfg, items);
      } else {
        TickExact(cfg, items);
      }
    }
  }

  // ---------------------------------------------------------- ceilings that are never met

  function SegmentCount(items: seq<Item>): nat {
    if |items| == 0 then 0 else SegmentCount(items[..|items| - 1]) + if items[|items| - 1].Seg? then 1 else 0
  }

  /** No stream records more: at each segment its most, at each tick four samples for each
      segment before it. */
  function MostHeld(items: seq<Item>): nat {
    if |items| == 0 then 0
    else
      var pre, last := items[..|items| - 1], items[|items| - 1];
      MostHeld(pre) + if last.Seg? then MostSamples(last.seg) else 4 * SegmentCount(pre)
  }

  lemma RetentionShrinks(s: TState)
    requires Accounted(s) && s.cfg.retention.Evict?
    ensures EvictSamples(s).collected <= s.collected
    ensures s.WF() ==> EvictDead(s).collected <= s.collected && |EvictDead(s).conns| <= |s.conns|
  {
    SumsShrink(s.conns, EvictSamples(s).conns);
    SurvivorsHoldLess(s.conns, s.now, Horizon(s.now, s.cfg.retention.horizon), s.cfg.deadAfter);
  }

  lemma SegmentHeld(s: TState, seg: Segment)
    requires s.WF() && Accounted(s) && s.cfg.retention.Evict?
    ensures var r := EvictSamples(ObserveSegment(s, seg));
            r.collected <= s.collected + MostSamples(seg) && |r.conns| <= |s.conns| + 1
  {
    EnoughRoom.SegmentGrows(s, seg);
    ObserveSegmentAccounted(s, seg);
    RetentionShrinks(ObserveSegment(s, seg));
    SegmentLives(s, seg);
  }

  lemma TickHeld(s: TState, t: u64)
    requires s.WF() && Accounted(s) && s.cfg.retention.Evict?
    ensures var r := ObserveTick(s, t);
            r.collected <= s.collected + 4 * |s.conns| && |r.conns| <= |s.conns|
  {
    var s1 := s.(now := Max(s.now, t));
    var s2 := EmitDecay(s1, s1.now);
    EnoughRoom.DecayGrows(s1, s1.now, |s1.conns|);
    DecayAccounted(s1, s1.now, |s1.conns|);
    RetentionShrinks(s2);
    EvictionAccounted(s2);
    RetentionShrinks(EvictSamples(s2));
  }

  lemma {:induction false} HeldAtMost(cfg: Config, items: seq<Item>)
    requires cfg.retention.Evict?
    ensures Run(cfg, items).collected <= MostHeld(items) && |Run(cfg, items).conns| <= SegmentCount(items)
  {
    if |items| > 0 {
      var pre, last := items[..|items| - 1], items[|items| - 1];
      HeldAtMost(cfg, pre);
      RunKeepsConfig(cfg, pre);
      RunAccounted(cfg, pre);
      match last
      case Seg(seg) => SegmentHeld(BeforeLast(cfg, items), seg);
      case Tick(t) => TickHeld(Run(cfg, pre), t);
    }
  }

  lemma ProducesAtMost(s: TState, seg: Segment)
    requires s.WF()
    ensures |Produced(s, seg)| <= MostSamples(seg)
  {
    if Joins(s, seg) {
      var c := s.conns[s.live[seg.Pair()]];
      var l := c.life.Join(seg);
      DerivedAtMost(c.deriv, l.ident.id, seg, l.ident.DirectionOf(seg.src), s.cfg);
    } else {
      var l := Opened(s, seg).conns[|s.conns|].life;
      DerivedAtMost(NO_DERIV, l.ident.id, seg, l.ident.DirectionOf(seg.src), s.cfg);
    }
  }

  lemma DerivedAtMost(d: Deriv, id: ConnId, seg: Segment, dir: Direction, cfg: Config)
    ensures |Derived(d, id, seg, dir, cfg)| <= 7 + |seg.sackLefts|
  {
    var sample := ObserveSample(d.metrics, seg, dir, cfg);
    DetailAtMost(d.(metrics := ObserveState(d.metrics, seg, dir, cfg)), seg, dir, sample, cfg);
  }

  lemma DetailAtMost(d: Deriv, seg: Segment, dir: Direction, sample: Sample, cfg: Config)
    requires sample.MetricSample?
    ensures |DetailSamples(d, seg, dir, sample, cfg)| <= 6 + |seg.sackLefts|
  {
    SeqPointsSound(d.unwrap, seg, dir, sample.retransmit, sample.outOfOrder);
    RatesSound(d.metrics, seg.ts, cfg.throughputWindow);
  }

  lemma DecaySize(m: PerDir<DirState>, t: u64, cfg: Config)
    ensures |DecayPart(m, t, cfg)| <= 4
  {
    RatesSound(m, t, cfg.throughputWindow);
  }

  lemma {:induction false} CountAtMost(s: TState, t: u64, n: nat)
    requires n <= |s.conns|
    ensures DecayCount(s, t, n) <= 4 * n
  {
    if n > 0 {
      CountAtMost(s, t, n - 1);
      DecaySize(s.conns[n - 1].deriv.metrics, t, s.cfg);
    }
  }

  lemma RecordsAtMost(s: TState, item: Item)
    requires s.WF()
    ensures Recorded(s, item) <= if item.Seg? then MostSamples(item.seg) else 4 * |s.conns|
  {
    match item
    case Seg(seg) => ProducesAtMost(s.(now := Max(s.now, seg.ts)), seg);
    case Tick(t) => CountAtMost(s, Max(s.now, t), |s.conns|);
  }

  /** A ceiling with room for all the stream could ever record is never met. */
  lemma {:induction false} RoomForAllIsNeverFull(cfg: Config, items: seq<Item>)
    requires cfg.retention.Evict? && MostHeld(items) <= cfg.retention.ceiling
    ensures NeverFull(cfg, items)
  {
    if |items| > 0 {
      var pre, last := items[..|items| - 1], items[|items| - 1];
      RoomForAllIsNeverFull(cfg, pre);
      HeldAtMost(cfg, pre);
      RecordsAtMost(Run(cfg, pre), last);
    }
  }

  // -------------------------------------------------------------------- by time alone

  lemma YieldSound(id: ConnId, log: Log, cfg: Config)
    requires |log| > 0
    ensures AreSound(Yield(id, log, cfg), log[|log| - 1].ts)
  {
    var o := LastObs(id, log);
    DerivedSound(BeforeLastDeriv(id, log, cfg), id, o.seg, o.dir, cfg);
  }

  /** Every event's samples are sound ones of its time. */
  lemma ToldSound(id: ConnId, story: Story, cfg: Config)
    requires Begins(story)
    ensures AreSound(Told(id, story, cfg), When(story[|story| - 1]))
  {
    LogBefore(story);
    match story[|story| - 1]
    case Heard(_) => YieldSound(id, LogOf(story), cfg);
    case Decayed(t) => DecaySound(DerivRun(id, LogOf(story), cfg).metrics, t, cfg);
  }

  lemma {:induction false} OfAt(xs: seq<Tagged>, k: Kind, t: u64)
    requires AreSound(xs, t)
    ensures forall x | x in Of(xs, k) :: x.t == t
  {
    if |xs| > 0 {
      OfAt(xs[..|xs| - 1], k, t);
    }
  }

  lemma AppendInTime(a: seq<Sample>, b: seq<Sample>, t: u64)
    requires Sorted(a) && NoLaterThan(a, t) && forall x | x in b :: x.t == t
    ensures Sorted(a + b) && NoLaterThan(a + b, t)
  {
  }

  /** So what a story in order tells is in order. */
  lemma {:induction false} StoryInTime(id: ConnId, story: Story, cfg: Config, k: Kind)
    requires Begins(story) && InTime(story)
    ensures Sorted(StoryHist(id, story, cfg)[k]) && NoLaterThan(StoryHist(id, story, cfg)[k], When(story[|story| - 1]))
  {
    if |story| > 1 {
      BeforeToldIs(id, story, cfg);
      StoryInTime(id, story[..|story| - 1], cfg, k);
    }
    LastInTime(id, story, cfg, k);
  }

  lemma LastInTime(id: ConnId, story: Story, cfg: Config, k: Kind)
    requires Begins(story)
    requires var was := BeforeTold(id, story, cfg)[k]; Sorted(was) && NoLaterThan(was, When(story[|story| - 1]))
    ensures var now := StoryHist(id, story, cfg)[k]; Sorted(now) && NoLaterThan(now, When(story[|story| - 1]))
  {
    var t := When(story[|story| - 1]);
    ToldSound(id, story, cfg);
    OfAt(Told(id, story, cfg), k, t);
    ToldAt(id, story, cfg, k);
    AppendInTime(BeforeTold(id, story, cfg)[k], Of(Told(id, story, cfg), k), t);
  }

  /** And where no segment comes before an earlier item, that is each connection's samples of the
      last window, from segments and ticks alike, and of its states at least the last. */
  lemma LiveRetainsLastWindow(cfg: Config, items: seq<Item>, i: nat, k: Kind)
    requires cfg.retention.Evict? && NeverFull(cfg, items)
    requires Chronology.SegmentsInTime(items) && i < |Run(cfg, items).conns|
    ensures Begins(StoriesOf(cfg, items)[i])
    ensures var s := Run(cfg, items);
            var c := s.conns[i];
            c.hist[k] == RetentionByTime.LastWindow(StoryHist(c.life.ident.id, StoriesOf(cfg, items)[i], cfg)[k], k,
                                                Horizon(s.now, cfg.retention.horizon))
            && RetentionByTime.KeepsRecent(c.hist[k], StoryHist(c.life.ident.id, StoriesOf(cfg, items)[i], cfg)[k], k,
                                           s.now, cfg.retention.horizon)
  {
    var s, story, h := Run(cfg, items), StoriesOf(cfg, items)[i], Horizon(Run(cfg, items).now, cfg.retention.horizon);
    var id := s.conns[i].life.ident.id;
    LiveRetentionIsExact(cfg, items);
    StoriesAreDated(cfg, items, true);
    assert ExactKeeper(cfg, h)(s.conns[i], story);
    StoryInTime(id, story, cfg, k);
    AgedSeries(StoryHist(id, story, cfg), h, k);
    RetentionByTime.EvictFrontIsSince(StoryHist(id, story, cfg)[k], h, KeepMin(k));
    RetentionByTime.LastWindowIsRecent(StoryHist(id, story, cfg)[k], k, s.now, cfg.retention.horizon);
  }
}
