/** The series of a live run.  A connection's story is its log with the ticks that sampled its
    decay in between; under eviction, whatever the order of segments and ticks, each retained
    series is the end of what the story tells, and in a replay all of it. */
module Stories {
  import opened Core
  import opened MetricSpec
  import opened Lifecycle
  import opened TrackerSpec
  import opened TrackerLives
  import opened Recording
  import opened Accounting
  import opened Ceiling
  import opened Eviction
  import opened Attribution
  import opened SeriesFolds
  import opened Chronology
  import StateSeries

  datatype Event = Heard(seg: Segment) | Decayed(t: u64)

  type Story = seq<Event>

  function When(e: Event): u64 { if e.Heard? then e.seg.ts else e.t }

  predicate Begins(story: Story) { |story| > 0 && story[0].Heard? }

  /** The segments of a story. */
  function LogOf(story: Story): (log: Log)
    ensures Begins(story) ==> |log| > 0
  {
    if |story| == 0 then []
    else
      var last := story[|story| - 1];
      LogOf(story[..|story| - 1]) + if last.Heard? then [last.seg] else []
  }

  // ------------------------------------------------------------------ what stories tell

  /** The samples the last event of a story adds. */
  function Told(id: ConnId, story: Story, cfg: Config): seq<Tagged>
    requires Begins(story)
  {
    match story[|story| - 1]
    case Heard(_) => Yield(id, LogOf(story), cfg)
    case Decayed(t) => DecayPart(DerivRun(id, LogOf(story), cfg).metrics, t, cfg)
  }

  /** The six series before the last event, and after it. */
  ghost function BeforeTold(id: ConnId, story: Story, cfg: Config): Hist
    requires Begins(story)
    decreases |story|, 0
  {
    if |story| == 1 then NO_HIST else StoryHist(id, story[..|story| - 1], cfg)
  }

  ghost function StoryHist(id: ConnId, story: Story, cfg: Config): Hist
    requires Begins(story)
    decreases |story|, 1
  {
    AppendAll(BeforeTold(id, story, cfg), Told(id, story, cfg))
  }

  lemma StoryGoesOn(story: Story, e: Event)
    ensures LogOf(story + [e]) == if e.Heard? then LogOf(story) + [e.seg] else LogOf(story)
    ensures forall id, cfg | Begins(story) :: BeforeTold(id, story + [e], cfg) == StoryHist(id, story, cfg)
  {
    assert (story + [e])[..|story|] == story;
  }

  // --------------------------------------------------------------- the stories of a run

  ghost function TellSegment(s: TState, stories: seq<Story>, seg: Segment): (r: seq<Story>)
    requires s.WF() && |stories| == |s.conns|
  {
    if Joins(s, seg) then
      var i := s.live[seg.Pair()];
      stories[i := stories[i] + [Heard(seg)]]
    else stories + [[Heard(seg)]]
  }

  /** Of the first `n` connections those that are not idle are sampled at `t`. */
  ghost function TellDecay(lives: seq<Life>, stories: seq<Story>, t: u64, deadAfter: u64, n: nat): (r: seq<Story>)
    requires |stories| == |lives|
    ensures |r| == |stories|
  {
    seq(|stories|, i requires 0 <= i < |stories| =>
          if i < n && SatSub(t, lives[i].traffic.lastAt) <= deadAfter then stories[i] + [Decayed(t)]
          else stories[i])
  }

  ghost function TellTick(s: TState, stories: seq<Story>, t: u64): (r: seq<Story>)
    requires s.WF() && |stories| == |s.conns|
    ensures |r| == |ObserveTick(s, t).conns|
  {
    if s.cfg.retention.FailFast? then stories
    else
      var b := BeforeCollection(s, t);
      LogCollect(b.conns, TellDecay(Lives(s.conns), stories, b.now, s.cfg.deadAfter, |stories|), b.now,
                 Horizon(b.now, b.cfg.retention.horizon), b.cfg.deadAfter)
  }

  /** For each tracked connection, its segments and the ticks that sampled it, in order. */
  ghost function StoriesOf(cfg: Config, items: seq<Item>): (stories: seq<Story>)
    ensures |stories| == |Run(cfg, items).conns|
  {
    if |items| == 0 then []
    else
      var n := |items| - 1;
      var s, stories := Run(cfg, items[..n]), StoriesOf(cfg, items[..n]);
      match items[n]
      case Seg(seg) =>
        SegmentLives(s.(now := Max(s.now, seg.ts)), seg);
        TellSegment(s.(now := Max(s.now, seg.ts)), stories, seg)
      case Tick(t) => TellTick(s, stories, t)
  }

  ghost predicate TellLogs(stories: seq<Story>, logs: seq<Log>) {
    && |stories| == |logs|
    && forall i | 0 <= i < |logs| :: Begins(stories[i]) && LogOf(stories[i]) == logs[i]
  }

  lemma SegmentTellsLogs(s: TState, stories: seq<Story>, logs: seq<Log>, seg: Segment)
    requires s.WF() && |logs| == |s.conns| && TellLogs(stories, logs)
    ensures TellLogs(TellSegment(s, stories, seg), LogSegment(s, logs, seg))
  {
    if Joins(s, seg) {
      StoryGoesOn(stories[s.live[seg.Pair()]], Heard(seg));
    } else {
      StoryGoesOn([], Heard(seg));
    }
  }

  lemma DecayTellsLogs(lives: seq<Life>, stories: seq<Story>, logs: seq<Log>, t: u64, deadAfter: u64, n: nat)
    requires |stories| == |lives| && TellLogs(stories, logs)
    ensures TellLogs(TellDecay(lives, stories, t, deadAfter, n), logs)
  {
    forall i | 0 <= i < |stories|
      ensures LogOf(stories[i] + [Decayed(t)]) == logs[i] && Begins(stories[i] + [Decayed(t)])
    {
      StoryGoesOn(stories[i], Decayed(t));
    }
  }

  lemma {:induction false} CollectTellsLogs(conns: seq<Conn>, stories: seq<Story>, logs: seq<Log>,
                                            now: u64, horizon: u64, deadAfter: u64)
    requires |logs| == |conns| && TellLogs(stories, logs)
    ensures TellLogs(LogCollect(conns, stories, now, horizon, deadAfter),
                     LogCollect(conns, logs, now, horizon, deadAfter))
  {
    if |conns| > 0 {
      var n := |conns| - 1;
      CollectTellsLogs(conns[..n], stories[..n], logs[..n], now, horizon, deadAfter);
    }
  }

  /** A story's segments are the connection's log. */
  lemma {:induction false} StoriesTellLogs(cfg: Config, items: seq<Item>)
    ensures TellLogs(StoriesOf(cfg, items), Logs(cfg, items))
  {
    if |items| > 0 {
      var n := |items| - 1;
      var s, stories, logs := Run(cfg, items[..n]), StoriesOf(cfg, items[..n]), Logs(cfg, items[..n]);
      StoriesTellLogs(cfg, items[..n]);
      match items[n]
      case Seg(seg) => SegmentTellsLogs(s.(now := Max(s.now, seg.ts)), stories, logs, seg);
      case Tick(t) => TickTellsLogs(s, stories, logs, t);
    }
  }

  lemma TickTellsLogs(s: TState, stories: seq<Story>, logs: seq<Log>, t: u64)
    requires s.WF() && |logs| == |s.conns| && TellLogs(stories, logs)
    ensures TellLogs(TellTick(s, stories, t), LogTick(s, logs, t))
  {
    if s.cfg.retention.Evict? {
      var b := BeforeCollection(s, t);
      DecayTellsLogs(Lives(s.conns), stories, logs, b.now, s.cfg.deadAfter, |stories|);
      CollectTellsLogs(b.conns, TellDecay(Lives(s.conns), stories, b.now, s.cfg.deadAfter, |stories|), logs,
                       b.now, Horizon(b.now, b.cfg.retention.horizon), b.cfg.deadAfter);
    }
  }

  // --------------------------------------------------- the retained series are its ends

  /** The story's segments give the connection its life and its derived state. */
  ghost predicate Knows(c: Conn, story: Story, cfg: Config) {
    && Begins(story) && IsFoldOf(c.life, LogOf(story))
    && c.deriv == DerivRun(c.life.ident.id, LogOf(story), cfg)
  }

  ghost predicate AllKnown(conns: seq<Conn>, stories: seq<Story>, cfg: Config) {
    |stories| == |conns| && forall i | 0 <= i < |conns| :: Knows(conns[i], stories[i], cfg)
  }

  /** What connection `c` retains is the end of what its story tells. */
  ghost predicate IsTold(c: Conn, story: Story, cfg: Config) {
    Begins(story) && HistSuffix(c.hist, StoryHist(c.life.ident.id, story, cfg))
  }

  ghost predicate AllTold(conns: seq<Conn>, stories: seq<Story>, cfg: Config) {
    |stories| == |conns| && forall i | 0 <= i < |conns| :: IsTold(conns[i], stories[i], cfg)
  }

  lemma {:induction false} PushAllSuffix(p: TState, idx: nat, xs: seq<Tagged>, g: Hist)
    requires idx < |p.conns| && !PushAll(p, idx, xs).overflowed && HistSuffix(p.conns[idx].hist, g)
    ensures HistSuffix(PushAll(p, idx, xs).conns[idx].hist, AppendAll(g, xs))
  {
    if |xs| == 0 {
      AppendNothing(g);
    } else {
      var pre, x := xs[..|xs| - 1], xs[|xs| - 1];
      var q := PushAll(p, idx, pre);
      PushEffect(q, idx, x);
      PushAllSuffix(p, idx, pre, g);
      RoomAppendSuffix(q, q.conns[idx].hist, AppendAll(g, pre), x.kind, x.sample);
      AppendAllStep(g, xs);
    }
  }

  lemma AppendNothing(g: Hist)
    ensures AppendAll(g, []) == g
  {
    assert forall k: Kind :: g[k] + Of([], k) == g[k];
  }

  /** Recording an event's samples keeps the connection told. */
  lemma PushesAreTold(p: TState, idx: nat, xs: seq<Tagged>, id: ConnId, story: Story, cfg: Config)
    requires idx < |p.conns| && !PushAll(p, idx, xs).overflowed && Begins(story)
    requires HistSuffix(p.conns[idx].hist, BeforeTold(id, story, cfg)) && xs == Told(id, story, cfg)
    requires p.conns[idx].life.ident.id == id
    ensures IsTold(PushAll(p, idx, xs).conns[idx], story, cfg)
  {
    PushAllSuffix(p, idx, xs, BeforeTold(id, story, cfg));
  }

  lemma JoinTells(s: TState, idx: nat, story: Story, seg: Segment)
    requires idx < |s.conns| && Knows(s.conns[idx], story, s.cfg)
    ensures var id, after := s.conns[idx].life.ident.id, story + [Heard(seg)];
            && ProducedJoin(s, idx, seg) == Told(id, after, s.cfg)
            && BeforeTold(id, after, s.cfg) == StoryHist(id, story, s.cfg)
  {
    JoinYields(s, idx, LogOf(story), seg);
    StoryGoesOn(story, Heard(seg));
  }

  lemma OpenTells(s: TState, seg: Segment)
    ensures var id, after := ConnId(seg.Pair(), NextInstance(s, seg.Pair())), [Heard(seg)];
            ProducedOpen(s, seg) == Told(id, after, s.cfg) && BeforeTold(id, after, s.cfg) == NO_HIST
  {
    StoryGoesOn([], Heard(seg));
    OpenYields(s, seg);
  }

  /** The story of the segment's connection tells just what the segment produces. */
  lemma SegmentTells(s: TState, stories: seq<Story>, seg: Segment)
    requires s.WF() && AllKnown(s.conns, stories, s.cfg)
    ensures var p, idx, after := Placed(s, seg), Target(s, seg), TellSegment(s, stories, seg);
            var id := p.conns[idx].life.ident.id;
            && |after| == |p.conns| && Begins(after[idx]) && Produced(s, seg) == Told(id, after[idx], s.cfg)
            && if idx < |s.conns|
               then && id == s.conns[idx].life.ident.id && p.conns[idx].hist == s.conns[idx].hist
                    && Begins(stories[idx]) && BeforeTold(id, after[idx], s.cfg) == StoryHist(id, stories[idx], s.cfg)
               else p.conns[idx].hist == NO_HIST && BeforeTold(id, after[idx], s.cfg) == NO_HIST
  {
    if Joins(s, seg) {
      var i := s.live[seg.Pair()];
      assert Knows(s.conns[i], stories[i], s.cfg);
      JoinTells(s, i, stories[i], seg);
    } else {
      OpenTells(s, seg);
    }
  }

  ghost predicate AllHold(conns: seq<Conn>, stories: seq<Story>, holds: (Conn, Story) -> bool) {
    |stories| == |conns| && forall i | 0 <= i < |conns| :: holds(conns[i], stories[i])
  }

  /** A segment touches no connection and no story but its own. */
  lemma SegmentHolds(s: TState, stories: seq<Story>, seg: Segment, r: TState, holds: (Conn, Story) -> bool)
    requires s.WF() && AllHold(s.conns, stories, holds)
    requires r == PushAll(Placed(s, seg), Target(s, seg), Produced(s, seg))
    requires var after := TellSegment(s, stories, seg);
             |after| == |r.conns| && holds(r.conns[Target(s, seg)], after[Target(s, seg)])
    ensures AllHold(r.conns, TellSegment(s, stories, seg), holds)
  {
    var idx, after := Target(s, seg), TellSegment(s, stories, seg);
    forall i | 0 <= i < |r.conns|
      ensures holds(r.conns[i], after[i])
    {
      if i != idx {
        assert r.conns[i] == s.conns[i] && after[i] == stories[i] && holds(s.conns[i], stories[i]);
      }
    }
  }

  lemma AgingKeepsTold(s: TState, stories: seq<Story>, cfg: Config)
    requires AllTold(s.conns, stories, cfg)
    ensures AllTold(EvictSamples(s).conns, stories, cfg)
  {
    if s.cfg.retention.Evict? {
      forall i | 0 <= i < |s.conns|
        ensures IsTold(EvictSamples(s).conns[i], stories[i], cfg)
      {
        assert IsTold(s.conns[i], stories[i], cfg);
        AgedIsSuffix(s.conns[i].hist, StoryHist(s.conns[i].life.ident.id, stories[i], cfg),
                     Horizon(s.now, s.cfg.retention.horizon));
      }
    }
  }

  ghost function ToldBy(cfg: Config): (Conn, Story) -> bool { (c: Conn, story: Story) => IsTold(c, story, cfg) }

  lemma ToldByIsTold(conns: seq<Conn>, stories: seq<Story>, cfg: Config)
    ensures AllHold(conns, stories, ToldBy(cfg)) <==> AllTold(conns, stories, cfg)
  {
    if AllHold(conns, stories, ToldBy(cfg)) {
      forall i | 0 <= i < |conns|
        ensures IsTold(conns[i], stories[i], cfg)
      {
        assert ToldBy(cfg)(conns[i], stories[i]);
      }
    }
  }

  lemma SegmentIsTold(s: TState, stories: seq<Story>, seg: Segment)
    requires s.WF() && AllTold(s.conns, stories, s.cfg) && AllKnown(s.conns, stories, s.cfg)
    requires !PushAll(Placed(s, seg), Target(s, seg), Produced(s, seg)).overflowed
    ensures var r, idx, after := PushAll(Placed(s, seg), Target(s, seg), Produced(s, seg)), Target(s, seg),
                                 TellSegment(s, stories, seg);
            |after| == |r.conns| && IsTold(r.conns[idx], after[idx], s.cfg)
  {
    var p, idx, after := Placed(s, seg), Target(s, seg), TellSegment(s, stories, seg);
    SegmentTells(s, stories, seg);
    if idx < |s.conns| {
      assert IsTold(s.conns[idx], stories[idx], s.cfg);
    }
    PushesAreTold(p, idx, Produced(s, seg), p.conns[idx].life.ident.id, after[idx], s.cfg);
  }

  lemma SegmentTold(s: TState, stories: seq<Story>, seg: Segment)
    requires s.WF() && AllTold(s.conns, stories, s.cfg) && AllKnown(s.conns, stories, s.cfg)
    requires !ObserveSegment(s, seg).overflowed
    ensures AllTold(EvictSamples(ObserveSegment(s, seg)).conns, TellSegment(s, stories, seg), s.cfg)
  {
    var after := TellSegment(s, stories, seg);
    ObserveSegmentIsPut(s, seg);
    SegmentIsTold(s, stories, seg);
    ToldByIsTold(s.conns, stories, s.cfg);
    SegmentHolds(s, stories, seg, ObserveSegment(s, seg), ToldBy(s.cfg));
    ToldByIsTold(ObserveSegment(s, seg).conns, after, s.cfg);
    AgingKeepsTold(ObserveSegment(s, seg), after, s.cfg);
  }

  // ------------------------------------------------------------------------- ticks

  lemma DecayOneIsPush(p: TState, i: nat, t: u64)
    requires i < |p.conns| && !p.overflowed
    requires !CollectInFlightAt(CollectThroughputAt(p, i, t), i, t).overflowed
    ensures CollectInFlightAt(CollectThroughputAt(p, i, t), i, t) ==
            PushAll(p, i, DecayPart(p.conns[i].deriv.metrics, t, p.cfg))
  {
    var m := p.conns[i].deriv.metrics;
    var rates, readings := ThroughputPart(m, t, p.cfg), InFlightPart(m, t, p.cfg);
    assert CollectThroughputAt(p, i, t) == PushAll(p, i, rates);
    assert PushAll(p, i, rates).conns[i].deriv == p.conns[i].deriv;
    PushAllConcat(p, i, rates, readings);
  }

  lemma DecayTells(id: ConnId, story: Story, t: u64, cfg: Config)
    requires Begins(story)
    ensures var after := story + [Decayed(t)];
            && Begins(after) && BeforeTold(id, after, cfg) == StoryHist(id, story, cfg)
            && Told(id, after, cfg) == DecayPart(DerivRun(id, LogOf(story), cfg).metrics, t, cfg)
  {
    StoryGoesOn(story, Decayed(t));
  }

  /** `q` is `p` with connection `i` sampled. */
  lemma DecayOneTold(p: TState, q: TState, i: nat, t: u64, story: Story)
    requires i < |p.conns| && IsTold(p.conns[i], story, p.cfg)
    requires p.conns[i].deriv == DerivRun(p.conns[i].life.ident.id, LogOf(story), p.cfg)
    requires q == PushAll(p, i, DecayPart(p.conns[i].deriv.metrics, t, p.cfg)) && !q.overflowed
    ensures IsTold(q.conns[i], story + [Decayed(t)], p.cfg)
  {
    var id := p.conns[i].life.ident.id;
    DecayTells(id, story, t, p.cfg);
    PushesAreTold(p, i, DecayPart(p.conns[i].deriv.metrics, t, p.cfg), id, story + [Decayed(t)], p.cfg);
  }

  // what sampling one connection keeps, sampling all of them and collecting some keeps

  function Sampled(p: TState, i: nat, t: u64): (q: TState)
    requires i < |p.conns|
    ensures Records(p, q, i)
  {
    CollectInFlightAt(CollectThroughputAt(p, i, t), i, t)
  }

  /** Sampling keeps it, as long as no more than `most` samples are held afterwards. */
  ghost predicate KeptBySampling(holds: (Conn, Story) -> bool, t: u64, cfg: Config, most: nat) {
    forall p: TState, i: nat, story {:trigger Sampled(p, i, t), holds(p.conns[i], story)} |
      i < |p.conns| && Ready(p, i, t, cfg, most) && !Sampled(p, i, t).overflowed && holds(p.conns[i], story) ::
      holds(Sampled(p, i, t).conns[i], story + [Decayed(t)])
  }

  predicate Ready(p: TState, i: nat, t: u64, cfg: Config, most: nat)
    requires i < |p.conns|
  {
    p.cfg == cfg && !p.overflowed && p.collected + |DecayPart(p.conns[i].deriv.metrics, t, cfg)| <= most
  }

  /** Told, and known. */
  ghost function Teller(cfg: Config): (Conn, Story) -> bool {
    (c: Conn, story: Story) => IsTold(c, story, cfg) && Knows(c, story, cfg)
  }

  lemma SamplingKeepsTold(t: u64, cfg: Config, most: nat)
    ensures KeptBySampling(Teller(cfg), t, cfg, most)
  {
    forall p: TState, i: nat, story |
      i < |p.conns| && Ready(p, i, t, cfg, most) && !Sampled(p, i, t).overflowed && Teller(cfg)(p.conns[i], story)
      ensures Teller(cfg)(Sampled(p, i, t).conns[i], story + [Decayed(t)])
    {
      DecayOneIsPush(p, i, t);
      DecayOneTold(p, Sampled(p, i, t), i, t, story);
      DecayKeepsKnown(p.conns[i], Sampled(p, i, t).conns[i], story, t, cfg);
    }
  }

  lemma DecayKeepsKnown(c: Conn, d: Conn, story: Story, t: u64, cfg: Config)
    requires Knows(c, story, cfg) && d.life == c.life && d.deriv == c.deriv
    ensures Knows(d, story + [Decayed(t)], cfg)
  {
    StoryGoesOn(story, Decayed(t));
  }

  /** `q` is `p` with connection `i` sampled, unless it is idle. */
  ghost predicate Samples(s: TState, p: TState, q: TState, t: u64, i: nat)
    requires i < |s.conns|
  {
    && SameFrame(s, p)
    && q == if SatSub(t, s.conns[i].life.traffic.lastAt) > s.cfg.deadAfter then p
            else Sampled(p, i, t)
  }

  lemma DecaySampled(s: TState, t: u64, n: nat)
    requires 0 < n <= |s.conns|
    ensures Samples(s, DecayUpTo(s, t, n - 1), DecayUpTo(s, t, n), t, n - 1)
  {
    DecaySameDerived(s, t, n - 1);
  }

  /** The stories tell as much. */
  ghost predicate TellsSample(s: TState, stories: seq<Story>, told: seq<Story>, after: seq<Story>, t: u64, i: nat)
    requires i < |s.conns| == |stories| == |told|
  {
    && told[i] == stories[i]
    && after == if SatSub(t, s.conns[i].life.traffic.lastAt) > s.cfg.deadAfter then told
                else told[i := stories[i] + [Decayed(t)]]
  }

  lemma DecayTellsSample(s: TState, stories: seq<Story>, t: u64, n: nat)
    requires 0 < n <= |s.conns| == |stories|
    ensures TellsSample(s, stories, TellDecay(Lives(s.conns), stories, t, s.cfg.deadAfter, n - 1),
                        TellDecay(Lives(s.conns), stories, t, s.cfg.deadAfter, n), t, n - 1)
  {}

  /** One connection's turn at a tick: from `p` and `told` to `q` and `after`. */
  ghost predicate Turn(s: TState, p: TState, q: TState, stories: seq<Story>, told: seq<Story>, after: seq<Story>,
                       t: u64, i: nat, most: nat)
  {
    && i < |s.conns| == |stories| == |told| && Samples(s, p, q, t, i)
    && TellsSample(s, stories, told, after, t, i) && !q.overflowed
    && (SatSub(t, s.conns[i].life.traffic.lastAt) <= s.cfg.deadAfter ==> Ready(p, i, t, s.cfg, most))
  }

  lemma SampleHolds(s: TState, p: TState, q: TState, stories: seq<Story>, told: seq<Story>, after: seq<Story>,
                    t: u64, i: nat, holds: (Conn, Story) -> bool, most: nat)
    requires Turn(s, p, q, stories, told, after, t, i, most)
    requires AllHold(p.conns, told, holds) && KeptBySampling(holds, t, s.cfg, most)
    ensures AllHold(q.conns, after, holds)
  {
    if SatSub(t, s.conns[i].life.traffic.lastAt) <= s.cfg.deadAfter {
      assert holds(p.conns[i], told[i]);
      assert holds(Sampled(p, i, t).conns[i], told[i] + [Decayed(t)]);
    }
  }

  lemma TurnComplete(s: TState, p: TState, q: TState, stories: seq<Story>, told: seq<Story>, after: seq<Story>,
                     t: u64, i: nat, most: nat)
    requires i < |s.conns| == |stories| == |told| && Samples(s, p, q, t, i) && !q.overflowed
    requires TellsSample(s, stories, told, after, t, i)
    requires SatSub(t, s.conns[i].life.traffic.lastAt) <= s.cfg.deadAfter ==> Ready(p, i, t, s.cfg, most)
    ensures Turn(s, p, q, stories, told, after, t, i, most)
  {}

  ghost predicate TurnAt(s: TState, states: nat -> TState, stories: seq<Story>, told: nat -> seq<Story>, t: u64,
                         k: nat, most: nat)
  {
    Turn(s, states(k), states(k + 1), stories, told(k), told(k + 1), t, k, most)
  }

  lemma {:induction false} TurnsHold(s: TState, states: nat -> TState, stories: seq<Story>, told: nat -> seq<Story>,
                                     t: u64, n: nat, holds: (Conn, Story) -> bool, most: nat)
    requires AllHold(states(0).conns, told(0), holds) && KeptBySampling(holds, t, s.cfg, most)
    requires forall k: nat | k < n :: TurnAt(s, states, stories, told, t, k, most)
    ensures AllHold(states(n).conns, told(n), holds)
  {
    if n > 0 {
      TurnsHold(s, states, stories, told, t, n - 1, holds, most);
      assert TurnAt(s, states, stories, told, t, n - 1, most);
      SampleHolds(s, states(n - 1), states(n), stories, told(n - 1), told(n), t, n - 1, holds, most);
    }
  }

  /** The tracker, and the stories, after the first turns of a tick. */
  ghost function StatesUpTo(s: TState, t: u64): nat -> TState {
    (k: nat) => if k <= |s.conns| then DecayUpTo(s, t, k) else s
  }

  ghost function TellsUpTo(s: TState, stories: seq<Story>, t: u64): nat -> seq<Story>
    requires |stories| == |s.conns|
  {
    (k: nat) => TellDecay(Lives(s.conns), stories, t, s.cfg.deadAfter, k)
  }

  lemma DecayTurnAt(s: TState, stories: seq<Story>, t: u64, k: nat, n: nat, most: nat)
    requires k < n <= |s.conns| == |stories| && Accounted(s) && s.cfg.retention.Evict?
    requires s.collected + DecayCount(s, t, n) <= most
    ensures TurnAt(s, StatesUpTo(s, t), stories, TellsUpTo(s, stories, t), t, k, most)
  {
    DecayCountGrows(s, t, k + 1, n);
    var p, q := StateTurn(s, t, k, most);
    var told, after := TellTurn(s, stories, t, k);
    TurnComplete(s, p, q, stories, told, after, t, k, most);
  }

  /** The tracker before and after a connection's turn. */
  lemma StateTurn(s: TState, t: u64, k: nat, most: nat) returns (p: TState, q: TState)
    requires k < |s.conns| && Accounted(s) && s.cfg.retention.Evict?
    requires s.collected + DecayCount(s, t, k + 1) <= most
    ensures p == StatesUpTo(s, t)(k) && q == StatesUpTo(s, t)(k + 1)
    ensures Samples(s, p, q, t, k) && !q.overflowed
    ensures SatSub(t, s.conns[k].life.traffic.lastAt) <= s.cfg.deadAfter ==> Ready(p, k, t, s.cfg, most)
  {
    p, q := DecayUpTo(s, t, k), DecayUpTo(s, t, k + 1);
    DecayReady(s, t, k, most);
    DecaySucceeds(s, t, k + 1);
    DecaySampled(s, t, k + 1);
  }

  /** The stories before and after it. */
  lemma TellTurn(s: TState, stories: seq<Story>, t: u64, k: nat) returns (told: seq<Story>, after: seq<Story>)
    requires k < |s.conns| == |stories|
    ensures told == TellsUpTo(s, stories, t)(k) && after == TellsUpTo(s, stories, t)(k + 1)
    ensures |told| == |stories| && TellsSample(s, stories, told, after, t, k)
  {
    told := TellDecay(Lives(s.conns), stories, t, s.cfg.deadAfter, k);
    after := TellDecay(Lives(s.conns), stories, t, s.cfg.deadAfter, k + 1);
    DecayTellsSample(s, stories, t, k + 1);
  }

  lemma DecayHolds(s: TState, stories: seq<Story>, t: u64, n: nat, holds: (Conn, Story) -> bool, most: nat)
    requires n <= |s.conns| && AllHold(s.conns, stories, holds)
    requires Accounted(s) && s.cfg.retention.Evict? && KeptBySampling(holds, t, s.cfg, most)
    requires s.collected + DecayCount(s, t, n) <= most
    ensures AllHold(DecayUpTo(s, t, n).conns, TellDecay(Lives(s.conns), stories, t, s.cfg.deadAfter, n), holds)
  {
    forall k: nat | k < n
      ensures TurnAt(s, StatesUpTo(s, t), stories, TellsUpTo(s, stories, t), t, k, most)
    {
      DecayTurnAt(s, stories, t, k, n, most);
    }
    NoTurnYet(s, stories, t);
    TurnsHold(s, StatesUpTo(s, t), stories, TellsUpTo(s, stories, t), t, n, holds, most);
  }

  lemma NoTurnYet(s: TState, stories: seq<Story>, t: u64)
    requires |stories| == |s.conns|
    ensures StatesUpTo(s, t)(0) == s && TellsUpTo(s, stories, t)(0) == stories
  {}

  lemma DecayReady(s: TState, t: u64, k: nat, most: nat)
    requires k < |s.conns| && Accounted(s) && s.cfg.retention.Evict? && s.collected + DecayCount(s, t, k + 1) <= most
    ensures SatSub(t, s.conns[k].life.traffic.lastAt) <= s.cfg.deadAfter ==>
              Ready(DecayUpTo(s, t, k), k, t, s.cfg, most)
  {
    DecaySucceeds(s, t, k);
    DecayCounted(s, t, k);
    DecaySameDerived(s, t, k);
    ReadyAfter(s, DecayUpTo(s, t, k), k, t, most);
  }

  lemma ReadyAfter(s: TState, p: TState, i: nat, t: u64, most: nat)
    requires i < |s.conns| && SameFrame(s, p) && SameDerived(s.conns, p.conns) && !p.overflowed
    requires p.collected <= s.collected + DecayCount(s, t, i) && s.collected + DecayCount(s, t, i + 1) <= most
    ensures SatSub(t, s.conns[i].life.traffic.lastAt) <= s.cfg.deadAfter ==> Ready(p, i, t, s.cfg, most)
  {}

  lemma {:induction false} DecayCountGrows(s: TState, t: u64, k: nat, n: nat)
    requires k <= n <= |s.conns|
    ensures DecayCount(s, t, k) <= DecayCount(s, t, n)
  {
    if k < n {
      DecayCountGrows(s, t, k, n - 1);
    }
  }

  lemma {:induction false} PushesCounted(p: TState, i: nat, xs: seq<Tagged>)
    requires i < |p.conns|
    ensures PushAll(p, i, xs).collected <= p.collected + |xs|
  {
    if |xs| > 0 {
      PushesCounted(p, i, xs[..|xs| - 1]);
      PushEffect(PushAll(p, i, xs[..|xs| - 1]), i, xs[|xs| - 1]);
    }
  }

  lemma SampledCounted(p: TState, i: nat, t: u64)
    requires i < |p.conns|
    ensures Sampled(p, i, t).collected <= p.collected + |DecayPart(p.conns[i].deriv.metrics, t, p.cfg)|
  {
    var m := p.conns[i].deriv.metrics;
    var q := CollectThroughputAt(p, i, t);
    PushesCounted(p, i, ThroughputPart(m, t, p.cfg));
    PushesCounted(q, i, InFlightPart(m, t, p.cfg));
    assert q.conns[i].deriv == p.conns[i].deriv && q.cfg == p.cfg;
  }

  lemma {:induction false} DecayCounted(s: TState, t: u64, n: nat)
    requires n <= |s.conns|
    ensures DecayUpTo(s, t, n).collected <= s.collected + DecayCount(s, t, n)
  {
    if n > 0 {
      DecayCounted(s, t, n - 1);
      DecaySampled(s, t, n);
      DecaySameDerived(s, t, n - 1);
      OneCounted(s, DecayUpTo(s, t, n - 1), DecayUpTo(s, t, n), t, n - 1);
    }
  }

  lemma OneCounted(s: TState, p: TState, q: TState, t: u64, i: nat)
    requires i < |s.conns| && Samples(s, p, q, t, i) && SameDerived(s.conns, p.conns)
    ensures q.collected <= p.collected + DecayCount(s, t, i + 1) - DecayCount(s, t, i)
  {
    SampledCounted(p, i, t);
  }

  lemma DecaySucceeds(s: TState, t: u64, n: nat)
    requires n <= |s.conns| && Accounted(s) && s.cfg.retention.Evict?
    ensures !DecayUpTo(s, t, n).overflowed
  {
    DecayAccounted(s, t, n);
  }

  lemma {:induction false} CollectHolds(conns: seq<Conn>, stories: seq<Story>, now: u64, horizon: u64, deadAfter: u64,
                                        holds: (Conn, Story) -> bool)
    requires AllHold(conns, stories, holds)
    ensures AllHold(Survivors(conns, now, horizon, deadAfter),
                    LogCollect(conns, stories, now, horizon, deadAfter), holds)
  {
    if |conns| > 0 {
      var n := |conns| - 1;
      CollectHolds(conns[..n], stories[..n], now, horizon, deadAfter, holds);
    }
  }

  lemma ToldAndKnown(conns: seq<Conn>, stories: seq<Story>, cfg: Config)
    requires AllTold(conns, stories, cfg) && AllKnown(conns, stories, cfg)
    ensures AllHold(conns, stories, Teller(cfg))
  {}

  lemma HoldingIsTold(conns: seq<Conn>, stories: seq<Story>, cfg: Config)
    requires AllHold(conns, stories, Teller(cfg))
    ensures AllTold(conns, stories, cfg)
  {
    forall i | 0 <= i < |conns|
      ensures IsTold(conns[i], stories[i], cfg)
    {
      assert Teller(cfg)(conns[i], stories[i]);
    }
  }

  /** Collection keeps what holds of every connection and its story. */
  lemma CollectionHolds(s: TState, stories: seq<Story>, t: u64, after: seq<Story>, holds: (Conn, Story) -> bool)
    requires s.WF() && s.cfg.retention.Evict? && |stories| == |s.conns|
    requires after == TellDecay(Lives(s.conns), stories, Max(s.now, t), s.cfg.deadAfter, |stories|)
    requires AllHold(BeforeCollection(s, t).conns, after, holds)
    ensures AllHold(ObserveTick(s, t).conns, TellTick(s, stories, t), holds)
  {
    var b := BeforeCollection(s, t);
    var horizon := Horizon(b.now, b.cfg.retention.horizon);
    CollectHolds(b.conns, after, b.now, horizon, b.cfg.deadAfter, holds);
    if |Survivors(b.conns, b.now, horizon, b.cfg.deadAfter)| == |b.conns| {
      AllSurvive(b.conns, b.now, horizon, b.cfg.deadAfter);
    }
  }

  lemma TickTold(s: TState, stories: seq<Story>, t: u64)
    requires s.WF() && AllKnown(s.conns, stories, s.cfg) && AllTold(s.conns, stories, s.cfg) && Accounted(s)
    ensures AllTold(ObserveTick(s, t).conns, TellTick(s, stories, t), s.cfg)
  {
    if s.cfg.retention.Evict? {
      var s1 := s.(now := Max(s.now, t));
      var most := s.collected + DecayCount(s1, s1.now, |s1.conns|);
      SamplingKeepsTold(s1.now, s.cfg, most);
      ToldAndKnown(s1.conns, stories, s.cfg);
      DecayHolds(s1, stories, s1.now, |s1.conns|, Teller(s.cfg), most);
      var after := TellDecay(Lives(s.conns), stories, s1.now, s.cfg.deadAfter, |stories|);
      HoldingIsTold(EmitDecay(s1, s1.now).conns, after, s.cfg);
      AgingKeepsTold(EmitDecay(s1, s1.now), after, s.cfg);
      ToldByIsTold(BeforeCollection(s, t).conns, after, s.cfg);
      CollectionHolds(s, stories, t, after, ToldBy(s.cfg));
      ToldByIsTold(ObserveTick(s, t).conns, TellTick(s, stories, t), s.cfg);
    }
  }

  lemma StoriesAreKnown(cfg: Config, items: seq<Item>)
    requires !Run(cfg, items).overflowed
    ensures AllKnown(Run(cfg, items).conns, StoriesOf(cfg, items), cfg)
  {
    StoriesTellLogs(cfg, items);
    LivesAreFolds(cfg, items);
    DerivedAreFolds(cfg, items);
    var conns := Run(cfg, items).conns;
    forall i | 0 <= i < |conns|
      ensures IsFoldOf(conns[i].life, Logs(cfg, items)[i])
    {
      assert IsFoldOf(Lives(conns)[i], Logs(cfg, items)[i]);
    }
  }

  /** In any run that has not failed, under either policy and with segments and ticks in any
      order, each series a connection retains is the end of what its own story tells, sample
      for sample: the samples of its segments, and where a tick sampled it, of that tick. */
  lemma {:induction false} SeriesAreTold(cfg: Config, items: seq<Item>)
    requires !Run(cfg, items).overflowed
    ensures AllTold(Run(cfg, items).conns, StoriesOf(cfg, items), cfg)
  {
    if |items| > 0 {
      var pre, last := items[..|items| - 1], items[|items| - 1];
      SuccessIsInherited(cfg, items);
      SeriesAreTold(cfg, pre);
      StoriesAreKnown(cfg, pre);
      RunKeepsConfig(cfg, pre);
      RunAccounted(cfg, pre);
      match last
      case Seg(seg) => SegmentTold(BeforeLast(cfg, items), StoriesOf(cfg, pre), seg);
      case Tick(t) => TickTold(Run(cfg, pre), StoriesOf(cfg, pre), t);
    }
  }

  // ------------------------------------------------------- stories against logs and clocks

  /** Ticks add rates and readings only. */
  lemma DecayAddsNoOther(m: PerDir<DirState>, t: u64, cfg: Config, k: Kind)
    ensures Of(DecayPart(m, t, cfg), k) ==
            if k == THROUGHPUT && cfg.collectThroughput then ThroughputPoints(m, t, cfg.throughputWindow)
            else if k == INFLIGHT && cfg.collectInFlight then InFlightPoints(m, t) else []
  {
    StateSeries.OfConcat(ThroughputPart(m, t, cfg), InFlightPart(m, t, cfg), k);
    OfTag(ThroughputPoints(m, t, cfg.throughputWindow), THROUGHPUT, k);
    OfTag(InFlightPoints(m, t), INFLIGHT, k);
  }

  lemma BeforeToldIs(id: ConnId, story: Story, cfg: Config)
    requires Begins(story) && |story| > 1
    ensures Begins(story[..|story| - 1]) && BeforeTold(id, story, cfg) == StoryHist(id, story[..|story| - 1], cfg)
  {}

  lemma ToldAt(id: ConnId, story: Story, cfg: Config, k: Kind)
    requires Begins(story)
    ensures StoryHist(id, story, cfg)[k] == BeforeTold(id, story, cfg)[k] + Of(Told(id, story, cfg), k)
  {
    AppendedAt(BeforeTold(id, story, cfg), Told(id, story, cfg), k);
  }

  lemma LogAt(id: ConnId, log: Log, cfg: Config, k: Kind)
    requires |log| > 0
    ensures HistRun(id, log, cfg)[k] == BeforeLastHist(id, log, cfg)[k] + Of(Yield(id, log, cfg), k)
  {
    AppendedAt(BeforeLastHist(id, log, cfg), Yield(id, log, cfg), k);
  }

  /** The log of a story up to its last event. */
  lemma LogBefore(story: Story)
    requires Begins(story)
    ensures var last, log := story[|story| - 1], LogOf(story);
            if last.Heard? then log[|log| - 1] == last.seg && log[..|log| - 1] == LogOf(story[..|story| - 1])
            else log == LogOf(story[..|story| - 1])
    ensures |story| > 1 ==> |LogOf(story[..|story| - 1])| > 0
  {
    assert |story| > 1 ==> Begins(story[..|story| - 1]);
  }

  predicate OfDecay(k: Kind) { k == INFLIGHT || k == THROUGHPUT }

  /** The other four series do not hear of ticks. */
  lemma {:induction false} StoryKeepsLog(id: ConnId, story: Story, cfg: Config, k: Kind)
    requires Begins(story) && (OfDecay(k) ==> forall e | e in story :: e.Heard?)
    ensures StoryHist(id, story, cfg)[k] == HistRun(id, LogOf(story), cfg)[k]
  {
    var pre, last := story[..|story| - 1], story[|story| - 1];
    LogBefore(story);
    ToldAt(id, story, cfg, k);
    LogAt(id, LogOf(story), cfg, k);
    if |story| > 1 {
      StoryKeepsLog(id, pre, cfg, k);
    }
    if last.Decayed? {
      DecayAddsNoOther(DerivRun(id, LogOf(story), cfg).metrics, last.t, cfg, k);
    }
  }

  /** Nothing in the story is later than `now`, or than a tick after it. */
  ghost predicate Dated(story: Story, now: u64) {
    && (forall j | 0 <= j < |story| :: When(story[j]) <= now)
    && (forall j, k | 0 <= j < k < |story| && story[k].Decayed? :: When(story[j]) <= story[k].t)
  }

  ghost predicate InTime(story: Story) {
    forall j, k | 0 <= j < k < |story| :: When(story[j]) <= When(story[k])
  }

  ghost predicate OnlyHeard(story: Story) { forall e | e in story :: e.Heard? }

  /** What every story of the run meets. */
  ghost predicate WellDated(stories: seq<Story>, now: u64, inTime: bool, onlyHeard: bool) {
    forall i | 0 <= i < |stories| ::
      && Dated(stories[i], now) && (inTime ==> InTime(stories[i])) && (onlyHeard ==> OnlyHeard(stories[i]))
  }

  lemma SegmentDated(s: TState, stories: seq<Story>, seg: Segment, was: u64, inTime: bool, onlyHeard: bool)
    requires s.WF() && |stories| == |s.conns| && WellDated(stories, was, inTime, onlyHeard)
    requires was <= s.now && seg.ts <= s.now && (inTime ==> was <= seg.ts)
    ensures WellDated(TellSegment(s, stories, seg), s.now, inTime, onlyHeard)
  {
    forall story | Dated(story, was)
      ensures Dated(story, s.now) && Dated(story + [Heard(seg)], s.now)
    {
    }
  }

  lemma DecayDated(lives: seq<Life>, stories: seq<Story>, t: u64, deadAfter: u64, n: nat, was: u64, inTime: bool)
    requires |stories| == |lives| && WellDated(stories, was, inTime, false) && was <= t
    ensures WellDated(TellDecay(lives, stories, t, deadAfter, n), t, inTime, false)
  {
    forall story | Dated(story, was)
      ensures Dated(story, t) && Dated(story + [Decayed(t)], t)
    {
    }
  }

  lemma {:induction false} CollectDated(conns: seq<Conn>, stories: seq<Story>, now: u64, horizon: u64, deadAfter: u64,
                                        t: u64, inTime: bool)
    requires |stories| == |conns| && WellDated(stories, t, inTime, false)
    ensures WellDated(LogCollect(conns, stories, now, horizon, deadAfter), t, inTime, false)
  {
    if |conns| > 0 {
      CollectDated(conns[..|conns| - 1], stories[..|conns| - 1], now, horizon, deadAfter, t, inTime);
    }
  }

  lemma TickDated(s: TState, stories: seq<Story>, t: u64, inTime: bool)
    requires s.WF() && |stories| == |s.conns| && WellDated(stories, s.now, inTime, s.cfg.retention.FailFast?)
    ensures WellDated(TellTick(s, stories, t), ObserveTick(s, t).now, inTime, s.cfg.retention.FailFast?)
  {
    if s.cfg.retention.Evict? {
      var b := BeforeCollection(s, t);
      var after := TellDecay(Lives(s.conns), stories, b.now, s.cfg.deadAfter, |stories|);
      TickLives(s, t);
      DecayDated(Lives(s.conns), stories, b.now, s.cfg.deadAfter, |stories|, s.now, inTime);
      CollectDated(b.conns, after, b.now, Horizon(b.now, b.cfg.retention.horizon), b.cfg.deadAfter, b.now, inTime);
    }
  }

  lemma StepDated(s: TState, stories: seq<Story>, seg: Segment, inTime: bool, onlyHeard: bool)
    requires s.WF() && |stories| == |s.conns| && WellDated(stories, s.now, inTime, onlyHeard)
    requires inTime ==> s.now <= seg.ts
    ensures WellDated(TellSegment(s.(now := Max(s.now, seg.ts)), stories, seg), Step(s, Seg(seg)).now,
                      inTime, onlyHeard)
  {
    SegmentLives(s.(now := Max(s.now, seg.ts)), seg);
    SegmentDated(s.(now := Max(s.now, seg.ts)), stories, seg, s.now, inTime, onlyHeard);
  }

  /** In every reachable state no story runs past the clock, or past a tick; where no segment
      comes before an earlier item it is in order, and in a replay ticks never enter it. */
  lemma {:induction false} StoriesAreDated(cfg: Config, items: seq<Item>, inTime: bool)
    requires inTime ==> SegmentsInTime(items)
    ensures WellDated(StoriesOf(cfg, items), Run(cfg, items).now, inTime, cfg.retention.FailFast?)
  {
    if |items| > 0 {
      var pre, last := items[..|items| - 1], items[|items| - 1];
      var s := Run(cfg, pre);
      StoriesAreDated(cfg, pre, inTime);
      RunKeepsConfig(cfg, pre);
      match last
      case Seg(seg) =>
        if inTime {
          ClockIsLatest(cfg, pre, seg.ts);
        }
        StepDated(s, StoriesOf(cfg, pre), seg, inTime, cfg.retention.FailFast?);
      case Tick(t) => TickDated(s, StoriesOf(cfg, pre), t, inTime);
    }
  }

  /** Of the series no tick adds to, a connection retains the end of what its log alone makes,
      and a replay all of every series. */
  lemma RetainedOfLog(cfg: Config, items: seq<Item>, i: nat, k: Kind)
    requires !Run(cfg, items).overflowed && i < |Run(cfg, items).conns|
    requires cfg.retention.FailFast? || !OfDecay(k)
    ensures |Logs(cfg, items)[i]| > 0
    ensures var c := Run(cfg, items).conns[i];
            var told := HistRun(c.life.ident.id, Logs(cfg, items)[i], cfg)[k];
            IsSuffix(c.hist[k], told) && (cfg.retention.FailFast? ==> c.hist[k] == told)
  {
    var c, story := Run(cfg, items).conns[i], StoriesOf(cfg, items)[i];
    SeriesAreTold(cfg, items);
    StoriesTellLogs(cfg, items);
    StoriesAreDated(cfg, items, false);
    assert IsTold(c, story, cfg) && LogOf(story) == Logs(cfg, items)[i];
    StoryKeepsLog(c.life.ident.id, story, cfg, k);
    if cfg.retention.FailFast? {
      SeriesAreFolds(cfg, items);
    }
  }
}
