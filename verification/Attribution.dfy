/** Every tracked connection is the fold of its own segments: the log of the segments
    attributed to it determines its life and its derived metrics, and the logs share out
    the stream without loss. */
module Attribution {
  import opened Core
  import opened MetricSpec
  import opened Lifecycle
  import opened ReadOff
  import opened TrackerSpec
  import opened TrackerLives
  import opened TrackerIndex
  import opened Recording
  import opened Accounting
  import opened Ceiling

  type Log = seq<Segment>

  // ------------------------------------------------------------------------ logs

  ghost function LogSegment(s: TState, logs: seq<Log>, seg: Segment): (r: seq<Log>)
    requires s.WF() && |logs| == |s.conns|
  {
    if Joins(s, seg) then
      var i := s.live[seg.Pair()];
      logs[i := logs[i] + [seg]]
    else logs + [[seg]]
  }

  /** What belongs to the connections that survive a collection. */
  ghost function LogCollect<T>(conns: seq<Conn>, logs: seq<T>, now: u64, horizon: u64, deadAfter: u64): (r: seq<T>)
    requires |logs| == |conns|
    ensures |r| == |Survivors(conns, now, horizon, deadAfter)|
  {
    if |conns| == 0 then []
    else
      var n := |conns| - 1;
      LogCollect(conns[..n], logs[..n], now, horizon, deadAfter) +
      if Survives(conns[n].life, now, horizon, deadAfter) then [logs[n]] else []
  }

  ghost function LogTick(s: TState, logs: seq<Log>, t: u64): (r: seq<Log>)
    requires s.WF() && |logs| == |s.conns|
    ensures |r| == |ObserveTick(s, t).conns|
  {
    if s.cfg.retention.FailFast? then logs
    else
      var b := BeforeCollection(s, t);
      LogCollect(b.conns, logs, b.now, Horizon(b.now, b.cfg.retention.horizon), b.cfg.deadAfter)
  }

  /** For each tracked connection, the segments of the stream attributed to it, in order. */
  ghost function Logs(cfg: Config, items: seq<Item>): (logs: seq<Log>)
    ensures |logs| == |Run(cfg, items).conns|
  {
    if |items| == 0 then []
    else
      var n := |items| - 1;
      var s, logs := Run(cfg, items[..n]), Logs(cfg, items[..n]);
      match items[n]
      case Seg(seg) =>
        SegmentLives(s.(now := Max(s.now, seg.ts)), seg);
        LogSegment(s.(now := Max(s.now, seg.ts)), logs, seg)
      case Tick(t) => LogTick(s, logs, t)
  }

  // ----------------------------------------------------------------- lives are folds

  ghost predicate IsFoldOf(l: Life, log: Log) {
    && |log| > 0 && l == LifeRun(l.ident.id, log)
    && forall i | 0 <= i < |log| :: log[i].Pair() == l.ident.id.pair
  }

  ghost predicate AllFolds(lives: seq<Life>, logs: seq<Log>) {
    && |logs| == |lives|
    && forall i | 0 <= i < |lives| :: IsFoldOf(lives[i], logs[i])
  }

  lemma JoinIsFold(l: Life, log: Log, seg: Segment)
    requires IsFoldOf(l, log) && seg.Pair() == l.ident.id.pair
    ensures IsFoldOf(l.Join(seg), log + [seg])
  {
    assert (log + [seg])[..|log|] == log;
  }

  lemma OpeningIsFold(s: TState, seg: Segment)
    ensures IsFoldOf(Opening(s, seg), [seg])
  {
  }

  lemma SegmentFolds(s: TState, logs: seq<Log>, seg: Segment)
    requires s.WF() && Indexed(s) && AllFolds(Lives(s.conns), logs)
    ensures AllFolds(Lives(EvictSamples(ObserveSegment(s, seg)).conns), LogSegment(s, logs, seg))
  {
    SegmentLives(s, seg);
    if Joins(s, seg) {
      var i := s.live[seg.Pair()];
      assert PairOf(Lives(s.conns)[i]) == seg.Pair();
      JoinIsFold(s.conns[i].life, logs[i], seg);
    } else {
      OpeningIsFold(s, seg);
    }
  }

  lemma {:induction false} CollectFolds(conns: seq<Conn>, logs: seq<Log>, now: u64, horizon: u64, deadAfter: u64)
    requires AllFolds(Lives(conns), logs)
    ensures AllFolds(Lives(Survivors(conns, now, horizon, deadAfter)), LogCollect(conns, logs, now, horizon, deadAfter))
  {
    if |conns| > 0 {
      var n := |conns| - 1;
      assert Lives(conns[..n]) == Lives(conns)[..n];
      CollectFolds(conns[..n], logs[..n], now, horizon, deadAfter);
      assert IsFoldOf(Lives(conns)[n], logs[n]);
      FoldsAppend(Survivors(conns[..n], now, horizon, deadAfter), conns[n],
                  LogCollect(conns[..n], logs[..n], now, horizon, deadAfter), logs[n]);
    }
  }

  lemma FoldsAppend(conns: seq<Conn>, c: Conn, logs: seq<Log>, log: Log)
    requires AllFolds(Lives(conns), logs) && IsFoldOf(c.life, log)
    ensures AllFolds(Lives(conns + [c]), logs + [log])
    ensures Lives(conns + []) == Lives(conns) && logs + [] == logs
  {
    assert Lives(conns + [c]) == Lives(conns) + [c.life];
    assert conns + [] == conns;
  }

  lemma TickFolds(s: TState, logs: seq<Log>, t: u64)
    requires s.WF() && AllFolds(Lives(s.conns), logs)
    ensures AllFolds(Lives(ObserveTick(s, t).conns), LogTick(s, logs, t))
  {
    if s.cfg.retention.Evict? {
      TickLives(s, t);
      var b := BeforeCollection(s, t);
      var horizon := Horizon(b.now, b.cfg.retention.horizon);
      CollectFolds(b.conns, logs, b.now, horizon, b.cfg.deadAfter);
      if |Survivors(b.conns, b.now, horizon, b.cfg.deadAfter)| == |b.conns| {
        AllSurvive(b.conns, b.now, horizon, b.cfg.deadAfter);
      }
    }
  }

  /** In every reachable state each connection's life is the fold of the segments
      attributed to it, all of its own pair: every fact about instance runs is a fact about
      every tracked connection. */
  lemma {:induction false} LivesAreFolds(cfg: Config, items: seq<Item>)
    ensures AllFolds(Lives(Run(cfg, items).conns), Logs(cfg, items))
  {
    if |items| > 0 {
      var n := |items| - 1;
      var s := Run(cfg, items[..n]);
      LivesAreFolds(cfg, items[..n]);
      RunIndexed(cfg, items[..n]);
      match items[n]
      case Seg(seg) => SegmentFolds(s.(now := Max(s.now, seg.ts)), Logs(cfg, items[..n]), seg);
      case Tick(t) => TickFolds(s, Logs(cfg, items[..n]), t);
    }
  }

  /** A lone segment opens instance 0 of its pair, and is all of its log. */
  lemma OneSegmentRun(cfg: Config, a: Segment)
    ensures Lives(Run(cfg, [Seg(a)]).conns) == [Open(ConnId(a.Pair(), 0), a)] && Logs(cfg, [Seg(a)]) == [[a]]
    ensures Run(cfg, [Seg(a)]).now == a.ts
  {
    assert [Seg(a)][..0] == [];
    assert Run(cfg, []) == New(cfg) && Logs(cfg, []) == [];
    SegmentLives(New(cfg).(now := Max(0, a.ts)), a);
    assert LogSegment(New(cfg).(now := Max(0, a.ts)), [], a) == [[a]];
  }

  /** The life's identity, counters and state are what its segments say. */
  ghost predicate ReadsSegments(l: Life, log: Log) {
    && |log| > 0 && PhaseReads(l.phase, l.ident, log)
    && (!ResetSeen(log) && !ProperFinSeen(log) ==> ReadsHandshake(l.phase.state, log))
    && l.traffic.segments == |log| && IsLatest(l.traffic.lastAt, log)
    && l.traffic.bytesO2R == PayloadFrom(log, Opener(log)) && l.traffic.bytesR2O == PayloadNotFrom(log, Opener(log))
    && l.ident.origin == Opener(log) && l.ident.responder == Other(log)
    && l.ident.originInferred == !log[0].flags.syn && l.ident.openedAt == log[0].ts
  }

  lemma FoldReadsSegments(id: ConnId, log: Log)
    requires |log| > 0
    ensures ReadsSegments(LifeRun(id, log), log)
  {
    StateReadsTheSegments(id, log);
    CountsAreExact(id, log);
    BytesAreBySide(id, log);
    OriginIsOpener(id, log);
    if !ResetSeen(log) && !ProperFinSeen(log) {
      StateReadsTheHandshake(id, log);
    }
  }

  /** So every tracked connection's life is what its own segments say. */
  lemma TrackedStateReadsSegments(cfg: Config, items: seq<Item>, i: nat)
    requires i < |Run(cfg, items).conns|
    ensures var l, log := Run(cfg, items).conns[i].life, Logs(cfg, items)[i];
            ReadsSegments(l, log) && l.traffic.Bytes() == Payload(log)
  {
    LivesAreFolds(cfg, items);
    var l := Lives(Run(cfg, items).conns)[i];
    assert IsFoldOf(l, Logs(cfg, items)[i]);
    FoldReadsSegments(l.ident.id, Logs(cfg, items)[i]);
    CountsAreExact(l.ident.id, Logs(cfg, items)[i]);
  }

  // -------------------------------------------------------------------- conservation

  datatype Measure = Segments | PayloadBytes

  function Weight(l: Life, m: Measure): nat {
    if m == Segments then l.traffic.segments else l.traffic.Bytes()
  }

  function SegWeight(seg: Segment, m: Measure): nat {
    if m == Segments then 1 else seg.payloadLen
  }

  /** Total weight of the tracked connections whose pair is wanted. */
  function TotalWeight(lives: seq<Life>, wanted: EndpointPair -> bool, m: Measure): nat {
    if |lives| == 0 then 0
    else
      var l := lives[|lives| - 1];
      TotalWeight(lives[..|lives| - 1], wanted, m) + if wanted(PairOf(l)) then Weight(l, m) else 0
  }

  /** Total weight of the segments of the stream whose pair is wanted. */
  function Streamed(items: seq<Item>, wanted: EndpointPair -> bool, m: Measure): nat {
    if |items| == 0 then 0
    else
      var x := items[|items| - 1];
      Streamed(items[..|items| - 1], wanted, m) +
      if x.Seg? && wanted(x.seg.Pair()) then SegWeight(x.seg, m) else 0
  }

  lemma {:induction false} HeldUpdate(lives: seq<Life>, i: nat, l: Life, wanted: EndpointPair -> bool, m: Measure)
    requires i < |lives| && PairOf(l) == PairOf(lives[i])
    ensures TotalWeight(lives[i := l], wanted, m) ==
            TotalWeight(lives, wanted, m) + if wanted(PairOf(l)) then Weight(l, m) - Weight(lives[i], m) else 0
  {
    var n := |lives| - 1;
    if i < n {
      assert lives[i := l][..n] == lives[..n][i := l];
      HeldUpdate(lives[..n], i, l, wanted, m);
    } else {
      assert lives[i := l][..n] == lives[..n];
    }
  }

  /** No whole connection has been collected along the run. */
  ghost predicate NothingCollected(cfg: Config, items: seq<Item>) {
    |items| > 0 ==>
      && NothingCollected(cfg, items[..|items| - 1])
      && |Run(cfg, items[..|items| - 1]).conns| <= |Run(cfg, items).conns|
  }

  lemma JoinConserves(lives: seq<Life>, i: nat, seg: Segment, wanted: EndpointPair -> bool, m: Measure)
    requires i < |lives| && PairOf(lives[i]) == seg.Pair()
    ensures TotalWeight(lives[i := lives[i].Join(seg)], wanted, m) ==
            TotalWeight(lives, wanted, m) + if wanted(seg.Pair()) then SegWeight(seg, m) else 0
  {
    HeldUpdate(lives, i, lives[i].Join(seg), wanted, m);
  }

  lemma OpenConserves(lives: seq<Life>, id: ConnId, seg: Segment, wanted: EndpointPair -> bool, m: Measure)
    requires id.pair == seg.Pair()
    ensures TotalWeight(lives + [Open(id, seg)], wanted, m) ==
            TotalWeight(lives, wanted, m) + if wanted(seg.Pair()) then SegWeight(seg, m) else 0
  {
    assert (lives + [Open(id, seg)])[..|lives|] == lives;
  }

  lemma SegmentConserves(s: TState, seg: Segment, wanted: EndpointPair -> bool, m: Measure)
    requires s.WF() && Indexed(s)
    ensures TotalWeight(Lives(EvictSamples(ObserveSegment(s, seg)).conns), wanted, m) ==
            TotalWeight(Lives(s.conns), wanted, m) + if wanted(seg.Pair()) then SegWeight(seg, m) else 0
  {
    SegmentLives(s, seg);
    if Joins(s, seg) {
      assert PairOf(Lives(s.conns)[s.live[seg.Pair()]]) == seg.Pair();
      JoinConserves(Lives(s.conns), s.live[seg.Pair()], seg, wanted, m);
    } else {
      OpenConserves(Lives(s.conns), ConnId(seg.Pair(), NextInstance(s, seg.Pair())), seg, wanted, m);
    }
  }

  lemma TickConserves(s: TState, t: u64)
    requires s.WF() && |s.conns| <= |ObserveTick(s, t).conns|
    ensures Lives(ObserveTick(s, t).conns) == Lives(s.conns)
  {
    if s.cfg.retention.Evict? {
      TickLives(s, t);
    }
  }

  /** Until a whole connection is collected, every segment of the stream, and every payload
      byte, is held by exactly one instance of its own pair: for any choice of pairs (one,
      some or all of them) the connections' totals are the stream's totals, through every
      split, duplicate SYN and sample overflow. */
  lemma {:induction false} StreamIsConserved(cfg: Config, items: seq<Item>, wanted: EndpointPair -> bool, m: Measure)
    requires NothingCollected(cfg, items)
    ensures TotalWeight(Lives(Run(cfg, items).conns), wanted, m) == Streamed(items, wanted, m)
  {
    if |items| > 0 {
      var n := |items| - 1;
      var s := Run(cfg, items[..n]);
      StreamIsConserved(cfg, items[..n], wanted, m);
      RunIndexed(cfg, items[..n]);
      match items[n]
      case Seg(seg) => SegmentConserves(s.(now := Max(s.now, seg.ts)), seg, wanted, m);
      case Tick(t) => TickConserves(s, t);
    }
  }

  /** Replay never collects, and without ticks nothing does. */
  lemma {:induction false} ReplayCollectsNothing(cfg: Config, items: seq<Item>)
    requires cfg.retention.FailFast? || forall i | 0 <= i < |items| :: items[i].Seg?
    ensures NothingCollected(cfg, items)
  {
    if |items| > 0 {
      var n := |items| - 1;
      ReplayCollectsNothing(cfg, items[..n]);
      RunKeepsConfig(cfg, items[..n]);
      var s := Run(cfg, items[..n]);
      if items[n].Seg? {
        SegmentLives(s.(now := Max(s.now, items[n].seg.ts)), items[n].seg);
      }
    }
  }

  // ------------------------------------------------------- derived state is a fold too

  /** The derived state of an instance after the segments attributed to it. */
  function DerivRun(id: ConnId, log: Log, cfg: Config): Deriv
    requires |log| > 0
  {
    var n := |log| - 1;
    NextDeriv(if n == 0 then NO_DERIV else DerivRun(id, log[..n], cfg), id, log[n],
              OpeningIdentity(id, log[0]).DirectionOf(log[n].src), cfg)
  }

  ghost predicate AllDerived(conns: seq<Conn>, logs: seq<Log>, cfg: Config) {
    && |logs| == |conns|
    && forall i | 0 <= i < |conns| :: |logs[i]| > 0 && conns[i].deriv == DerivRun(conns[i].life.ident.id, logs[i], cfg)
  }

  lemma DerivJoin(id: ConnId, log: Log, seg: Segment, cfg: Config)
    requires |log| > 0
    ensures DerivRun(id, log + [seg], cfg) ==
            NextDeriv(DerivRun(id, log, cfg), id, seg, OpeningIdentity(id, log[0]).DirectionOf(seg.src), cfg)
  {
    assert (log + [seg])[..|log|] == log;
  }

  lemma PlacedDerived(s: TState, logs: seq<Log>, seg: Segment)
    requires s.WF() && Indexed(s) && AllFolds(Lives(s.conns), logs) && AllDerived(s.conns, logs, s.cfg)
    ensures AllDerived(Placed(s, seg).conns, LogSegment(s, logs, seg), s.cfg)
  {
    if Joins(s, seg) {
      var i := s.live[seg.Pair()];
      var l := Lives(s.conns)[i];
      assert IsFoldOf(l, logs[i]);
      IdentityIsFixed(l.ident.id, logs[i]);
      DerivJoin(l.ident.id, logs[i], seg, s.cfg);
    }
  }

  lemma RecordsKeepDerived(a: TState, b: TState, idx: nat, logs: seq<Log>, cfg: Config)
    requires idx < |a.conns| && Records(a, b, idx) && AllDerived(a.conns, logs, cfg)
    ensures AllDerived(b.conns, logs, cfg)
  {
  }

  lemma SegmentDerived(s: TState, logs: seq<Log>, seg: Segment)
    requires s.WF() && Indexed(s) && AllFolds(Lives(s.conns), logs) && AllDerived(s.conns, logs, s.cfg)
    requires !ObserveSegment(s, seg).overflowed
    ensures AllDerived(EvictSamples(ObserveSegment(s, seg)).conns, LogSegment(s, logs, seg), s.cfg)
  {
    PlacedDerived(s, logs, seg);
    ObserveSegmentIsPut(s, seg);
    var p, idx, xs := Placed(s, seg), Target(s, seg), Produced(s, seg);
    RecordsKeepDerived(p, PushAll(p, idx, xs), idx, LogSegment(s, logs, seg), s.cfg);
    AgingKeepsDerived(ObserveSegment(s, seg), LogSegment(s, logs, seg), s.cfg);
  }

  lemma AgingKeepsDerived(s: TState, logs: seq<Log>, cfg: Config)
    requires AllDerived(s.conns, logs, cfg)
    ensures AllDerived(EvictSamples(s).conns, logs, cfg)
  {
  }

  /** The same instances with the same derived state. */
  ghost predicate SameDerived(a: seq<Conn>, b: seq<Conn>) {
    |a| == |b| && forall i | 0 <= i < |a| :: b[i].deriv == a[i].deriv && b[i].life == a[i].life
  }

  lemma RecordsSameDerived(a: TState, b: TState, idx: nat)
    requires idx < |a.conns| && Records(a, b, idx)
    ensures SameDerived(a.conns, b.conns)
  {
  }

  lemma DecayOneSameDerived(p: TState, q: TState, i: nat, t: u64)
    requires i < |p.conns| && DecaysTo(p, q, i, t)
    ensures SameDerived(p.conns, q.conns)
  {
    var mid := CollectThroughputAt(p, i, t);
    RecordsSameDerived(p, mid, i);
    RecordsSameDerived(mid, CollectInFlightAt(mid, i, t), i);
  }

  lemma {:induction false} DecaySameDerived(s: TState, t: u64, n: nat)
    requires n <= |s.conns|
    ensures SameDerived(s.conns, DecayUpTo(s, t, n).conns)
  {
    if n > 0 {
      DecaySameDerived(s, t, n - 1);
      DecayStep(s, t, n);
      DecayOneSameDerived(DecayUpTo(s, t, n - 1), DecayUpTo(s, t, n), n - 1, t);
    }
  }

  lemma DecayKeepsDerived(s: TState, t: u64, n: nat, logs: seq<Log>, cfg: Config)
    requires n <= |s.conns| && AllDerived(s.conns, logs, cfg)
    ensures AllDerived(DecayUpTo(s, t, n).conns, logs, cfg)
  {
    DecaySameDerived(s, t, n);
  }

  lemma {:induction false} CollectDerived(conns: seq<Conn>, logs: seq<Log>, now: u64, horizon: u64, deadAfter: u64,
                                          cfg: Config)
    requires AllDerived(conns, logs, cfg)
    ensures AllDerived(Survivors(conns, now, horizon, deadAfter), LogCollect(conns, logs, now, horizon, deadAfter), cfg)
  {
    if |conns| > 0 {
      var n := |conns| - 1;
      CollectDerived(conns[..n], logs[..n], now, horizon, deadAfter, cfg);
    }
  }

  lemma TickDerived(s: TState, logs: seq<Log>, t: u64)
    requires s.WF() && AllDerived(s.conns, logs, s.cfg)
    ensures AllDerived(ObserveTick(s, t).conns, LogTick(s, logs, t), s.cfg)
  {
    if s.cfg.retention.Evict? {
      var s1 := s.(now := Max(s.now, t));
      DecayKeepsDerived(s1, s1.now, |s1.conns|, logs, s.cfg);
      AgingKeepsDerived(EmitDecay(s1, s1.now), logs, s.cfg);
      var b := BeforeCollection(s, t);
      var horizon := Horizon(b.now, b.cfg.retention.horizon);
      CollectDerived(b.conns, logs, b.now, horizon, b.cfg.deadAfter, s.cfg);
      if |Survivors(b.conns, b.now, horizon, b.cfg.deadAfter)| == |b.conns| {
        AllSurvive(b.conns, b.now, horizon, b.cfg.deadAfter);
      }
    }
  }

  /** A run that has not failed had not failed before its last item either. */
  lemma SuccessIsInherited(cfg: Config, items: seq<Item>)
    requires |items| > 0 && !Run(cfg, items).overflowed
    ensures !Run(cfg, items[..|items| - 1]).overflowed
    ensures items[|items| - 1].Seg? ==>
              !ObserveSegment(BeforeLast(cfg, items), items[|items| - 1].seg).overflowed
  {
    var n := |items| - 1;
    RunKeepsConfig(cfg, items[..n]);
    if cfg.retention.Evict? {
      RunAccounted(cfg, items[..n]);
      if items[n].Seg? {
        ObserveSegmentAccounted(BeforeLast(cfg, items), items[n].seg);
      }
    } else if items[n].Seg? {
      LastFailFast(cfg, items);
    }
  }

  /** As long as collection has not failed, each connection's derived state too is the fold
      of its own segments: retention, ticks and other connections never enter it. */
  lemma {:induction false} DerivedAreFolds(cfg: Config, items: seq<Item>)
    requires !Run(cfg, items).overflowed
    ensures AllDerived(Run(cfg, items).conns, Logs(cfg, items), cfg)
  {
    if |items| > 0 {
      var n := |items| - 1;
      SuccessIsInherited(cfg, items);
      DerivedAreFolds(cfg, items[..n]);
      RunKeepsConfig(cfg, items[..n]);
      match items[n]
      case Seg(seg) =>
        LivesAreFolds(cfg, items[..n]);
        RunIndexed(cfg, items[..n]);
        SegmentDerived(BeforeLast(cfg, items), Logs(cfg, items[..n]), seg);
      case Tick(t) => TickDerived(Run(cfg, items[..n]), Logs(cfg, items[..n]), t);
    }
  }

  /** A log as the metric engine sees it. */
  function Observations(id: ConnId, log: Log): (obs: seq<Obs>)
    requires |log| > 0
    ensures |obs| == |log|
  {
    seq(|log|, i requires 0 <= i < |log| => Obs(log[i], OpeningIdentity(id, log[0]).DirectionOf(log[i].src)))
  }

  lemma MetricsStep(d: Deriv, obs: seq<Obs>, id: ConnId, seg: Segment, dir: Direction, cfg: Config)
    requires cfg.WantsMetrics(id) && d.metrics == MetricRun(obs, cfg)
    ensures NextDeriv(d, id, seg, dir, cfg).metrics == MetricRun(obs + [Obs(seg, dir)], cfg)
  {
    assert (obs + [Obs(seg, dir)])[..|obs|] == obs;
  }

  /** An instance's log without its last segment, as observations, and that last one. */
  function BeforeLastObs(id: ConnId, log: Log): (obs: seq<Obs>)
    requires |log| > 0
  {
    if |log| == 1 then [] else Observations(id, log[..|log| - 1])
  }

  function LastObs(id: ConnId, log: Log): Obs
    requires |log| > 0
  {
    Obs(log[|log| - 1], OpeningIdentity(id, log[0]).DirectionOf(log[|log| - 1].src))
  }

  lemma LastObservation(id: ConnId, log: Log)
    requires |log| > 0
    ensures Observations(id, log) == BeforeLastObs(id, log) + [LastObs(id, log)]
  {}

  lemma {:induction false} DerivedMetricsAreRun(id: ConnId, log: Log, cfg: Config)
    requires |log| > 0 && cfg.WantsMetrics(id)
    ensures DerivRun(id, log, cfg).metrics == MetricRun(Observations(id, log), cfg)
  {
    var n, o := |log| - 1, LastObs(id, log);
    LastObservation(id, log);
    if n > 0 {
      DerivedMetricsAreRun(id, log[..n], cfg);
      MetricsStep(DerivRun(id, log[..n], cfg), BeforeLastObs(id, log), id, o.seg, o.dir, cfg);
    } else {
      MetricsStep(NO_DERIV, [], id, o.seg, o.dir, cfg);
    }
  }

  /** The metric state a tracked connection carries is the metric run over its segments, so
      the refinement, window and round-trip theorems hold of every tracked connection. */
  lemma TrackedMetricsAreRun(cfg: Config, items: seq<Item>, i: nat)
    requires !Run(cfg, items).overflowed && i < |Run(cfg, items).conns|
    requires cfg.WantsMetrics(Run(cfg, items).conns[i].life.ident.id)
    ensures |Logs(cfg, items)[i]| > 0
    ensures Run(cfg, items).conns[i].deriv.metrics ==
            MetricRun(Observations(Run(cfg, items).conns[i].life.ident.id, Logs(cfg, items)[i]), cfg)
  {
    DerivedAreFolds(cfg, items);
    DerivedMetricsAreRun(Run(cfg, items).conns[i].life.ident.id, Logs(cfg, items)[i], cfg);
  }
}
