/** Whether the memory backstop drops the oldest sample.  It drops the front of the longest
    series of the connection that is recording: that is the oldest sample held only when no
    other series has an older front, and it is easy to drive a live run to where one has. */
module OldestFirst {
  import opened Core
  import opened Lifecycle
  import opened TrackerSpec
  import opened TrackerLives
  import opened Recording
  import opened Walk
  import opened Accounting
  import opened Chronology
  import opened Backstop
  import EnoughRoom
  import LiveView
  import Attribution
  import Stories
  import StateSeries

  // ------------------------------------------------------------------ what is dropped

  /** Recording on connection `idx` makes room by dropping a sample. */
  predicate Drops(s: TState, idx: nat)
    requires idx < |s.conns|
  {
    !Refuses(s) && s.collected >= s.cfg.retention.MaxSamples() && CanPop(s.conns[idx].hist)
  }

  /** The sample that goes. */
  function Dropped(h: Hist): Sample
    requires CanPop(h)
  {
    h[Longest(h, KINDS)][0]
  }

  lemma DropsDropped(s: TState, idx: nat, x: Tagged)
    requires idx < |s.conns| && Drops(s, idx)
    ensures var h, r := s.conns[idx].hist, Push(s, idx, x);
            var k := Longest(h, KINDS);
            && h[k] == [Dropped(h)] + h[k][1..]
            && r.conns == s.conns[idx := s.conns[idx].(hist := Append(h[k := h[k][1..]], x.kind, x.sample))]
  {
    PushEffect(s, idx, x);
  }

  /** No sample of `h` that could be dropped is older than `x`. */
  predicate OldestIn(x: Sample, h: Hist) {
    forall k: Kind, j: nat | j < Evictable(h, k) :: x.t <= h[k][j].t
  }

  predicate OldestOfAll(x: Sample, conns: seq<Conn>) {
    forall i | 0 <= i < |conns| :: OldestIn(x, conns[i].hist)
  }

  /** No series of `h` with something to give up starts before `t`. */
  predicate NoOlderFront(h: Hist, t: u64) {
    forall k: Kind | Evictable(h, k) > 0 :: t <= h[k][0].t
  }

  lemma OldestByFronts(x: Sample, h: Hist)
    requires forall k: Kind :: Sorted(h[k])
    ensures OldestIn(x, h) <==> NoOlderFront(h, x.t)
  {
    if NoOlderFront(h, x.t) {
      forall k: Kind, j: nat | j < Evictable(h, k)
        ensures x.t <= h[k][j].t
      {
        assert Sorted(h[k]) && h[k][0].t <= h[k][j].t;
      }
    }
  }

  /** The documented choice, the oldest sample, against the code's. */
  ghost predicate Judged(s: TState, idx: nat)
    requires idx < |s.conns| && CanPop(s.conns[idx].hist)
  {
    var x := Dropped(s.conns[idx].hist);
    && (OldestIn(x, s.conns[idx].hist) <==> NoOlderFront(s.conns[idx].hist, x.t))
    && (OldestOfAll(x, s.conns) <==> forall i | 0 <= i < |s.conns| :: NoOlderFront(s.conns[i].hist, x.t))
  }

  /** Where every series is in order, the sample dropped is the oldest of its connection exactly
      when no series of that connection that has something to give up has an older front than
      its longest; and the oldest of all exactly when no series of any connection has. */
  lemma DropsOldestExactly(s: TState, idx: nat)
    requires idx < |s.conns| && Drops(s, idx) && AllOrdered(s)
    ensures Judged(s, idx)
  {
    forall i | 0 <= i < |s.conns|
      ensures OldestIn(Dropped(s.conns[idx].hist), s.conns[i].hist) <==>
              NoOlderFront(s.conns[i].hist, Dropped(s.conns[idx].hist).t)
    {
      assert HistOrdered(s.conns[i].hist, s.now);
      OldestByFronts(Dropped(s.conns[idx].hist), s.conns[i].hist);
    }
  }

  // ----------------------------------------------------------- every drop of every run

  /** Handling the item, the tracker records `x` on connection `idx` in state `p`: the samples a
      segment produces one by one, or those a tick takes of each connection that is not idle. */
  ghost predicate RecordsIn(s: TState, item: Item, p: TState, idx: nat, x: Tagged)
    requires s.WF()
  {
    match item
    case Seg(seg) =>
      var s1 := s.(now := Max(s.now, seg.ts));
      idx == Target(s1, seg) && OneOf(Placed(s1, seg), idx, Produced(s1, seg), p, x)
    case Tick(t) =>
      var s1 := s.(now := Max(s.now, t));
      && idx < |s.conns| && SatSub(s1.now, s.conns[idx].life.traffic.lastAt) <= s.cfg.deadAfter
      && OneOf(DecayUpTo(s1, s1.now, idx), idx, DecayPart(s.conns[idx].deriv.metrics, s1.now, s.cfg), p, x)
  }

  /** Of the recordings of `xs` from `a` on, `x` in state `p` is one. */
  ghost predicate OneOf(a: TState, idx: nat, xs: seq<Tagged>, p: TState, x: Tagged)
    requires idx < |a.conns|
  {
    exists n: nat :: n < |xs| && x == xs[n] && p == PushAll(a, idx, xs[..n])
  }

  /** These are all the recordings there are. */
  lemma NothingElseIsRecorded(s: TState, item: Item, i: nat)
    requires s.WF() && Accounted(s) && s.cfg.retention.Evict? && i < |s.conns|
    ensures match item
            case Seg(seg) =>
              var s1 := s.(now := Max(s.now, seg.ts));
              ObserveSegment(s1, seg) == PushAll(Placed(s1, seg), Target(s1, seg), Produced(s1, seg))
            case Tick(t) =>
              var s1 := s.(now := Max(s.now, t));
              DecayUpTo(s1, s1.now, i + 1) ==
                if SatSub(s1.now, s.conns[i].life.traffic.lastAt) > s.cfg.deadAfter then DecayUpTo(s1, s1.now, i)
                else PushAll(DecayUpTo(s1, s1.now, i), i, DecayPart(s.conns[i].deriv.metrics, s1.now, s.cfg))
  {
    match item
    case Seg(seg) =>
      ObserveSegmentAccounted(s.(now := Max(s.now, seg.ts)), seg);
      ObserveSegmentIsPut(s.(now := Max(s.now, seg.ts)), seg);
    case Tick(t) => TurnIsPush(s.(now := Max(s.now, t)), i);
  }

  lemma TurnIsPush(s: TState, i: nat)
    requires Accounted(s) && s.cfg.retention.Evict? && i < |s.conns|
    ensures var p := DecayUpTo(s, s.now, i);
            DecayUpTo(s, s.now, i + 1) ==
              if SatSub(s.now, s.conns[i].life.traffic.lastAt) > s.cfg.deadAfter then p
              else PushAll(p, i, DecayPart(s.conns[i].deriv.metrics, s.now, s.cfg))
  {
    Stories.DecaySucceeds(s, s.now, i);
    Stories.DecaySucceeds(s, s.now, i + 1);
    Stories.DecaySampled(s, s.now, i + 1);
    Attribution.DecaySameDerived(s, s.now, i);
    SampleIsPush(s, DecayUpTo(s, s.now, i), DecayUpTo(s, s.now, i + 1), i);
  }

  lemma SampleIsPush(s: TState, p: TState, q: TState, i: nat)
    requires i < |s.conns| && Stories.Samples(s, p, q, s.now, i) && Attribution.SameDerived(s.conns, p.conns)
    requires !p.overflowed && !q.overflowed
    ensures q == if SatSub(s.now, s.conns[i].life.traffic.lastAt) > s.cfg.deadAfter then p
                 else PushAll(p, i, DecayPart(s.conns[i].deriv.metrics, s.now, s.cfg))
  {
    if SatSub(s.now, s.conns[i].life.traffic.lastAt) <= s.cfg.deadAfter {
      Stories.DecayOneIsPush(p, i, s.now);
    }
  }

  lemma PushesOrdered(a: TState, idx: nat, xs: seq<Tagged>, t: u64)
    requires idx < |a.conns| && a.now == t && AllOrdered(a) && AreSound(xs, t)
    ensures AllOrdered(PushAll(a, idx, xs))
  {
    MovesOrdered(t);
    assert AllSound(NotesOf(xs), t);
    PlayKeeps(a, idx, NotesOf(xs), t, OrderedAt(t));
    NotesPush(a, idx, xs);
  }

  lemma OneOfOrdered(a: TState, idx: nat, xs: seq<Tagged>, p: TState, x: Tagged, t: u64)
    requires idx < |a.conns| && a.now == t && AllOrdered(a) && AreSound(xs, t) && OneOf(a, idx, xs, p, x)
    ensures AllOrdered(p) && idx < |p.conns|
  {
    var n: nat :| n < |xs| && x == xs[n] && p == PushAll(a, idx, xs[..n]);
    PushesOrdered(a, idx, xs[..n], t);
  }

  lemma PlacedOrdered(s: TState, seg: Segment)
    requires s.WF() && AllOrdered(s)
    ensures AllOrdered(Placed(s, seg)) && Placed(s, seg).now == s.now
  {
    PlacedRecordsNothing(s, seg);
    assert HistOrdered(NO_HIST, s.now);
  }

  lemma RecordsInOrder(s: TState, item: Item, p: TState, idx: nat, x: Tagged)
    requires s.WF() && AllOrdered(s) && RecordsIn(s, item, p, idx, x) && (item.Seg? ==> s.now <= item.seg.ts)
    ensures AllOrdered(p) && idx < |p.conns|
  {
    match item
    case Seg(seg) =>
      var s1 := s.(now := seg.ts);
      LaterOrdered(s, seg.ts);
      PlacedOrdered(s1, seg);
      ProducedSound(s1, seg);
      OneOfOrdered(Placed(s1, seg), idx, Produced(s1, seg), p, x, seg.ts);
    case Tick(t) =>
      var s1 := s.(now := Max(s.now, t));
      LaterOrdered(s, s1.now);
      MovesOrdered(s1.now);
      DecayKeeps(s1, s1.now, idx, OrderedAt(s1.now));
      DecaySound(s.conns[idx].deriv.metrics, s1.now, s.cfg);
      OneOfOrdered(DecayUpTo(s1, s1.now, idx), idx, DecayPart(s.conns[idx].deriv.metrics, s1.now, s.cfg), p, x, s1.now);
  }

  /** In any run in which no segment comes before an earlier item, every drop, whichever recording
      of whichever segment or tick causes it, is judged so. */
  lemma EveryDropIsJudged(cfg: Config, items: seq<Item>, item: Item, p: TState, idx: nat, x: Tagged)
    requires SegmentsInTime(items + [item]) && RecordsIn(Run(cfg, items), item, p, idx, x)
    requires idx < |p.conns| && Drops(p, idx)
    ensures Judged(p, idx)
  {
    var all := items + [item];
    assert all[|items|] == item && forall i | 0 <= i < |items| :: all[i] == items[i];
    SeriesAreOrdered(cfg, items);
    if item.Seg? {
      ClockIsLatest(cfg, items, item.seg.ts);
    }
    RecordsInOrder(Run(cfg, items), item, p, idx, x);
    DropsOldestExactly(p, idx);
  }

  // --------------------------------------------------- filling up one connection at a time

  /** A connection with a state takes a sample without passing the ceiling, if there is room
      or it has something to give up; then it has something to give up. */
  ghost predicate TakesIn(p: TState, r: TState, idx: nat)
    requires idx < |p.conns| && |r.conns| == |p.conns|
  {
    var n := p.cfg.retention.ceiling;
    && !r.overflowed && |r.conns[idx].hist[STATES]| > 0 && CanPop(r.conns[idx].hist)
    && p.collected <= r.collected <= n && (p.collected < n ==> p.collected < r.collected)
  }

  ghost predicate Receptive(p: TState, idx: nat)
    requires idx < |p.conns|
  {
    && p.cfg.retention.Evict? && !p.overflowed && |p.conns[idx].hist[STATES]| > 0
    && p.collected <= p.cfg.retention.ceiling && 0 < p.cfg.retention.ceiling
    && (p.collected < p.cfg.retention.ceiling || CanPop(p.conns[idx].hist))
  }

  lemma PushTakesIn(p: TState, idx: nat, x: Tagged)
    requires idx < |p.conns| && Receptive(p, idx)
    ensures TakesIn(p, Push(p, idx, x), idx)
  {
    PushEffect(p, idx, x);
    var h := p.conns[idx].hist;
    var g := Append(Room(p, h), x.kind, x.sample);
    assert |Room(p, h)[STATES]| > 0 && |g[x.kind]| > KeepMin(x.kind);
    assert Evictable(g, x.kind) <= Evictable(g, Longest(g, KINDS));
  }

  lemma {:induction false} PushesTakeIn(p: TState, idx: nat, xs: seq<Tagged>)
    requires idx < |p.conns| && Receptive(p, idx) && |xs| > 0
    ensures TakesIn(p, PushAll(p, idx, xs), idx)
  {
    var pre, x := xs[..|xs| - 1], xs[|xs| - 1];
    if |pre| > 0 {
      PushesTakeIn(p, idx, pre);
    }
    PushTakesIn(PushAll(p, idx, pre), idx, x);
  }

  // --------------------------------------------------------------------- the witness

  /** A pure acknowledgement from the `k`-th client of the row. */
  function Ack(t: u64, k: nat): Segment {
    Segment(t, Endpoint(k + 1, 0), Endpoint(0, 0), 0, 0, Flags(false, false, false, true), [], 0)
  }

  /** Still waiting for an answer to its SYN. */
  predicate Waits(l: Life, k: nat) {
    l.phase.state == SynSent && l.ident.origin == Endpoint(k + 1, 0)
  }

  lemma WaitingGoesOn(l: Life, t: u64, k: nat)
    requires Waits(l, k)
    ensures Waits(l.Join(Ack(t, k)), k)
  {}

  /** Nothing recorded is older than `t`, and the window still reaches back to `t`. */
  ghost predicate Unaged(s: TState, t: u64) {
    && s.WF() && s.cfg.retention.Evict? && s.cfg.collectState && !s.overflowed
    && AllFrom(s, t) && Horizon(s.now, s.cfg.retention.horizon) <= t <= s.now
  }

  lemma {:induction false} EvictingPushes(p: TState, idx: nat, xs: seq<Tagged>)
    requires idx < |p.conns| && p.cfg.retention.Evict? && !p.overflowed
    ensures !PushAll(p, idx, xs).overflowed
  {
    if |xs| > 0 {
      EvictingPushes(p, idx, xs[..|xs| - 1]);
      PushEffect(PushAll(p, idx, xs[..|xs| - 1]), idx, xs[|xs| - 1]);
    }
  }

  /** Then a segment is placed and recorded, and nothing ages. */
  lemma LandsUnaged(s: TState, seg: Segment, t: u64)
    requires Unaged(s, t) && s.now == seg.ts
    ensures var r := EvictSamples(ObserveSegment(s, seg));
            r == PushAll(Placed(s, seg), Target(s, seg), Produced(s, seg)) && Unaged(r, t) && r.now == s.now
            && r.collected <= s.collected + MostSamples(seg) && r == ObserveSegment(s, seg)
  {
    PlacedRecordsNothing(s, seg);
    EvictingPushes(Placed(s, seg), Target(s, seg), Produced(s, seg));
    ObserveSegmentIsPut(s, seg);
    SegmentFrom(s, seg, t);
    SegmentLives(s, seg);
    AgesNothing(ObserveSegment(s, seg), t);
    EnoughRoom.SegmentGrows(s, seg);
  }

  /** Exactly connection `idx` changed. */
  ghost predicate OnlyMoved(s: TState, r: TState, idx: nat) {
    && |r.conns| == Max(|s.conns|, idx + 1)
    && forall i | 0 <= i < |s.conns| && i != idx :: r.conns[i] == s.conns[i]
  }

  lemma PlacedMoves(s: TState, seg: Segment)
    requires s.WF()
    ensures OnlyMoved(s, PushAll(Placed(s, seg), Target(s, seg), Produced(s, seg)), Target(s, seg))
  {}

  /** The first segment of a client, and the room it takes. */
  lemma HelloOpens(s: TState, t: u64, k: nat)
    requires Unaged(s, t) && s.now >= t && Client(s.now, k).Pair() !in s.live
    ensures var seg := Client(s.now, k);
            var r := EvictSamples(ObserveSegment(s, seg));
            && Unaged(r, t) && r.now == s.now && OnlyMoved(s, r, |s.conns|) && r.collected <= s.collected + 8
            && r.live == s.live[seg.Pair() := |s.conns|] && Waits(r.conns[|s.conns|].life, k)
  {
    var seg := Client(s.now, k);
    LandsUnaged(s, seg, t);
    PlacedMoves(s, seg);
    SegmentLives(s, seg);
    var r := EvictSamples(ObserveSegment(s, seg));
    assert Lives(r.conns)[|s.conns|] == Opening(s, seg);
  }

  lemma AckJoins(s: TState, t: u64, k: nat, idx: nat)
    requires s.WF() && Ack(t, k).Pair() in s.live && idx == s.live[Ack(t, k).Pair()] && Waits(s.conns[idx].life, k)
    ensures Joins(s, Ack(t, k)) && Target(s, Ack(t, k)) == idx
  {}

  lemma SegmentTakesIn(s: TState, seg: Segment, t: u64)
    requires Unaged(s, t) && s.now == seg.ts && Target(s, seg) < |s.conns| && Receptive(s, Target(s, seg))
    ensures var r := EvictSamples(ObserveSegment(s, seg));
            |r.conns| == |s.conns| && TakesIn(s, r, Target(s, seg))
  {
    LandsUnaged(s, seg, t);
    PlacedRecordsNothing(s, seg);
    StateSeries.ProducesOneState(s, seg);
    var p, idx, xs := Placed(s, seg), Target(s, seg), Produced(s, seg);
    PushesTakeIn(p, idx, xs);
    assert |PushAll(p, idx, xs).conns| == |p.conns|;
  }

  /** A further acknowledgement of a client still waiting. */
  lemma AckTakesIn(s: TState, t: u64, k: nat, idx: nat)
    requires Unaged(s, t) && Ack(s.now, k).Pair() in s.live && idx == s.live[Ack(s.now, k).Pair()]
    requires Waits(s.conns[idx].life, k) && Receptive(s, idx)
    ensures var r := EvictSamples(ObserveSegment(s, Ack(s.now, k)));
            && Unaged(r, t) && r.now == s.now && OnlyMoved(s, r, idx) && r.collected <= s.collected + 8
            && r.live == s.live && Waits(r.conns[idx].life, k) && TakesIn(s, r, idx)
  {
    var seg := Ack(s.now, k);
    AckJoins(s, s.now, k, idx);
    SegmentTakesIn(s, seg, t);
    LandsUnaged(s, seg, t);
    PlacedMoves(s, seg);
    AckKeepsWaiting(s, k, idx);
  }

  lemma AckKeepsWaiting(s: TState, k: nat, idx: nat)
    requires s.WF() && Ack(s.now, k).Pair() in s.live && idx == s.live[Ack(s.now, k).Pair()]
    requires Waits(s.conns[idx].life, k) && Joins(s, Ack(s.now, k))
    ensures var r := EvictSamples(ObserveSegment(s, Ack(s.now, k)));
            r.live == s.live && idx < |r.conns| && Waits(r.conns[idx].life, k)
  {
    var seg := Ack(s.now, k);
    SegmentLives(s, seg);
    WaitingGoesOn(s.conns[idx].life, s.now, k);
    assert Lives(EvictSamples(ObserveSegment(s, seg)).conns)[idx] == s.conns[idx].life.Join(seg);
  }

  /** Every connection but the first holds only samples from `t` on. */
  ghost predicate LateFrom(s: TState, t: u64) {
    forall i | 1 <= i < |s.conns| :: HistFrom(s.conns[i].hist, t)
  }

  ghost function LaterThan(t: u64): TState -> bool { (s: TState) => LateFrom(s, t) }

  lemma PushLate(s: TState, idx: nat, x: Tagged, t: u64)
    requires idx < |s.conns| && LateFrom(s, t) && x.sample.t == t
    ensures LateFrom(Push(s, idx, x), t)
  {
    PushEffect(s, idx, x);
    if idx > 0 {
      RoomFrom(s, s.conns[idx].hist, t);
      AppendFrom(Room(s, s.conns[idx].hist), x.kind, x.sample, t);
    }
  }

  lemma SegmentLate(s: TState, seg: Segment)
    requires s.WF() && LateFrom(s, seg.ts)
    ensures LateFrom(ObserveSegment(s, seg), seg.ts)
  {
    forall r: TState, idx: nat, x: Tagged | idx < |r.conns| && LaterThan(seg.ts)(r) && Sound(x, seg.ts)
      ensures LaterThan(seg.ts)(Push(r, idx, x))
    {
      PushLate(r, idx, x, seg.ts);
    }
    BegunLate(s, seg);
    SegmentKeeps(s, seg, LaterThan(seg.ts));
  }

  lemma BegunLate(s: TState, seg: Segment)
    requires s.WF() && LateFrom(s, seg.ts)
    ensures LateFrom(Begun(s, seg), seg.ts)
  {}

  lemma LastSegment(cfg: Config, items: seq<Item>, seg: Segment)
    ensures var s := Run(cfg, items);
            Run(cfg, items + [Seg(seg)]) == EvictSamples(ObserveSegment(s.(now := Max(s.now, seg.ts)), seg))
  {
    assert (items + [Seg(seg)])[..|items|] == items;
  }

  lemma NextSegment(cfg: Config, items: seq<Item>, more: seq<Item>, seg: Segment)
    requires Run(cfg, items).now <= seg.ts && more == items + [Seg(seg)]
    ensures Run(cfg, more) == EvictSamples(ObserveSegment(Run(cfg, items).(now := seg.ts), seg))
  {
    LastSegment(cfg, items, seg);
  }

  /** A live configuration that records states, with some room. */
  predicate Roomy(cfg: Config) {
    cfg.retention.Evict? && cfg.retention.horizon > 0 && cfg.retention.ceiling > 24 && cfg.collectState
  }

  /** One client has opened and been heard again, all at `t`. */
  function Early(t: u64): seq<Item> { [Seg(Client(t, 0))] + [Seg(Ack(t, 0))] }

  /** After it: its samples are of `t`, and it has something to give up. */
  ghost predicate EarlyOnly(s: TState, t: u64) {
    && Unaged(s, t) && s.now == t && |s.conns| == 1 && s.live == map[Client(t, 0).Pair() := 0]
    && s.collected <= 16 && CanPop(s.conns[0].hist) && HistOrdered(s.conns[0].hist, t)
  }

  lemma HasState(cfg: Config, items: seq<Item>, i: nat)
    requires cfg.retention.Evict? && cfg.collectState && i < |Run(cfg, items).conns|
    ensures |Run(cfg, items).conns[i].hist[STATES]| > 0 && Run(cfg, items).cfg == cfg
  {
    LiveView.LiveStates(cfg, items);
    RunKeepsConfig(cfg, items);
    assert StateSeries.Resolvable(Run(cfg, items).conns[i], Run(cfg, items).now);
  }

  lemma HelloRun(cfg: Config, t: u64)
    requires Roomy(cfg)
    ensures var s := Run(cfg, [Seg(Client(t, 0))]);
            && Unaged(s, t) && s.now == t && |s.conns| == 1 && s.live == map[Client(t, 0).Pair() := 0]
            && s.collected <= 8 && Waits(s.conns[0].life, 0) && Receptive(s, 0) && s.cfg == cfg
  {
    var items := [Seg(Client(t, 0))];
    assert [] + items == items && Run(cfg, []) == New(cfg);
    LastSegment(cfg, [], Client(t, 0));
    HelloOpens(New(cfg).(now := t), t, 0);
    HasState(cfg, items, 0);
  }

  lemma EarlyStep(s: TState, t: u64)
    requires Unaged(s, t) && s.now == t && |s.conns| == 1 && s.live == map[Client(t, 0).Pair() := 0]
    requires s.collected <= 8 && Waits(s.conns[0].life, 0) && Receptive(s, 0)
    ensures var r := EvictSamples(ObserveSegment(s, Ack(t, 0)));
            HistOrdered(r.conns[0].hist, t) ==> EarlyOnly(r, t)
  {
    AckTakesIn(s, t, 0, 0);
  }

  lemma EarlyRun(cfg: Config, t: u64)
    requires Roomy(cfg)
    ensures EarlyOnly(Run(cfg, Early(t)), t) && Run(cfg, Early(t)).cfg == cfg
  {
    HelloRun(cfg, t);
    NextSegment(cfg, [Seg(Client(t, 0))], Early(t), Ack(t, 0));
    EarlyStep(Run(cfg, [Seg(Client(t, 0))]), t);
    EarlyInOrder(cfg, t);
  }

  lemma EarlyInOrder(cfg: Config, t: u64)
    ensures forall c | c in Run(cfg, Early(t)).conns :: HistOrdered(c.hist, t)
    ensures Run(cfg, Early(t)).cfg == cfg
  {
    EarlyInTime(t);
    InOrderBy(cfg, Early(t), t);
  }

  lemma EarlyInTime(t: u64)
    ensures SegmentsInTime(Early(t)) && forall i | 0 <= i < |Early(t)| :: TimeOf(Early(t)[i]) <= t
  {}

  lemma InOrderBy(cfg: Config, items: seq<Item>, t: u64)
    requires SegmentsInTime(items) && forall i | 0 <= i < |items| :: TimeOf(items[i]) <= t
    ensures forall c | c in Run(cfg, items).conns :: HistOrdered(c.hist, t)
    ensures Run(cfg, items).cfg == cfg
  {
    RunKeepsConfig(cfg, items);
    SeriesAreOrdered(cfg, items);
    ClockIsLatest(cfg, items, t);
    LaterOrdered(Run(cfg, items), t);
  }

  /** Then, a moment later, another client opens and is heard `n` times more. */
  function Crowd(t: u64, n: nat): seq<Item>
    requires t < U64_MAX
  {
    if n == 0 then Early(t) + [Seg(Client(t + 1, 1))] else Crowd(t, n - 1) + [Seg(Ack(t + 1, 1))]
  }

  /** The first client has not moved; every sample of the second is of the later moment. */
  ghost predicate Crowded(s: TState, early: TState, t: u64)
    requires t < U64_MAX
  {
    && Unaged(s, t) && s.now == t + 1 && |s.conns| == 2 && |early.conns| == 1 && s.conns[0] == early.conns[0]
    && Client(t, 1).Pair() in s.live && s.live[Client(t, 1).Pair()] == 1 && Waits(s.conns[1].life, 1)
    && Receptive(s, 1) && LateFrom(s, t + 1) && s.cfg == early.cfg
  }

  lemma OpeningStep(early: TState, t: u64)
    requires t < U64_MAX && EarlyOnly(early, t) && early.cfg.retention.horizon > 0 && early.cfg.retention.ceiling > 24
    ensures var r := EvictSamples(ObserveSegment(early.(now := t + 1), Client(t + 1, 1)));
            |r.conns| == 2 && (|r.conns[1].hist[STATES]| > 0 ==> Crowded(r, early, t))
  {
    var now := early.(now := t + 1);
    ClientsDiffer(t, 0, 1);
    HelloOpens(now, t, 1);
    LandsUnaged(now, Client(t + 1, 1), t);
    SegmentLate(now, Client(t + 1, 1));
    SegmentLives(now, Client(t + 1, 1));
  }

  lemma CrowdOpens(cfg: Config, t: u64)
    requires Roomy(cfg) && t < U64_MAX
    ensures CrowdAt(cfg, t, 0)
  {
    EarlyRun(cfg, t);
    NextSegment(cfg, Early(t), Crowd(t, 0), Client(t + 1, 1));
    OpeningStep(Run(cfg, Early(t)), t);
    HasState(cfg, Crowd(t, 0), 1);
  }

  lemma CrowdStep(s: TState, early: TState, t: u64)
    requires t < U64_MAX && Crowded(s, early, t)
    ensures var r := EvictSamples(ObserveSegment(s, Ack(t + 1, 1)));
            Crowded(r, early, t) && TakesIn(s, r, 1)
  {
    AckTakesIn(s, t, 1, 1);
    LandsUnaged(s, Ack(t + 1, 1), t);
    SegmentLate(s, Ack(t + 1, 1));
    SegmentLives(s, Ack(t + 1, 1));
  }

  ghost predicate CrowdAt(cfg: Config, t: u64, n: nat)
    requires t < U64_MAX
  {
    Crowded(Run(cfg, Crowd(t, n)), Run(cfg, Early(t)), t)
  }

  function Count(cfg: Config, t: u64, n: nat): nat
    requires t < U64_MAX
  {
    Run(cfg, Crowd(t, n)).collected
  }

  lemma CrowdGrows(cfg: Config, t: u64, n: nat)
    requires t < U64_MAX && CrowdAt(cfg, t, n)
    ensures CrowdAt(cfg, t, n + 1)
    ensures Count(cfg, t, n) <= Count(cfg, t, n + 1) <= cfg.retention.ceiling
    ensures Count(cfg, t, n) < cfg.retention.ceiling ==> Count(cfg, t, n) < Count(cfg, t, n + 1)
  {
    RunKeepsConfig(cfg, Early(t));
    LastSegment(cfg, Crowd(t, n), Ack(t + 1, 1));
    CrowdStep(Run(cfg, Crowd(t, n)), Run(cfg, Early(t)), t);
  }

  lemma {:induction false} CrowdFills(cfg: Config, t: u64, n: nat) returns (m: nat)
    requires t < U64_MAX && CrowdAt(cfg, t, n) && Count(cfg, t, n) <= cfg.retention.ceiling
    ensures CrowdAt(cfg, t, m) && Count(cfg, t, m) == cfg.retention.ceiling
    decreases cfg.retention.ceiling - Count(cfg, t, n)
  {
    if Count(cfg, t, n) == cfg.retention.ceiling {
      m := n;
    } else {
      CrowdGrows(cfg, t, n);
      m := CrowdFills(cfg, t, n + 1);
    }
  }

  /** The first client could give up a sample older than any the second holds. */
  ghost predicate OlderHeld(s: TState, t: u64)
    requires t < U64_MAX
  {
    && |s.conns| == 2 && CanPop(s.conns[0].hist) && HistOrdered(s.conns[0].hist, t) && LateFrom(s, t + 1)
  }

  lemma DropsNewer(s: TState, t: u64)
    requires t < U64_MAX && OlderHeld(s, t) && Drops(s, 1)
    ensures Dropped(s.conns[0].hist).t < Dropped(s.conns[1].hist).t
    ensures !OldestOfAll(Dropped(s.conns[1].hist), s.conns)
  {
    var h := s.conns[0].hist;
    assert 0 < Evictable(h, Longest(h, KINDS)) && NoLaterThan(h[Longest(h, KINDS)], t);
    assert HistFrom(s.conns[1].hist, t + 1);
  }

  /** When full, the next acknowledgement of the second client is recorded by dropping such a
      newer sample. */
  lemma FullDropsNewer(s: TState, early: TState, t: u64)
    requires t < U64_MAX && Crowded(s, early, t) && EarlyOnly(early, t)
    requires s.collected == s.cfg.retention.ceiling
    ensures var seg := Ack(t + 1, 1);
            var p := Placed(s, seg);
            && Target(s, seg) == 1 && |p.conns| == 2 && Drops(p, 1)
            && !OldestOfAll(Dropped(p.conns[1].hist), p.conns)
  {
    var seg := Ack(t + 1, 1);
    AckJoins(s, t + 1, 1, 1);
    PlacedRecordsNothing(s, seg);
    DropsNewer(Placed(s, seg), t);
  }

  lemma FirstIsOne(a: TState, idx: nat, xs: seq<Tagged>)
    requires idx < |a.conns| && |xs| > 0
    ensures OneOf(a, idx, xs, a, xs[0])
  {
    assert a == PushAll(a, idx, xs[..0]);
  }

  lemma InTimeGoesOn(items: seq<Item>, seg: Segment)
    requires SegmentsInTime(items) && forall i | 0 <= i < |items| :: TimeOf(items[i]) <= seg.ts
    ensures SegmentsInTime(items + [Seg(seg)])
    ensures forall i | 0 <= i < |items + [Seg(seg)]| :: TimeOf((items + [Seg(seg)])[i]) <= seg.ts
  {}

  lemma {:induction false} CrowdInTime(t: u64, n: nat)
    requires t < U64_MAX
    ensures SegmentsInTime(Crowd(t, n)) && forall i | 0 <= i < |Crowd(t, n)| :: TimeOf(Crowd(t, n)[i]) <= t + 1
  {
    if n == 0 {
      InTimeGoesOn(Early(t), Client(t + 1, 1));
    } else {
      CrowdInTime(t, n - 1);
      InTimeGoesOn(Crowd(t, n - 1), Ack(t + 1, 1));
    }
  }

  /** The first recording of `seg` drops a sample newer than one that could go. */
  ghost predicate DropsNewerNext(s: TState, seg: Segment)
    requires s.WF()
  {
    var now := s.(now := Max(s.now, seg.ts));
    var p, idx := Placed(now, seg), Target(now, seg);
    && |Produced(now, seg)| > 0 && RecordsIn(s, Seg(seg), p, idx, Produced(now, seg)[0])
    && Drops(p, idx) && !OldestOfAll(Dropped(p.conns[idx].hist), p.conns)
  }

  /** Whatever the window, the ceiling from 25 on and the other gates, a run in order of time
      fills the ceiling with two clients, and then one more segment drops a sample of its own
      client while an older one of the other, which could go, stays. */
  lemma NewerCanGoFirst(cfg: Config, t: u64) returns (items: seq<Item>, seg: Segment)
    requires Roomy(cfg) && t < U64_MAX
    ensures SegmentsInTime(items + [Seg(seg)]) && DropsNewerNext(Run(cfg, items), seg)
    ensures var s, r := Run(cfg, items), Run(cfg, items + [Seg(seg)]);
            && s.collected == r.collected == cfg.retention.ceiling && |s.conns| == |r.conns| == 2
            && r.conns[0] == s.conns[0] && CanPop(s.conns[0].hist) && CanPop(s.conns[1].hist)
            && Dropped(s.conns[0].hist).t < Dropped(s.conns[1].hist).t
  {
    CrowdOpens(cfg, t);
    EarlyRun(cfg, t);
    CrowdGrows(cfg, t, 0);
    var m := CrowdFills(cfg, t, 1);
    items, seg := Crowd(t, m), Ack(t + 1, 1);
    CrowdInTime(t, m);
    InTimeGoesOn(items, seg);
    NextDropsNewer(cfg, t, m);
    CrowdGrows(cfg, t, m);
  }

  lemma NextDropsNewer(cfg: Config, t: u64, m: nat)
    requires t < U64_MAX && CrowdAt(cfg, t, m) && Count(cfg, t, m) == cfg.retention.ceiling
    requires EarlyOnly(Run(cfg, Early(t)), t)
    ensures DropsNewerNext(Run(cfg, Crowd(t, m)), Ack(t + 1, 1))
    ensures var s := Run(cfg, Crowd(t, m));
            && CanPop(s.conns[0].hist) && CanPop(s.conns[1].hist)
            && Dropped(s.conns[0].hist).t < Dropped(s.conns[1].hist).t
  {
    var s, seg := Run(cfg, Crowd(t, m)), Ack(t + 1, 1);
    RunKeepsConfig(cfg, Early(t));
    FullDropsNewer(s, Run(cfg, Early(t)), t);
    StateSeries.ProducesOneState(s, seg);
    FirstIsOne(Placed(s, seg), 1, Produced(s, seg));
    DropsNewer(s, t);
  }
}
