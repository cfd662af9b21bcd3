/** Series in order: when no segment comes before an item already seen, every retained series
    is sorted by time, under either policy, through aging, the backstop and ticks. */
module Chronology {
  import opened Core
  import opened TrackerSpec
  import opened TrackerLives
  import opened Walk
  import Accounting

  ghost predicate HistOrdered(h: Hist, now: u64) {
    forall k: Kind :: Sorted(h[k]) && NoLaterThan(h[k], now)
  }

  ghost predicate AllOrdered(s: TState) {
    forall i | 0 <= i < |s.conns| :: HistOrdered(s.conns[i].hist, s.now)
  }

  // ------------------------------------------------------------- what keeps order

  lemma {:induction false} EvictFrontOrdered(dq: seq<Sample>, horizon: u64, keepMin: nat, now: u64)
    requires Sorted(dq) && NoLaterThan(dq, now)
    ensures Sorted(EvictFront(dq, horizon, keepMin)) && NoLaterThan(EvictFront(dq, horizon, keepMin), now)
  {
    if |dq| > keepMin && dq[0].t < horizon {
      EvictFrontOrdered(dq[1..], horizon, keepMin, now);
    }
  }

  lemma AgeHistOrdered(h: Hist, horizon: u64, now: u64)
    requires HistOrdered(h, now)
    ensures HistOrdered(AgeHist(h, horizon), now)
  {
    forall k: Kind
      ensures Sorted(AgeHist(h, horizon)[k]) && NoLaterThan(AgeHist(h, horizon)[k], now)
    {
      assert Sorted(h[k]) && NoLaterThan(h[k], now);
      EvictFrontOrdered(h[k], horizon, KeepMin(k), now);
      assert AgeHist(h, horizon)[k] == EvictFront(h[k], horizon, KeepMin(k));
    }
  }

  lemma AgingOrdered(s: TState)
    requires AllOrdered(s)
    ensures AllOrdered(EvictSamples(s))
  {
    if s.cfg.retention.Evict? {
      var horizon := Horizon(s.now, s.cfg.retention.horizon);
      forall i | 0 <= i < |s.conns|
        ensures HistOrdered(AgeHist(s.conns[i].hist, horizon), s.now)
      {
        AgeHistOrdered(s.conns[i].hist, horizon, s.now);
      }
    }
  }

  lemma CollectionOrdered(s: TState)
    requires s.WF() && AllOrdered(s)
    ensures AllOrdered(EvictDead(s))
  {
    if s.cfg.retention.Evict? {
      var horizon := Horizon(s.now, s.cfg.retention.horizon);
      SurvivorsAreSubsequence(s.conns, s.now, horizon, s.cfg.deadAfter);
      var from := Origins(s.conns, s.now, horizon, s.cfg.deadAfter);
      var kept := Survivors(s.conns, s.now, horizon, s.cfg.deadAfter);
      forall i | 0 <= i < |kept|
        ensures HistOrdered(kept[i].hist, s.now)
      {
        assert kept[i] == s.conns[from[i]];
      }
    }
  }

  lemma RoomOrdered(s: TState, h: Hist, now: u64)
    requires HistOrdered(h, now)
    ensures HistOrdered(Room(s, h), now)
  {
    forall k: Kind
      ensures Sorted(PopLongest(h)[k]) && NoLaterThan(PopLongest(h)[k], now)
    {
      assert Sorted(h[k]) && NoLaterThan(h[k], now);
    }
  }

  lemma AppendOrdered(h: Hist, k: Kind, x: Sample, now: u64)
    requires HistOrdered(h, now) && x.t == now
    ensures HistOrdered(Append(h, k, x), now)
  {
    forall j: Kind
      ensures Sorted(Append(h, k, x)[j]) && NoLaterThan(Append(h, k, x)[j], now)
    {
      assert Sorted(h[j]) && NoLaterThan(h[j], now);
    }
  }

  lemma PushOrdered(s: TState, idx: nat, x: Tagged)
    requires idx < |s.conns| && AllOrdered(s) && x.sample.t == s.now
    ensures AllOrdered(Push(s, idx, x))
  {
    PushEffect(s, idx, x);
    RoomOrdered(s, s.conns[idx].hist, s.now);
    AppendOrdered(Room(s, s.conns[idx].hist), x.kind, x.sample, s.now);
  }

  // ------------------------------------------------------------------ every item

  /** In order, at time `t`. */
  ghost function OrderedAt(t: u64): TState -> bool {
    (s: TState) => s.now == t && AllOrdered(s)
  }

  lemma MovesOrdered(t: u64)
    ensures KeptByMoves(OrderedAt(t), t)
  {
    forall s: TState, idx: nat, x: Tagged | idx < |s.conns| && OrderedAt(t)(s) && Sound(x, t)
      ensures OrderedAt(t)(Push(s, idx, x))
    {
      PushOrdered(s, idx, x);
    }
  }

  lemma LaterOrdered(s: TState, now: u64)
    requires AllOrdered(s) && s.now <= now
    ensures AllOrdered(s.(now := now))
  {
    forall i, k: Kind | 0 <= i < |s.conns|
      ensures Sorted(s.conns[i].hist[k]) && NoLaterThan(s.conns[i].hist[k], now)
    {
      assert HistOrdered(s.conns[i].hist, s.now);
    }
  }

  lemma BegunOrdered(s: TState, seg: Segment)
    requires s.WF() && AllOrdered(s)
    ensures AllOrdered(Begun(s, seg)) && Begun(s, seg).now == s.now
  {
    assert HistOrdered(NO_HIST, s.now);
  }

  lemma SegmentOrdered(s: TState, seg: Segment)
    requires s.WF() && AllOrdered(s) && s.now <= seg.ts
    ensures AllOrdered(Step(s, Seg(seg)))
  {
    var s1 := s.(now := seg.ts);
    LaterOrdered(s, seg.ts);
    BegunOrdered(s1, seg);
    MovesOrdered(seg.ts);
    SegmentKeeps(s1, seg, OrderedAt(seg.ts));
    AgingOrdered(ObserveSegment(s1, seg));
  }

  lemma TickOrdered(s: TState, t: u64)
    requires s.WF() && AllOrdered(s)
    ensures AllOrdered(Step(s, Tick(t)))
  {
    if s.cfg.retention.Evict? {
      var s1 := s.(now := Max(s.now, t));
      LaterOrdered(s, s1.now);
      MovesOrdered(s1.now);
      DecayKeeps(s1, s1.now, |s1.conns|, OrderedAt(s1.now));
      AgingOrdered(EmitDecay(s1, s1.now));
      CollectionOrdered(EvictSamples(EmitDecay(s1, s1.now)));
    }
  }

  function TimeOf(item: Item): u64 {
    match item
    case Seg(seg) => seg.ts
    case Tick(t) => t
  }

  /** No segment comes before an earlier item. */
  ghost predicate SegmentsInTime(items: seq<Item>) {
    forall j, k | 0 <= j < k < |items| && items[k].Seg? :: TimeOf(items[j]) <= items[k].seg.ts
  }

  lemma {:induction false} ClockIsLatest(cfg: Config, items: seq<Item>, t: u64)
    requires forall i | 0 <= i < |items| :: TimeOf(items[i]) <= t
    ensures Run(cfg, items).now <= t
  {
    if |items| > 0 {
      ClockIsLatest(cfg, items[..|items| - 1], t);
      StepClock(Run(cfg, items[..|items| - 1]), items[|items| - 1]);
    }
  }

  lemma StepClock(s: TState, item: Item)
    requires s.WF()
    ensures s.now <= Step(s, item).now <= Max(s.now, TimeOf(item))
  {
    StepMovesClock(s, item);
  }

  /** When no segment comes before an earlier item, every series of every reachable tracker is
      in order and none of it in the future. */
  lemma {:induction false} SeriesAreOrdered(cfg: Config, items: seq<Item>)
    requires SegmentsInTime(items)
    ensures AllOrdered(Run(cfg, items))
  {
    if |items| > 0 {
      var pre, last := items[..|items| - 1], items[|items| - 1];
      SeriesAreOrdered(cfg, pre);
      match last
      case Seg(seg) =>
        ClockIsLatest(cfg, pre, seg.ts);
        SegmentOrdered(Run(cfg, pre), seg);
      case Tick(t) => TickOrdered(Run(cfg, pre), t);
    }
  }

  /** Every segment moves the clock; a tick does so only under eviction. */
  predicate MovesClock(cfg: Config, item: Item) { item.Seg? || cfg.retention.Evict? }

  /** `now` is the latest of the times that move the clock, or zero before the first. */
  ghost predicate LatestOf(cfg: Config, items: seq<Item>, now: u64) {
    && (forall i | 0 <= i < |items| && MovesClock(cfg, items[i]) :: TimeOf(items[i]) <= now)
    && (now == 0 || exists i :: 0 <= i < |items| && MovesClock(cfg, items[i]) && TimeOf(items[i]) == now)
  }

  lemma SegmentMovesClock(s: TState, seg: Segment)
    requires s.WF()
    ensures Step(s, Seg(seg)).now == if seg.ts > s.now then seg.ts else s.now
  {
    SegmentLives(s.(now := Max(s.now, seg.ts)), seg);
  }

  lemma TickMovesClock(s: TState, t: u64)
    requires s.WF()
    ensures ObserveTick(s, t).now == if s.cfg.retention.Evict? && t > s.now then t else s.now
  {
    if s.cfg.retention.Evict? { TickLives(s, t); }
  }

  lemma StepMovesClock(s: TState, item: Item)
    requires s.WF()
    ensures Step(s, item).now == if MovesClock(s.cfg, item) && TimeOf(item) > s.now then TimeOf(item) else s.now
  {
    match item
    case Seg(seg) => SegmentMovesClock(s, seg);
    case Tick(t) => TickMovesClock(s, t);
  }

  lemma LatestSoFar(cfg: Config, items: seq<Item>, was: u64, now: u64)
    requires |items| > 0 && LatestOf(cfg, items[..|items| - 1], was)
    requires var last := items[|items| - 1];
             now == if MovesClock(cfg, last) && TimeOf(last) > was then TimeOf(last) else was
    ensures LatestOf(cfg, items, now)
  {
    var n := |items| - 1;
    assert forall i | 0 <= i < n :: items[..n][i] == items[i];
    if now == was && was != 0 {
      var i :| 0 <= i < n && MovesClock(cfg, items[..n][i]) && TimeOf(items[..n][i]) == was;
      assert TimeOf(items[i]) == now;
    }
  }

  /** The clock is the latest time heard: of every segment, and under eviction of every tick. */
  lemma {:induction false} ClockIsExact(cfg: Config, items: seq<Item>)
    ensures LatestOf(cfg, items, Run(cfg, items).now)
  {
    if |items| > 0 {
      var n := |items| - 1;
      ClockIsExact(cfg, items[..n]);
      Accounting.RunKeepsConfig(cfg, items[..n]);
      StepMovesClock(Run(cfg, items[..n]), items[n]);
      LatestSoFar(cfg, items, Run(cfg, items[..n]).now, Run(cfg, items).now);
    }
  }
}
