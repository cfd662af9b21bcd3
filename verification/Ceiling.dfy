/** Under fail-fast, a run that did not fail is the run with any higher ceiling, sample for
    sample: the ceiling never changes a result, it only withholds one. */
module Ceiling {
  import opened Core
  import opened TrackerSpec
  import opened Recording
  import opened Accounting

  /** The same tracker under a fail-fast ceiling of `c`. */
  function Raised(s: TState, c: nat): TState {
    s.(cfg := s.cfg.(retention := FailFast(c)))
  }

  ghost predicate Raisable(s: TState, c: nat) {
    s.cfg.retention.FailFast? && s.cfg.retention.ceiling <= c
  }

  lemma PushRaised(s: TState, idx: nat, x: Tagged, c: nat)
    requires idx < |s.conns| && Raisable(s, c) && !Push(s, idx, x).overflowed
    ensures Push(Raised(s, c), idx, x) == Raised(Push(s, idx, x), c)
    ensures !s.overflowed
  {
    PushEffect(s, idx, x);
    PushEffect(Raised(s, c), idx, x);
  }

  lemma {:induction false} PushAllRaised(s: TState, idx: nat, xs: seq<Tagged>, c: nat)
    requires idx < |s.conns| && Raisable(s, c) && !PushAll(s, idx, xs).overflowed
    ensures PushAll(Raised(s, c), idx, xs) == Raised(PushAll(s, idx, xs), c)
    ensures !s.overflowed
  {
    if |xs| > 0 {
      PushRaised(PushAll(s, idx, xs[..|xs| - 1]), idx, xs[|xs| - 1], c);
      PushAllRaised(s, idx, xs[..|xs| - 1], c);
    }
  }

  /** Placement and production do not depend on the ceiling. */
  lemma PlacedRaised(s: TState, seg: Segment, c: nat)
    requires s.WF()
    ensures Placed(Raised(s, c), seg) == Raised(Placed(s, seg), c)
    ensures Target(Raised(s, c), seg) == Target(s, seg) && Produced(Raised(s, c), seg) == Produced(s, seg)
  {
    assert Joins(Raised(s, c), seg) == Joins(s, seg);
    if Joins(s, seg) {
      var conn := s.conns[s.live[seg.Pair()]];
      var l := conn.life.Join(seg);
      DerivationIgnoresRetention(conn.deriv, l.ident.id, seg, l.ident.DirectionOf(seg.src), s.cfg, FailFast(c));
    } else {
      var l := Opened(s, seg).conns[|s.conns|].life;
      assert Opened(Raised(s, c), seg) == Raised(Opened(s, seg), c);
      DerivationIgnoresRetention(NO_DERIV, l.ident.id, seg, l.ident.DirectionOf(seg.src), s.cfg, FailFast(c));
    }
  }

  lemma ObserveSegmentRaised(s: TState, seg: Segment, c: nat)
    requires s.WF() && Raisable(s, c) && !ObserveSegment(s, seg).overflowed
    ensures ObserveSegment(Raised(s, c), seg) == Raised(ObserveSegment(s, seg), c)
    ensures !s.overflowed
  {
    ObserveSegmentIsPut(s, seg);
    PlacedRecordsNothing(s, seg);
    PlacedRaised(s, seg, c);
    PushAllRaised(Placed(s, seg), Target(s, seg), Produced(s, seg), c);
    ObserveSegmentIsPut(Raised(s, c), seg);
  }

  /** The tracker before the last segment of a run, its clock already advanced. */
  function BeforeLast(cfg: Config, items: seq<Item>): (s: TState)
    requires |items| > 0 && items[|items| - 1].Seg?
    ensures s.WF()
  {
    var s := Run(cfg, items[..|items| - 1]);
    s.(now := Max(s.now, items[|items| - 1].seg.ts))
  }

  lemma LastFailFast(cfg: Config, items: seq<Item>)
    requires |items| > 0 && items[|items| - 1].Seg?
    requires cfg.retention.FailFast? && !Run(cfg, items).overflowed
    ensures var f := BeforeLast(cfg, items);
            && f.cfg == cfg && !f.overflowed && !Run(cfg, items[..|items| - 1]).overflowed
            && Run(cfg, items) == ObserveSegment(f, items[|items| - 1].seg)
  {
    RunKeepsConfig(cfg, items[..|items| - 1]);
    ObserveSegmentRaised(BeforeLast(cfg, items), items[|items| - 1].seg, cfg.retention.ceiling);
  }

  /** A fail-fast run that succeeds under one ceiling is, in every field, the run under any
      higher ceiling, so what `into_metrics` and `into_timeline` return does not depend on
      the ceiling. */
  lemma {:induction false} SuccessIsCeilingFree(cfg: Config, items: seq<Item>, c: nat)
    requires cfg.retention.FailFast? && cfg.retention.ceiling <= c
    requires !Run(cfg, items).overflowed
    ensures Run(cfg.(retention := FailFast(c)), items) == Raised(Run(cfg, items), c)
  {
    if |items| > 0 {
      var n := |items| - 1;
      var s := Run(cfg, items[..n]);
      RunKeepsConfig(cfg, items[..n]);
      match items[n]
      case Seg(seg) =>
        ObserveSegmentRaised(s.(now := Max(s.now, seg.ts)), seg, c);
        SuccessIsCeilingFree(cfg, items[..n], c);
      case Tick(t) =>
        SuccessIsCeilingFree(cfg, items[..n], c);
    }
  }

  // ------------------------------------------------------------------ when it fails

  /** Recordings that do not fail are counted one by one; they do not fail while there is room. */
  lemma {:induction false} PushAllCounts(s: TState, idx: nat, xs: seq<Tagged>)
    requires idx < |s.conns| && s.cfg.retention.FailFast? && !s.overflowed
    ensures !PushAll(s, idx, xs).overflowed ==> PushAll(s, idx, xs).collected == s.collected + |xs|
    ensures s.collected + |xs| <= s.cfg.retention.ceiling ==> !PushAll(s, idx, xs).overflowed
  {
    if |xs| > 0 {
      var pre, x := xs[..|xs| - 1], xs[|xs| - 1];
      PushAllCounts(s, idx, pre);
      PushEffect(PushAll(s, idx, pre), idx, x);
    }
  }

  lemma RecordingsFit(p: TState, idx: nat, xs: seq<Tagged>, c: nat)
    requires idx < |p.conns| && p.cfg.retention.FailFast? && !p.overflowed && c <= p.cfg.retention.ceiling
    requires !PushAll(p, idx, xs).overflowed
    ensures p.collected <= PushAll(p, idx, xs).collected
    ensures PushAll(p, idx, xs).collected <= c ==> !PushAll(Raised(p, c), idx, xs).overflowed
  {
    PushAllCounts(p, idx, xs);
    PushAllCounts(Raised(p, c), idx, xs);
  }

  lemma SegmentIsRecordings(s: TState, seg: Segment, c: nat)
    requires s.WF() && !s.overflowed
    requires !PushAll(Raised(Placed(s, seg), c), Target(s, seg), Produced(s, seg)).overflowed
    ensures !ObserveSegment(Raised(s, c), seg).overflowed
  {
    PlacedRaised(s, seg, c);
    ObserveSegmentIsPut(Raised(s, c), seg);
  }

  /** A segment that fits in the count it would reach does not fail. */
  lemma SegmentFits(s: TState, seg: Segment, c: nat)
    requires s.WF() && s.cfg.retention.FailFast? && c <= s.cfg.retention.ceiling
    requires !ObserveSegment(s, seg).overflowed
    ensures s.collected <= ObserveSegment(s, seg).collected
    ensures ObserveSegment(s, seg).collected <= c ==> !ObserveSegment(Raised(s, c), seg).overflowed
  {
    ObserveSegmentRaised(s, seg, s.cfg.retention.ceiling);
    ObserveSegmentIsPut(s, seg);
    PlacedRecordsNothing(s, seg);
    RecordingsFit(Placed(s, seg), Target(s, seg), Produced(s, seg), c);
    if ObserveSegment(s, seg).collected <= c {
      SegmentIsRecordings(s, seg, c);
    }
  }

  lemma StepFits(s: TState, item: Item, c: nat)
    requires s.WF() && s.cfg.retention.FailFast? && c <= s.cfg.retention.ceiling && !Step(s, item).overflowed
    ensures s.collected <= Step(s, item).collected
    ensures Step(s, item).collected <= c ==> !Step(Raised(s, c), item).overflowed
  {
    if item.Seg? {
      SegmentFits(s.(now := Max(s.now, item.seg.ts)), item.seg, c);
    }
  }

  lemma {:induction false} FitsUnder(cfg: Config, items: seq<Item>, c: nat)
    requires cfg.retention.FailFast? && c <= cfg.retention.ceiling && !Run(cfg, items).overflowed
    requires Run(cfg, items).collected <= c
    ensures !Run(cfg.(retention := FailFast(c)), items).overflowed
  {
    if |items| > 0 {
      var pre, last := items[..|items| - 1], items[|items| - 1];
      RunKeepsConfig(cfg, pre);
      NeverFailedBefore(cfg, items);
      StepFits(Run(cfg, pre), last, c);
      FitsUnder(cfg, pre, c);
      var low := cfg.(retention := FailFast(c));
      SuccessIsCeilingFree(low, pre, cfg.retention.ceiling);
      assert low.(retention := FailFast(cfg.retention.ceiling)) == cfg;
      RunKeepsConfig(low, pre);
      assert Raised(Run(cfg, pre), c) == Run(low, pre);
    }
  }

  lemma NeverFailedBefore(cfg: Config, items: seq<Item>)
    requires |items| > 0 && cfg.retention.FailFast? && !Run(cfg, items).overflowed
    ensures !Run(cfg, items[..|items| - 1]).overflowed
  {
    if items[|items| - 1].Seg? {
      LastFailFast(cfg, items);
    } else {
      RunKeepsConfig(cfg, items[..|items| - 1]);
    }
  }

  /** A replay fails exactly when the stream makes more samples than its ceiling: more than any
      replay that does not fail has counted. */
  lemma FailsExactly(cfg: Config, items: seq<Item>, c: nat)
    requires cfg.retention.FailFast? && c <= cfg.retention.ceiling && !Run(cfg, items).overflowed
    ensures Run(cfg.(retention := FailFast(c)), items).overflowed <==> TotalLen(Run(cfg, items).conns) > c
  {
    var low := cfg.(retention := FailFast(c));
    CounterIsExactAndBounded(cfg, items);
    CounterIsExactAndBounded(low, items);
    if !Run(low, items).overflowed {
      SuccessIsCeilingFree(low, items, cfg.retention.ceiling);
      assert low.(retention := FailFast(cfg.retention.ceiling)) == cfg;
    } else if Run(cfg, items).collected <= c {
      FitsUnder(cfg, items, c);
    }
  }
}
