/** A segment produces only so many samples, so every stream fits under some fail-fast ceiling:
    the unbounded tracker that the eviction results compare with always exists. */
module EnoughRoom {
  import opened Core
  import opened TrackerSpec
  import opened Recording
  import opened Walk
  import opened Accounting
  import opened Ceiling
  import Eviction

  /** Recording has added at most `k` to the count. */
  predicate GrowsBy(a: TState, b: TState, k: nat) { b.cfg == a.cfg && b.collected <= a.collected + k }

  lemma {:induction false} PlayGrows(s: TState, idx: nat, moves: seq<Move>)
    requires idx < |s.conns|
    ensures GrowsBy(s, Play(s, idx, moves), Notes(moves))
  {
    if |moves| > 0 {
      var pre, move := moves[..|moves| - 1], moves[|moves| - 1];
      PlayGrows(s, idx, pre);
      if move.Note? {
        PushEffect(Play(s, idx, pre), idx, move.x);
      }
    }
  }

  lemma WalkGrows(a: TState, b: TState, idx: nat, t: u64, most: nat)
    requires idx < |a.conns| && Walks(a, b, idx, t, most)
    ensures GrowsBy(a, b, most)
  {
    var moves :| b == Play(a, idx, moves) && AllSound(moves, t) && Notes(moves) <= most;
    PlayGrows(a, idx, moves);
  }

  /** No segment adds more samples than its SACK blocks and eight. */
  lemma SegmentGrows(s: TState, seg: Segment)
    requires s.WF()
    ensures GrowsBy(s, ObserveSegment(s, seg), MostSamples(seg))
  {
    SegmentWalks(s, seg);
    WalkGrows(Begun(s, seg), ObserveSegment(s, seg), Target(s, seg), seg.ts, MostSamples(seg));
  }

  /** No tick adds more than four for each connection. */
  lemma {:induction false} DecayGrows(s: TState, t: u64, n: nat)
    requires n <= |s.conns|
    ensures GrowsBy(s, DecayUpTo(s, t, n), 4 * n)
  {
    if n > 0 {
      DecayGrows(s, t, n - 1);
      DecayStep(s, t, n);
      DecayOneGrows(s, DecayUpTo(s, t, n - 1), DecayUpTo(s, t, n), n - 1, t, 4 * (n - 1));
    }
  }

  lemma DecayOneGrows(s: TState, p: TState, q: TState, i: nat, t: u64, k: nat)
    requires i < |p.conns| && GrowsBy(s, p, k) && DecaysTo(p, q, i, t)
    ensures GrowsBy(s, q, k + 4)
  {
    DecayWalks(p, q, i, t);
    WalkGrows(p, q, i, t, 4);
  }

  /** Every stream fits under some fail-fast ceiling, and then under every higher one. */
  lemma {:induction false} SomeCeilingSuffices(cfg: Config, items: seq<Item>) returns (ceiling: nat)
    ensures forall c: nat | c >= ceiling :: !Run(cfg.(retention := FailFast(c)), items).overflowed
  {
    if |items| == 0 {
      ceiling := 0;
    } else {
      var pre, last := items[..|items| - 1], items[|items| - 1];
      var enough := SomeCeilingSuffices(cfg, pre);
      ceiling := enough + 1 + if last.Seg? then MostSamples(last.seg) else 0;
      forall c: nat | c >= ceiling
        ensures !Run(cfg.(retention := FailFast(c)), items).overflowed
      {
        OneMoreFits(cfg, items, enough, c);
      }
    }
  }

  /** A run that fits under one ceiling holds no more than that under any higher one. */
  lemma HigherHoldsNoMore(cfg: Config, items: seq<Item>, enough: nat, c: nat)
    requires !Run(cfg.(retention := FailFast(enough)), items).overflowed && enough <= c
    ensures !Run(cfg.(retention := FailFast(c)), items).overflowed
    ensures Run(cfg.(retention := FailFast(c)), items).collected <= enough
  {
    var low := cfg.(retention := FailFast(enough));
    SuccessIsCeilingFree(low, items, c);
    assert low.(retention := FailFast(c)) == cfg.(retention := FailFast(c));
    CounterIsExactAndBounded(low, items);
  }

  lemma OneMoreFits(cfg: Config, items: seq<Item>, enough: nat, c: nat)
    requires |items| > 0 && !Run(cfg.(retention := FailFast(enough)), items[..|items| - 1]).overflowed
    requires var last := items[|items| - 1]; c > enough + if last.Seg? then MostSamples(last.seg) else 0
    ensures !Run(cfg.(retention := FailFast(c)), items).overflowed
  {
    var high := cfg.(retention := FailFast(c));
    HigherHoldsNoMore(cfg, items[..|items| - 1], enough, c);
    CounterIsExactAndBounded(high, items);
    LastItemGrows(high, items);
  }

  lemma LastItemGrows(cfg: Config, items: seq<Item>)
    requires cfg.retention.FailFast? && |items| > 0
    ensures var last := items[|items| - 1];
            if last.Seg? then GrowsBy(Run(cfg, items[..|items| - 1]), Run(cfg, items), MostSamples(last.seg))
            else Run(cfg, items) == Run(cfg, items[..|items| - 1])
  {
    var pre, last := items[..|items| - 1], items[|items| - 1];
    RunKeepsConfig(cfg, pre);
    if last.Seg? {
      var s := Run(cfg, pre);
      SegmentGrows(s.(now := Max(s.now, last.seg.ts)), last.seg);
    }
  }

  /** On any stream of segments the evicting tracker agrees with every large enough unbounded
      one: no premise about overflow is left. */
  lemma EvictingAgreesWithUnbounded(cfg: Config, window: u64, backstop: nat, items: seq<Item>) returns (ceiling: nat)
    requires Eviction.SegmentsOnly(items)
    ensures forall c: nat | c >= ceiling ::
              Eviction.Sim(Run(cfg.(retention := Evict(window, backstop)), items),
                           Run(cfg.(retention := FailFast(c)), items))
  {
    ceiling := SomeCeilingSuffices(cfg, items);
    forall c: nat | c >= ceiling
      ensures Eviction.Sim(Run(cfg.(retention := Evict(window, backstop)), items),
                           Run(cfg.(retention := FailFast(c)), items))
    {
      Eviction.EvictionNeverCorrupts(cfg, window, backstop, c, items);
    }
  }
}
