/** With timestamps in order, what the evicting tracker retains is a matter of time alone:
    the samples of the last window, and always the latest state. */
module RetentionByTime {
  import opened Core
  import opened TrackerSpec
  import opened Eviction
  import opened Chronology

  /** The samples at or after the horizon. */
  function Since(dq: seq<Sample>, horizon: u64): seq<Sample> {
    if |dq| == 0 then []
    else Since(dq[..|dq| - 1], horizon) + if dq[|dq| - 1].t >= horizon then [dq[|dq| - 1]] else []
  }

  lemma {:induction false} SinceAll(dq: seq<Sample>, horizon: u64)
    requires forall i | 0 <= i < |dq| :: dq[i].t >= horizon
    ensures Since(dq, horizon) == dq
  {
    if |dq| > 0 {
      var init, last := dq[..|dq| - 1], dq[|dq| - 1];
      assert dq == init + [last] && last.t >= horizon;
      SinceAll(init, horizon);
    }
  }

  lemma {:induction false} SinceTail(dq: seq<Sample>, horizon: u64)
    requires |dq| > 0 && dq[0].t < horizon
    ensures Since(dq, horizon) == Since(dq[1..], horizon)
  {
    if |dq| > 1 {
      SinceTail(dq[..|dq| - 1], horizon);
      assert dq[..|dq| - 1][1..] == dq[1..][..|dq| - 2];
    } else {
      assert dq[..0] == [] && dq[1..] == [];
    }
  }

  /** On a sorted series, dropping old samples from the front keeps exactly those since the
      horizon, or the last one when a sample must remain. */
  lemma {:induction false} EvictFrontIsSince(dq: seq<Sample>, horizon: u64, keepMin: nat)
    requires Sorted(dq) && keepMin <= 1
    ensures EvictFront(dq, horizon, keepMin) ==
            if |dq| > 0 && keepMin == 1 && Since(dq, horizon) == [] then [dq[|dq| - 1]] else Since(dq, horizon)
  {
    if |dq| > keepMin && dq[0].t < horizon {
      SinceTail(dq, horizon);
      EvictFrontIsSince(dq[1..], horizon, keepMin);
    } else if |dq| > 0 && dq[0].t >= horizon {
      SinceAll(dq, horizon);
    } else if |dq| > 0 {
      SinceTail(dq, horizon);
      assert dq[1..] == [] && dq == [dq[0]];
    }
  }

  // ---------------------------------------------------------------- sorted histories

  /** Segments only, with nondecreasing timestamps. */
  ghost predicate OrderedSegments(items: seq<Item>) {
    SegmentsOnly(items) && forall i, j | 0 <= i < j < |items| :: items[i].seg.ts <= items[j].seg.ts
  }

  /** What is left of a series at a horizon: everything since, but at least the last state. */
  function LastWindow(dq: seq<Sample>, k: Kind, horizon: u64): seq<Sample> {
    if |dq| > 0 && k == STATES && Since(dq, horizon) == [] then [dq[|dq| - 1]] else Since(dq, horizon)
  }

  /** The samples no further than `window` before `now`. */
  function Recent(dq: seq<Sample>, now: u64, window: u64): seq<Sample> {
    if |dq| == 0 then []
    else
      var last := dq[|dq| - 1];
      Recent(dq[..|dq| - 1], now, window) + if last.t + window >= now then [last] else []
  }

  /** Of the series `dq` the recent samples are kept, and of the states at least the last. */
  ghost predicate KeepsRecent(kept: seq<Sample>, dq: seq<Sample>, k: Kind, now: u64, window: u64) {
    kept == if k == STATES && Recent(dq, now, window) == [] then dq[SatSub(|dq|, 1)..] else Recent(dq, now, window)
  }

  lemma {:induction false} SinceIsRecent(dq: seq<Sample>, now: u64, window: u64)
    ensures Since(dq, Horizon(now, window)) == Recent(dq, now, window)
  {
    if |dq| > 0 {
      SinceIsRecent(dq[..|dq| - 1], now, window);
    }
  }

  lemma LastWindowIsRecent(dq: seq<Sample>, k: Kind, now: u64, window: u64)
    ensures KeepsRecent(LastWindow(dq, k, Horizon(now, window)), dq, k, now, window)
  {
    SinceIsRecent(dq, now, window);
  }

  lemma AgedIsWindow(e: TState, f: TState, horizon: u64, i: nat, k: Kind)
    requires RetainsExactly(e, f, horizon) && AllOrdered(f) && i < |f.conns|
    ensures e.conns[i].hist[k] == LastWindow(f.conns[i].hist[k], k, horizon)
  {
    AgedSeries(f.conns[i].hist, horizon, k);
    EvictFrontIsSince(f.conns[i].hist[k], horizon, KeepMin(k));
  }

  /** On an in-order stream that never meets the ceiling, each connection retains exactly
      its samples of the last window, and of its states at least the last. */
  lemma RetainsLastWindow(cfg: Config, window: u64, backstop: nat, ceiling: nat, items: seq<Item>, i: nat, k: Kind)
    requires OrderedSegments(items)
    requires !Run(cfg.(retention := FailFast(ceiling)), items).overflowed
    requires NeverFull(cfg.(retention := Evict(window, backstop)), items)
    requires i < |Run(cfg.(retention := FailFast(ceiling)), items).conns|
    ensures var e := Run(cfg.(retention := Evict(window, backstop)), items);
            var f := Run(cfg.(retention := FailFast(ceiling)), items);
            && |e.conns| == |f.conns|
            && e.conns[i].hist[k] == LastWindow(f.conns[i].hist[k], k, Horizon(e.now, window))
            && KeepsRecent(e.conns[i].hist[k], f.conns[i].hist[k], k, e.now, window)
  {
    RetentionIsExact(cfg, window, backstop, ceiling, items);
    SeriesAreOrdered(cfg.(retention := FailFast(ceiling)), items);
    var e := Run(cfg.(retention := Evict(window, backstop)), items);
    var f := Run(cfg.(retention := FailFast(ceiling)), items);
    AgedIsWindow(e, f, Horizon(e.now, window), i, k);
    LastWindowIsRecent(f.conns[i].hist[k], k, e.now, window);
  }
}
