/** Sample accounting in every reachable state, and what the ceiling means under each
    retention policy. */
module Accounting {
  import opened Core
  import opened TrackerSpec
  import opened Walk

  /** What connections hold beyond two samples each. */
  function Excess(conns: seq<Conn>): nat {
    if |conns| == 0 then 0
    else Excess(conns[..|conns| - 1]) + SatSub(HistLen(conns[|conns| - 1].hist), 2)
  }

  ghost predicate Accounted(s: TState) {
    && s.collected == TotalLen(s.conns)
    && (s.cfg.retention.FailFast? ==>
          s.collected <= s.cfg.retention.ceiling && (s.overflowed ==> s.collected == s.cfg.retention.ceiling))
    && (s.cfg.retention.Evict? ==> !s.overflowed && Excess(s.conns) <= s.cfg.retention.ceiling)
  }

  // ------------------------------------------------------------------ the two sums

  lemma {:induction false} SumsUpdate(conns: seq<Conn>, i: nat, c: Conn)
    requires i < |conns|
    ensures TotalLen(conns[i := c]) == TotalLen(conns) - HistLen(conns[i].hist) + HistLen(c.hist)
    ensures Excess(conns[i := c]) == Excess(conns) - SatSub(HistLen(conns[i].hist), 2) + SatSub(HistLen(c.hist), 2)
  {
    var n := |conns| - 1;
    if i < n {
      assert conns[i := c][..n] == conns[..n][i := c];
      SumsUpdate(conns[..n], i, c);
    } else {
      assert conns[i := c][..n] == conns[..n];
    }
  }

  lemma {:induction false} SumsSame(a: seq<Conn>, b: seq<Conn>)
    requires |a| == |b| && forall i | 0 <= i < |a| :: a[i].hist == b[i].hist
    ensures TotalLen(a) == TotalLen(b) && Excess(a) == Excess(b)
  {
    if |a| > 0 {
      SumsSame(a[..|a| - 1], b[..|a| - 1]);
    }
  }

  lemma {:induction false} SumsShrink(a: seq<Conn>, b: seq<Conn>)
    requires |a| == |b| && forall i | 0 <= i < |a| :: HistLen(b[i].hist) <= HistLen(a[i].hist)
    ensures TotalLen(b) <= TotalLen(a) && Excess(b) <= Excess(a)
  {
    if |a| > 0 {
      SumsShrink(a[..|a| - 1], b[..|a| - 1]);
    }
  }

  lemma {:induction false} SurvivorsHoldLess(conns: seq<Conn>, now: u64, horizon: u64, deadAfter: u64)
    ensures Excess(Survivors(conns, now, horizon, deadAfter)) <= Excess(conns)
    ensures TotalLen(Survivors(conns, now, horizon, deadAfter)) <= TotalLen(conns)
  {
    if |conns| > 0 {
      var n := |conns| - 1;
      var rest := Survivors(conns[..n], now, horizon, deadAfter);
      SurvivorsHoldLess(conns[..n], now, horizon, deadAfter);
      assert (rest + [conns[n]])[..|rest|] == rest;
    }
  }

  lemma {:induction false} ExcessBoundsTotal(conns: seq<Conn>)
    ensures Excess(conns) <= TotalLen(conns) <= Excess(conns) + 2 * |conns|
  {
    if |conns| > 0 {
      ExcessBoundsTotal(conns[..|conns| - 1]);
    }
  }

  // ------------------------------------------------------------ the recording steps

  lemma PopLosesOne(h: Hist)
    ensures HistLen(PopLongest(h)) == HistLen(h) - (if CanPop(h) then 1 else 0)
    ensures !CanPop(h) ==> HistLen(h) <= 1
  {
    var k := Longest(h, KINDS);
    var most := Evictable(h, k);
    assert Evictable(h, 0) <= most && Evictable(h, 1) <= most && Evictable(h, 2) <= most;
    assert Evictable(h, 3) <= most && Evictable(h, 4) <= most && Evictable(h, 5) <= most;
  }

  lemma AppendGainsOne(h: Hist, k: Kind, x: Sample)
    ensures HistLen(Append(h, k, x)) == HistLen(h) + 1
  {
  }

  lemma HeldIsCounted(s: TState, idx: nat)
    requires idx < |s.conns| && Accounted(s)
    ensures HistLen(s.conns[idx].hist) <= s.collected
  {
    SumsUpdate(s.conns, idx, s.conns[idx].(hist := NO_HIST));
  }

  lemma PushAccounted(s: TState, idx: nat, x: Tagged)
    requires idx < |s.conns| && Accounted(s)
    ensures Accounted(Push(s, idx, x))
  {
    PushEffect(s, idx, x);
    if !Refuses(s) {
      var c := s.conns[idx];
      var h := Append(Room(s, c.hist), x.kind, x.sample);
      PopLosesOne(c.hist);
      HeldIsCounted(s, idx);
      AppendGainsOne(Room(s, c.hist), x.kind, x.sample);
      SumsUpdate(s.conns, idx, c.(hist := h));
      ExcessBoundsTotal(s.conns[idx := c.(hist := h)]);
    }
  }

  lemma MovesAccounted(t: u64)
    ensures KeptByMoves(Accounted, t)
  {
    forall s: TState, idx: nat, x: Tagged | idx < |s.conns| && Accounted(s)
      ensures Accounted(Push(s, idx, x))
    {
      PushAccounted(s, idx, x);
    }
    forall s: TState, idx: nat, d: Deriv | idx < |s.conns| && Accounted(s)
      ensures Accounted(SetDeriv(s, idx, d))
    {
      SumsSame(s.conns, SetDeriv(s, idx, d).conns);
    }
  }

  lemma BegunAccounted(s: TState, seg: Segment)
    requires s.WF() && Accounted(s)
    ensures Accounted(Begun(s, seg))
  {
    if Joins(s, seg) {
      SumsSame(s.conns, Begun(s, seg).conns);
    } else {
      assert Begun(s, seg).conns[..|s.conns|] == s.conns;
    }
  }

  lemma ObserveSegmentAccounted(s: TState, seg: Segment)
    requires s.WF() && Accounted(s)
    ensures Accounted(ObserveSegment(s, seg))
  {
    MovesAccounted(seg.ts);
    BegunAccounted(s, seg);
    SegmentKeeps(s, seg, Accounted);
  }

  lemma DecayAccounted(s: TState, t: u64, n: nat)
    requires n <= |s.conns| && Accounted(s)
    ensures Accounted(DecayUpTo(s, t, n))
  {
    MovesAccounted(t);
    DecayKeeps(s, t, n, Accounted);
  }

  lemma EvictionAccounted(s: TState)
    requires Accounted(s)
    ensures Accounted(EvictSamples(s)) && (s.WF() ==> Accounted(EvictDead(s)))
  {
    if s.cfg.retention.Evict? {
      SumsShrink(s.conns, EvictSamples(s).conns);
      SurvivorsHoldLess(s.conns, s.now, Horizon(s.now, s.cfg.retention.horizon), s.cfg.deadAfter);
    }
  }

  lemma StepAccounted(s: TState, item: Item)
    requires s.WF() && Accounted(s)
    ensures Accounted(Step(s, item))
  {
    match item {
      case Seg(seg) =>
        MovesAccounted(seg.ts);
        BegunAccounted(s.(now := Max(s.now, seg.ts)), seg);
      case Tick(t) => MovesAccounted(Max(s.now, t));
    }
    forall r: TState | Accounted(r)
      ensures Accounted(EvictSamples(r)) && (r.WF() ==> Accounted(EvictDead(r)))
    {
      EvictionAccounted(r);
    }
    ItemKeeps(s, item, Accounted);
  }

  lemma {:induction false} RunKeepsConfig(cfg: Config, items: seq<Item>)
    ensures Run(cfg, items).cfg == cfg
  {
    if |items| > 0 {
      RunKeepsConfig(cfg, items[..|items| - 1]);
    }
  }

  lemma {:induction false} RunAccounted(cfg: Config, items: seq<Item>)
    ensures Accounted(Run(cfg, items))
  {
    if |items| > 0 {
      RunAccounted(cfg, items[..|items| - 1]);
      StepAccounted(Run(cfg, items[..|items| - 1]), items[|items| - 1]);
    }
  }

  /** In every reachable state the counter is the number of samples held.  Under fail-fast
      it never passes the ceiling, and collection has failed only at the ceiling; under
      eviction it passes the ceiling by at most two samples for each tracked connection,
      and collection never fails. */
  lemma CounterIsExactAndBounded(cfg: Config, items: seq<Item>)
    ensures var s := Run(cfg, items);
            && s.collected == TotalLen(s.conns)
            && (cfg.retention.FailFast? ==> s.collected <= cfg.retention.ceiling)
            && (cfg.retention.FailFast? && s.overflowed ==> s.collected == cfg.retention.ceiling)
            && (cfg.retention.Evict? ==> !s.overflowed && s.collected <= cfg.retention.ceiling + 2 * |s.conns|)
  {
    RunAccounted(cfg, items);
    RunKeepsConfig(cfg, items);
    ExcessBoundsTotal(Run(cfg, items).conns);
  }

  /** The backstop is not hard: after a recording under eviction the count is within the ceiling
      exactly when it was below before, or was there and the connection had something to give
      up. */
  lemma BackstopHoldsExactly(s: TState, idx: nat, x: Tagged)
    requires idx < |s.conns| && Accounted(s) && s.cfg.retention.Evict?
    ensures var n := s.cfg.retention.ceiling;
            Push(s, idx, x).collected <= n <==>
            s.collected < n || (s.collected == n && CanPop(s.conns[idx].hist))
  {
    PushEffect(s, idx, x);
    PopLosesOne(s.conns[idx].hist);
    HeldIsCounted(s, idx);
  }
}
