/** What kind of sample each series holds, in every reachable state: the premises of the
    plots. */
module Shapes {
  import opened Core
  import opened TrackerSpec
  import opened Walk

  ghost predicate SeriesFits(k: Kind, xs: seq<Sample>) {
    forall i | 0 <= i < |xs| :: Fits(k, xs[i])
  }

  ghost predicate HistFits(h: Hist) { forall k: Kind :: SeriesFits(k, h[k]) }

  ghost predicate AllFit(s: TState) { forall i | 0 <= i < |s.conns| :: HistFits(s.conns[i].hist) }

  // ------------------------------------------------------------------ recording

  lemma PushFits(s: TState, idx: nat, x: Tagged)
    requires idx < |s.conns| && AllFit(s) && Fits(x.kind, x.sample)
    ensures AllFit(Push(s, idx, x))
  {
    PushEffect(s, idx, x);
    var h := s.conns[idx].hist;
    assert HistFits(h);
    RoomFits(s, h);
    AppendFits(Room(s, h), x.kind, x.sample);
  }

  lemma RoomFits(s: TState, h: Hist)
    requires HistFits(h)
    ensures HistFits(Room(s, h))
  {
    forall k: Kind ensures SeriesFits(k, PopLongest(h)[k]) {
      assert SeriesFits(k, h[k]);
    }
  }

  lemma AppendFits(h: Hist, k: Kind, x: Sample)
    requires HistFits(h) && Fits(k, x)
    ensures HistFits(Append(h, k, x))
  {
    forall j: Kind ensures SeriesFits(j, Append(h, k, x)[j]) {
      assert SeriesFits(j, h[j]);
    }
  }

  lemma MovesFit(t: u64)
    ensures KeptByMoves(AllFit, t)
  {
    forall s: TState, idx: nat, x: Tagged | idx < |s.conns| && AllFit(s) && Sound(x, t)
      ensures AllFit(Push(s, idx, x))
    {
      PushFits(s, idx, x);
    }
  }

  lemma BegunFits(s: TState, seg: Segment)
    requires s.WF() && AllFit(s)
    ensures AllFit(Begun(s, seg))
  {
  }

  // ------------------------------------------------------------------ retention

  lemma {:induction false} EvictFrontFits(k: Kind, xs: seq<Sample>, horizon: u64, keepMin: nat)
    requires SeriesFits(k, xs)
    ensures SeriesFits(k, EvictFront(xs, horizon, keepMin))
  {
    if |xs| > keepMin && xs[0].t < horizon {
      EvictFrontFits(k, xs[1..], horizon, keepMin);
    }
  }

  lemma AgeHistFits(h: Hist, horizon: u64)
    requires HistFits(h)
    ensures HistFits(AgeHist(h, horizon))
  {
    forall k: Kind ensures SeriesFits(k, AgeHist(h, horizon)[k]) {
      assert SeriesFits(k, h[k]);
      EvictFrontFits(k, h[k], horizon, KeepMin(k));
    }
  }

  lemma AgingFits(s: TState)
    requires AllFit(s)
    ensures AllFit(EvictSamples(s))
  {
    if s.cfg.retention.Evict? {
      var horizon := Horizon(s.now, s.cfg.retention.horizon);
      forall i | 0 <= i < |s.conns| ensures HistFits(AgeHist(s.conns[i].hist, horizon)) {
        AgeHistFits(s.conns[i].hist, horizon);
      }
    }
  }

  lemma {:induction false} SurvivorsFit(conns: seq<Conn>, now: u64, horizon: u64, deadAfter: u64)
    requires forall i | 0 <= i < |conns| :: HistFits(conns[i].hist)
    ensures forall i | 0 <= i < |Survivors(conns, now, horizon, deadAfter)| ::
              HistFits(Survivors(conns, now, horizon, deadAfter)[i].hist)
  {
    if |conns| > 0 {
      SurvivorsFit(conns[..|conns| - 1], now, horizon, deadAfter);
    }
  }

  lemma CollectionFits(s: TState)
    requires s.WF() && AllFit(s)
    ensures AllFit(EvictDead(s))
  {
    if s.cfg.retention.Evict? {
      SurvivorsFit(s.conns, s.now, Horizon(s.now, s.cfg.retention.horizon), s.cfg.deadAfter);
    }
  }

  lemma StepFits(s: TState, item: Item)
    requires s.WF() && AllFit(s)
    ensures AllFit(Step(s, item))
  {
    match item {
      case Seg(seg) =>
        MovesFit(seg.ts);
        BegunFits(s.(now := Max(s.now, seg.ts)), seg);
      case Tick(t) => MovesFit(Max(s.now, t));
    }
    forall r: TState | AllFit(r)
      ensures AllFit(EvictSamples(r)) && (r.WF() ==> AllFit(EvictDead(r)))
    {
      AgingFits(r);
      if r.WF() { CollectionFits(r); }
    }
    ItemKeeps(s, item, AllFit);
  }

  /** In every reachable state, under either policy and any mix of items, each series holds
      only its own kind of sample, and no rate sample's goodput exceeds its throughput: what
      the plots ask of their input the engine always delivers. */
  lemma {:induction false} SeriesAlwaysFit(cfg: Config, items: seq<Item>)
    ensures AllFit(Run(cfg, items))
  {
    if |items| > 0 {
      SeriesAlwaysFit(cfg, items[..|items| - 1]);
      StepFits(Run(cfg, items[..|items| - 1]), items[|items| - 1]);
    }
  }
}
