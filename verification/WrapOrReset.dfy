/** Wrap or reset: when sequence numbers may wrap without splitting a connection, and when
    a drop must be read as a new instance. */
module WrapOrReset {
  import opened Core
  import opened Serial
  import opened Lifecycle
  import opened TrackerSpec
  import opened TrackerLives
  import opened TrackerIndex
  import Accounting

  /** Only segments of one pair, with no bare SYN after the first. */
  ghost predicate OneConversation(items: seq<Item>, pair: EndpointPair) {
    && (forall i | 0 <= i < |items| :: items[i].Seg? && items[i].seg.Pair() == pair)
    && (forall i | 0 < i < |items| :: !items[i].seg.flags.BareSyn())
  }

  /** The furthest stream position `src` has sent from, if it has sent. */
  function TopOf(items: seq<Item>, pos: seq<int>, src: Endpoint): Option<int>
    requires |pos| == |items|
  {
    if |items| == 0 then None
    else
      var n := |items| - 1;
      var top := TopOf(items[..n], pos[..n], src);
      if items[n].Seg? && items[n].seg.src == src then
        Some(if top.Some? then Max(top.value, pos[n]) else pos[n])
      else top
  }

  /** Each segment sits at most `threshold` behind and less than half the number space
      ahead of the furthest position of its own side; numbers are positions reduced. */
  ghost predicate Steady(items: seq<Item>, pos: seq<int>, threshold: u32)
    requires |pos| == |items|
  {
    |items| > 0 ==>
      var n := |items| - 1;
      && Steady(items[..n], pos[..n], threshold)
      && items[n].Seg? && items[n].seg.seqNo == Wrap(pos[n])
      && var top := TopOf(items[..n], pos[..n], items[n].seg.src);
         top.Some? ==> top.value - pos[n] <= threshold && pos[n] - top.value < HALF
  }

  predicate InPair(src: Endpoint, pair: EndpointPair) { src == pair.low || src == pair.high }

  /** The baselines of `l` are the running maxima of its two sides. */
  ghost predicate BaselinesTrack(l: Life, items: seq<Item>, pos: seq<int>, pair: EndpointPair)
    requires |pos| == |items|
  {
    && Canonical(l.ident.origin, l.ident.responder) == pair
    && forall src | InPair(src, pair) :: l.traffic.Baseline(l.ident.DirectionOf(src)) == WrapOpt(TopOf(items, pos, src))
  }

  /** Different ends of the pair send in different directions. */
  lemma EndsHaveDirections(ident: Identity, pair: EndpointPair, a: Endpoint, b: Endpoint)
    requires Canonical(ident.origin, ident.responder) == pair && InPair(a, pair) && InPair(b, pair)
    ensures ident.DirectionOf(a) == ident.DirectionOf(b) <==> a == b
  {
  }

  lemma AccountTracks(ident: Identity, t: Traffic, items: seq<Item>, pos: seq<int>, pair: EndpointPair)
    requires |pos| == |items| > 0 && items[|items| - 1].Seg?
    requires var n, seg := |items| - 1, items[|items| - 1].seg;
             && seg.Pair() == pair && seg.seqNo == Wrap(pos[n])
             && Canonical(ident.origin, ident.responder) == pair
             && (forall src | InPair(src, pair) ::
                   t.Baseline(ident.DirectionOf(src)) == WrapOpt(TopOf(items[..n], pos[..n], src)))
             && var top := TopOf(items[..n], pos[..n], seg.src);
                top.Some? ==> Near(top.value, pos[n])
    ensures var seg := items[|items| - 1].seg;
            forall src | InPair(src, pair) ::
              t.Account(seg, ident.DirectionOf(seg.src)).Baseline(ident.DirectionOf(src))
              == WrapOpt(TopOf(items, pos, src))
  {
    var n, seg := |items| - 1, items[|items| - 1].seg;
    var d := ident.DirectionOf(seg.src);
    SerialMaxIsMax(TopOf(items[..n], pos[..n], seg.src), pos[n]);
    assert InPair(seg.src, pair);
    forall src | InPair(src, pair)
      ensures t.Account(seg, d).Baseline(ident.DirectionOf(src)) == WrapOpt(TopOf(items, pos, src))
    {
      EndsHaveDirections(ident, pair, src, seg.src);
    }
  }

  /** The one-instance invariant. */
  ghost predicate OneInstance(s: TState, items: seq<Item>, pos: seq<int>, pair: EndpointPair)
    requires |pos| == |items|
  {
    && |s.conns| == 1 && pair in s.live && s.live[pair] == 0
    && BaselinesTrack(s.conns[0].life, items, pos, pair)
  }

  lemma JoinsSteadily(s: TState, items: seq<Item>, pos: seq<int>, pair: EndpointPair)
    requires |pos| == |items| > 1 && OneConversation(items, pair)
    requires s.WF() && s.cfg.resetThreshold < HALF && Steady(items, pos, s.cfg.resetThreshold)
    requires OneInstance(s, items[..|items| - 1], pos[..|items| - 1], pair)
    ensures Joins(s, items[|items| - 1].seg)
    ensures OneInstance(EvictSamples(ObserveSegment(s, items[|items| - 1].seg)), items, pos, pair)
  {
    var n := |items| - 1;
    var seg, l := items[n].seg, s.conns[0].life;
    var top := TopOf(items[..n], pos[..n], seg.src);
    assert InPair(seg.src, pair);
    if top.Some? {
      WithinThresholdNeverResets(top.value, pos[n], s.cfg.resetThreshold);
    }
    SegmentLives(s, seg);
    AccountTracks(l.ident, l.traffic, items, pos, pair);
    var r := EvictSamples(ObserveSegment(s, seg));
    assert Lives(r.conns)[0] == l.Join(seg);
  }

  lemma WithinThresholdNeverResets(top: int, p: int, threshold: u32)
    requires threshold < HALF && top - p <= threshold && p - top < HALF
    ensures Near(top, p) && !IsBackwardReset(Wrap(top), Wrap(p), threshold)
  {
    BackwardResetExactly(top, p, threshold);
  }

  lemma OpensSteadily(s: TState, items: seq<Item>, pos: seq<int>, pair: EndpointPair)
    requires |pos| == |items| == 1 && OneConversation(items, pair)
    requires s.WF() && s.conns == [] && items[0].seg.seqNo == Wrap(pos[0])
    ensures OneInstance(EvictSamples(ObserveSegment(s, items[0].seg)), items, pos, pair)
  {
    var seg := items[0].seg;
    SegmentLives(s, seg);
    var l := Opening(s, seg);
    var r := EvictSamples(ObserveSegment(s, seg));
    assert Lives(r.conns)[0] == l;
    IdentityKeepsPair(l.ident.id, seg);
    assert items[..0] == [] && pos[..0] == [];
    AccountTracks(l.ident, NoTraffic(seg.ts), items, pos, pair);
  }

  /** Wrapping never splits: a conversation whose segments stay at most the threshold behind
      and less than half the number space ahead of their side's furthest position is one
      instance to the end, through any number of wraps, in any lifecycle state. */
  lemma {:induction false} WrapNeverSplits(cfg: Config, items: seq<Item>, pos: seq<int>, pair: EndpointPair)
    requires |pos| == |items| > 0 && cfg.resetThreshold < HALF
    requires OneConversation(items, pair) && Steady(items, pos, cfg.resetThreshold)
    ensures OneInstance(Run(cfg, items), items, pos, pair)
  {
    var n := |items| - 1;
    var s, seg := Run(cfg, items[..n]), items[n].seg;
    if n == 0 {
      assert items[..0] == [];
      OpensSteadily(s.(now := Max(s.now, seg.ts)), items, pos, pair);
    } else {
      WrapNeverSplits(cfg, items[..n], pos[..n], pair);
      Accounting.RunKeepsConfig(cfg, items[..n]);
      JoinsSteadily(s.(now := Max(s.now, seg.ts)), items, pos, pair);
    }
  }

  /** Resets are seen, exactly: on an established instance whose side was last at `top`, a
      segment other than a bare SYN less than half the space away opens a new instance if
      and only if it is behind by more than the threshold. */
  lemma ResetSplitsExactly(s: TState, idx: nat, seg: Segment, top: int, p: int)
    requires idx < |s.conns| && s.conns[idx].life.phase.state == Established && !seg.flags.BareSyn()
    requires var l := s.conns[idx].life;
             l.traffic.Baseline(l.ident.DirectionOf(seg.src)) == Some(Wrap(top))
    requires seg.seqNo == Wrap(p) && Near(top, p)
    ensures ShouldSplit(s, idx, seg) <==> top - p > s.cfg.resetThreshold
  {
    BackwardResetExactly(top, p, s.cfg.resetThreshold);
  }

  /** Over runs: after a steady conversation that is established, a further segment other than
      a bare SYN, less than half the space from the true furthest position of its side, leaves
      two instances if and only if it is behind that position by more than the threshold. */
  lemma ResetSplitsRunExactly(cfg: Config, items: seq<Item>, pos: seq<int>, pair: EndpointPair, seg: Segment, p: int)
    requires |pos| == |items| > 0 && cfg.resetThreshold < HALF
    requires OneConversation(items, pair) && Steady(items, pos, cfg.resetThreshold)
    requires |Run(cfg, items).conns| == 1 && Run(cfg, items).conns[0].life.phase.state == Established
    requires seg.Pair() == pair && !seg.flags.BareSyn() && seg.seqNo == Wrap(p)
    requires var top := TopOf(items, pos, seg.src); top.Some? ==> Near(top.value, p)
    ensures var top := TopOf(items, pos, seg.src);
            |Run(cfg, items + [Seg(seg)]).conns| ==
            if top.Some? && top.value - p > cfg.resetThreshold then 2 else 1
  {
    WrapNeverSplits(cfg, items, pos, pair);
    Accounting.RunKeepsConfig(cfg, items);
    var s := Run(cfg, items);
    var now := s.(now := Max(s.now, seg.ts));
    assert (items + [Seg(seg)])[..|items|] == items;
    var top := TopOf(items, pos, seg.src);
    assert InPair(seg.src, pair);
    if top.Some? {
      ResetSplitsExactly(now, 0, seg, top.value, p);
    }
    assert Joins(now, seg) <==> !(top.Some? && top.value - p > cfg.resetThreshold);
    SegmentLives(now, seg);
  }

  /** And when it does split, the pair gains a fresh, live, higher-numbered instance. */
  lemma SplitOpensFreshInstance(s: TState, seg: Segment)
    requires s.WF() && Indexed(s) && !Joins(s, seg)
    ensures var r := EvictSamples(ObserveSegment(s, seg));
            && |r.conns| == |s.conns| + 1 && seg.Pair() in r.live && r.live[seg.Pair()] == |s.conns|
            && PairOf(r.conns[|s.conns|].life) == seg.Pair()
            && r.conns[|s.conns|].life.traffic.segments == 1
            && forall i | 0 <= i < |s.conns| ::
                 r.conns[i].life == s.conns[i].life &&
                 (PairOf(s.conns[i].life) == seg.Pair() ==>
                    InstanceOf(s.conns[i].life) < InstanceOf(r.conns[|s.conns|].life))
  {
    SegmentLives(s, seg);
    var r := EvictSamples(ObserveSegment(s, seg));
    NewestOpens(Lives(s.conns), s.nextInstance, Lives(r.conns), s, seg);
  }

  lemma NewestOpens(lives: seq<Life>, next: TrackerIndex.Index, after: seq<Life>, s: TState, seg: Segment)
    requires InstancesIncrease(lives, next) && next == s.nextInstance
    requires after == lives + [Opening(s, seg)]
    ensures after[|lives|].traffic.segments == 1 && PairOf(after[|lives|]) == seg.Pair()
    ensures forall i | 0 <= i < |lives| ::
              after[i] == lives[i] &&
              (PairOf(lives[i]) == seg.Pair() ==> InstanceOf(lives[i]) < InstanceOf(after[|lives|]))
  {
  }
}
