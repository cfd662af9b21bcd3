/** When a segment opens a new instance of its pair, on any run and in plain terms. */
module Splits {
  import opened Core
  import opened Lifecycle
  import opened TrackerSpec
  import opened TrackerLives
  import opened TrackerIndex
  import Accounting

  /** Connection `i` is the last one of the pair. */
  ghost predicate IsLast(conns: seq<Conn>, pair: EndpointPair, i: nat) {
    && i < |conns| && conns[i].life.ident.id.pair == pair
    && forall j | i < j < |conns| :: conns[j].life.ident.id.pair != pair
  }

  /** The segment lies behind the furthest number of its own side, by more than the threshold
      and less than half the number space. */
  predicate FarBehind(l: Life, seg: Segment, threshold: u32) {
    var top := if seg.src == l.ident.origin then l.traffic.baseO2R else l.traffic.baseR2O;
    top.Some? && threshold < (top.value - seg.seqNo) % 0x1_0000_0000 < 0x8000_0000
  }

  /** A bare SYN begins anew on a finished connection, or one idle for longer than the limit;
      anything else only on an established one, far behind. */
  predicate BeginsAnew(l: Life, seg: Segment, cfg: Config) {
    if seg.flags.syn && !seg.flags.ack then
      l.phase.state == Closed || l.phase.state == Reset || seg.ts > l.traffic.lastAt + cfg.deadAfter
    else l.phase.state == Established && FarBehind(l, seg, cfg.resetThreshold)
  }

  lemma LastIsLive(s: TState, pair: EndpointPair, i: nat)
    requires s.WF() && Indexed(s) && IsLast(s.conns, pair, i)
    ensures pair in s.live && s.live[pair] == i
  {
    assert PairOf(Lives(s.conns)[i]) == pair;
    assert PairOf(Lives(s.conns)[s.live[pair]]) == pair;
  }

  lemma SplitPlainly(s: TState, i: nat, seg: Segment)
    requires i < |s.conns|
    ensures ShouldSplit(s, i, seg) <==> BeginsAnew(s.conns[i].life, seg, s.cfg)
  {}

  /** The segment joins connection `i` and changes no other life. */
  ghost predicate JoinsLast(s: TState, r: TState, seg: Segment, i: nat)
    requires i < |s.conns|
  {
    Lives(r.conns) == Lives(s.conns)[i := s.conns[i].life.Join(seg)]
  }

  ghost predicate Untracked(s: TState, pair: EndpointPair) {
    forall j | 0 <= j < |s.conns| :: s.conns[j].life.ident.id.pair != pair
  }

  lemma UntrackedAdds(s: TState, seg: Segment)
    requires s.WF() && Indexed(s) && Untracked(s, seg.Pair())
    ensures |EvictSamples(ObserveSegment(s, seg)).conns| == |s.conns| + 1
  {
    assert forall p | p in s.live :: PairOf(Lives(s.conns)[s.live[p]]) == p;
    SegmentLives(s, seg);
  }

  lemma TrackedAdds(s: TState, seg: Segment, i: nat)
    requires s.WF() && Indexed(s) && IsLast(s.conns, seg.Pair(), i)
    ensures var r := EvictSamples(ObserveSegment(s, seg));
            if BeginsAnew(s.conns[i].life, seg, s.cfg) then |r.conns| == |s.conns| + 1 else JoinsLast(s, r, seg, i)
  {
    SegmentLives(s, seg);
    LastIsLive(s, seg.Pair(), i);
    SplitPlainly(s, i, seg);
  }

  lemma LastStep(cfg: Config, items: seq<Item>, seg: Segment)
    ensures var s := Run(cfg, items);
            Run(cfg, items + [Seg(seg)]) == EvictSamples(ObserveSegment(s.(now := Max(s.now, seg.ts)), seg))
  {
    assert (items + [Seg(seg)])[..|items|] == items;
  }

  /** On every run: a segment of an untracked pair adds a connection. */
  lemma UntrackedSegmentAdds(cfg: Config, items: seq<Item>, seg: Segment)
    requires Untracked(Run(cfg, items), seg.Pair())
    ensures |Run(cfg, items + [Seg(seg)]).conns| == |Run(cfg, items).conns| + 1
  {
    var s := Run(cfg, items);
    RunIndexed(cfg, items);
    LastStep(cfg, items, seg);
    UntrackedAdds(s.(now := Max(s.now, seg.ts)), seg);
  }

  /** And one of a tracked pair adds one exactly when it begins anew on the pair's last
      connection, and otherwise joins that. */
  lemma SegmentAddsExactly(cfg: Config, items: seq<Item>, seg: Segment, i: nat)
    requires IsLast(Run(cfg, items).conns, seg.Pair(), i)
    ensures var s, r := Run(cfg, items), Run(cfg, items + [Seg(seg)]);
            if BeginsAnew(s.conns[i].life, seg, cfg) then |r.conns| == |s.conns| + 1 else JoinsLast(s, r, seg, i)
  {
    var s := Run(cfg, items);
    RunIndexed(cfg, items);
    Accounting.RunKeepsConfig(cfg, items);
    LastStep(cfg, items, seg);
    TrackedAdds(s.(now := Max(s.now, seg.ts)), seg, i);
  }

  // --------------------------------------------------------------- instance numbers

  /** How many of the lives are of the pair. */
  function CountOf(lives: seq<Life>, pair: EndpointPair): nat {
    if |lives| == 0 then 0
    else CountOf(lives[..|lives| - 1], pair) + if PairOf(lives[|lives| - 1]) == pair then 1 else 0
  }

  /** The instances of each pair are 0, 1, 2, ... in order. */
  ghost predicate Consecutive(lives: seq<Life>) {
    forall i | 0 <= i < |lives| :: InstanceOf(lives[i]) == CountOf(lives[..i], PairOf(lives[i]))
  }

  ghost predicate NextIsCount(lives: seq<Life>, next: TrackerIndex.Index) {
    forall p: EndpointPair :: (if p in next then next[p] else 0) == CountOf(lives, p)
  }

  lemma {:induction false} CountIgnoresLives(a: seq<Life>, b: seq<Life>, pair: EndpointPair)
    requires |a| == |b| && forall i | 0 <= i < |a| :: PairOf(a[i]) == PairOf(b[i])
    ensures CountOf(a, pair) == CountOf(b, pair)
  {
    if |a| > 0 {
      CountIgnoresLives(a[..|a| - 1], b[..|a| - 1], pair);
    }
  }

  lemma JoinStaysConsecutive(lives: seq<Life>, next: TrackerIndex.Index, i: nat, l: Life)
    requires i < |lives| && l.ident == lives[i].ident && Consecutive(lives) && NextIsCount(lives, next)
    ensures Consecutive(lives[i := l]) && NextIsCount(lives[i := l], next)
  {
    var after := lives[i := l];
    forall j | 0 <= j < |after|
      ensures InstanceOf(after[j]) == CountOf(after[..j], PairOf(after[j]))
    {
      CountIgnoresLives(after[..j], lives[..j], PairOf(lives[j]));
    }
    forall p: EndpointPair
      ensures (if p in next then next[p] else 0) == CountOf(after, p)
    {
      CountIgnoresLives(after, lives, p);
    }
  }

  lemma OpenStaysConsecutive(lives: seq<Life>, next: TrackerIndex.Index, l: Life)
    requires Consecutive(lives) && NextIsCount(lives, next)
    requires InstanceOf(l) == if PairOf(l) in next then next[PairOf(l)] else 0
    ensures Consecutive(lives + [l]) && NextIsCount(lives + [l], next[PairOf(l) := InstanceOf(l) + 1])
  {
    var after := lives + [l];
    assert after[..|lives|] == lives;
    forall j | 0 <= j < |lives|
      ensures InstanceOf(after[j]) == CountOf(after[..j], PairOf(after[j]))
    {
      assert after[..j] == lives[..j];
    }
  }

  ghost predicate InOrderOfOpening(lives: seq<Life>, next: TrackerIndex.Index) {
    Consecutive(lives) && NextIsCount(lives, next)
  }

  lemma JoinedStays(a: TState, b: TState, i: nat, l: Life)
    requires InOrderOfOpening(Lives(a.conns), a.nextInstance) && i < |a.conns| && l.ident == a.conns[i].life.ident
    requires Lives(b.conns) == Lives(a.conns)[i := l] && b.nextInstance == a.nextInstance
    ensures InOrderOfOpening(Lives(b.conns), b.nextInstance)
  {
    JoinStaysConsecutive(Lives(a.conns), a.nextInstance, i, l);
  }

  lemma OpenedStays(a: TState, b: TState, seg: Segment)
    requires InOrderOfOpening(Lives(a.conns), a.nextInstance) && Lives(b.conns) == Lives(a.conns) + [Opening(a, seg)]
    requires b.nextInstance == a.nextInstance[seg.Pair() := NextInstance(a, seg.Pair()) + 1]
    ensures InOrderOfOpening(Lives(b.conns), b.nextInstance)
  {
    OpenStaysConsecutive(Lives(a.conns), a.nextInstance, Opening(a, seg));
  }

  lemma SegmentStaysConsecutive(s: TState, seg: Segment)
    requires s.WF() && InOrderOfOpening(Lives(s.conns), s.nextInstance)
    ensures var r := EvictSamples(ObserveSegment(s, seg)); InOrderOfOpening(Lives(r.conns), r.nextInstance)
  {
    SegmentLives(s, seg);
    if Joins(s, seg) {
      var i := s.live[seg.Pair()];
      JoinedStays(s, EvictSamples(ObserveSegment(s, seg)), i, s.conns[i].life.Join(seg));
    } else {
      OpenedStays(s, EvictSamples(ObserveSegment(s, seg)), seg);
    }
  }

  /** In a replay, and in any run without ticks, the instances of a pair are numbered from 0, one
      by one, in the order they open. */
  lemma {:induction false} InstancesAreConsecutive(cfg: Config, items: seq<Item>)
    requires cfg.retention.FailFast? || forall i | 0 <= i < |items| :: items[i].Seg?
    ensures InOrderOfOpening(Lives(Run(cfg, items).conns), Run(cfg, items).nextInstance)
  {
    if |items| > 0 {
      var pre, last := items[..|items| - 1], items[|items| - 1];
      var s := Run(cfg, pre);
      InstancesAreConsecutive(cfg, pre);
      Accounting.RunKeepsConfig(cfg, pre);
      if last.Seg? {
        SegmentStaysConsecutive(s.(now := Max(s.now, last.seg.ts)), last.seg);
      }
    }
  }
}
