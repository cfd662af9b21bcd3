/** The pair index in every reachable state: across instance splits, bulk removal and index
    rebuilds, it points exactly at the newest tracked instance of each pair. */
module TrackerIndex {
  import opened Core
  import opened Lifecycle
  import opened TrackerSpec
  import opened TrackerLives

  type Index = map<EndpointPair, nat>

  function PairOf(l: Life): EndpointPair { l.ident.id.pair }
  function InstanceOf(l: Life): nat { l.ident.id.instance }

  /** A pair is indexed exactly when it is tracked, at its last position. */
  ghost predicate LivePointsToNewest(lives: seq<Life>, live: Index) {
    && (forall i | 0 <= i < |lives| :: PairOf(lives[i]) in live && i <= live[PairOf(lives[i])])
    && (forall p | p in live :: live[p] < |lives| && PairOf(lives[live[p]]) == p)
  }

  /** Instances of a pair are numbered upward, below the next number to be given. */
  ghost predicate InstancesIncrease(lives: seq<Life>, next: Index) {
    && (forall i, j | 0 <= i < j < |lives| && PairOf(lives[i]) == PairOf(lives[j]) ::
          InstanceOf(lives[i]) < InstanceOf(lives[j]))
    && (forall i | 0 <= i < |lives| :: PairOf(lives[i]) in next && InstanceOf(lives[i]) < next[PairOf(lives[i])])
  }

  /** Every connection's two ends make up its pair. */
  ghost predicate Oriented(lives: seq<Life>) {
    forall i | 0 <= i < |lives| :: Canonical(lives[i].ident.origin, lives[i].ident.responder) == PairOf(lives[i])
  }

  ghost predicate IndexOk(lives: seq<Life>, live: Index, next: Index) {
    LivePointsToNewest(lives, live) && InstancesIncrease(lives, next) && Oriented(lives)
  }

  ghost predicate Indexed(s: TState) { IndexOk(Lives(s.conns), s.live, s.nextInstance) }

  lemma JoinIndexed(lives: seq<Life>, live: Index, next: Index, i: nat, l: Life)
    requires IndexOk(lives, live, next) && i < |lives| && l.ident == lives[i].ident
    ensures IndexOk(lives[i := l], live, next)
  {
    var after := lives[i := l];
    assert forall j | 0 <= j < |lives| ::
             PairOf(after[j]) == PairOf(lives[j]) && InstanceOf(after[j]) == InstanceOf(lives[j]);
  }

  lemma AppendIndexed(lives: seq<Life>, live: Index, next: Index, l: Life)
    requires IndexOk(lives, live, next)
    requires Canonical(l.ident.origin, l.ident.responder) == PairOf(l)
    requires InstanceOf(l) == if PairOf(l) in next then next[PairOf(l)] else 0
    ensures IndexOk(lives + [l], live[PairOf(l) := |lives|], next[PairOf(l) := InstanceOf(l) + 1])
  {
  }

  /** Keeping some of the lives, in order, and indexing afresh keeps the invariant. */
  lemma SubsequenceIndexed(lives: seq<Life>, live: Index, next: Index, kept: seq<Life>, from: seq<nat>, live': Index)
    requires IndexOk(lives, live, next)
    requires |from| == |kept| && forall i | 0 <= i < |from| :: from[i] < |lives| && kept[i] == lives[from[i]]
    requires forall i, j | 0 <= i < j < |from| :: from[i] < from[j]
    requires LivePointsToNewest(kept, live')
    ensures IndexOk(kept, live', map p | p in next && p in live' :: next[p])
  {
    forall i, j | 0 <= i < j < |kept| && PairOf(kept[i]) == PairOf(kept[j])
      ensures InstanceOf(kept[i]) < InstanceOf(kept[j])
    {
      assert from[i] < from[j];
    }
  }

  lemma {:induction false} RebuiltPointsToNewest(conns: seq<Conn>)
    ensures LivePointsToNewest(Lives(conns), TrackerSpec.Index(conns))
  {
    if |conns| > 0 {
      var n := |conns| - 1;
      RebuiltPointsToNewest(conns[..n]);
      NewestStep(Lives(conns[..n]), TrackerSpec.Index(conns[..n]), conns[n].life);
      assert Lives(conns) == Lives(conns[..n]) + [conns[n].life];
    }
  }

  lemma NewestStep(lives: seq<Life>, live: Index, l: Life)
    requires LivePointsToNewest(lives, live)
    ensures LivePointsToNewest(lives + [l], live[PairOf(l) := |lives|])
  {
  }

  lemma EvictDeadIndexed(s: TState)
    requires s.WF() && Indexed(s)
    ensures Indexed(EvictDead(s))
  {
    var r := EvictDead(s);
    if s.cfg.retention.Evict? && |r.conns| != |s.conns| {
      var horizon := Horizon(s.now, s.cfg.retention.horizon);
      SurvivorsAreSubsequence(s.conns, s.now, horizon, s.cfg.deadAfter);
      RebuiltPointsToNewest(r.conns);
      SubsequenceIndexed(Lives(s.conns), s.live, s.nextInstance, Lives(r.conns),
                         Origins(s.conns, s.now, horizon, s.cfg.deadAfter), r.live);
    }
  }

  lemma AfterJoin(a: TState, b: TState, i: nat, l: Life)
    requires Indexed(a) && i < |a.conns| && l.ident == a.conns[i].life.ident
    requires Lives(b.conns) == Lives(a.conns)[i := l] && b.live == a.live && b.nextInstance == a.nextInstance
    ensures Indexed(b)
  {
    JoinIndexed(Lives(a.conns), a.live, a.nextInstance, i, l);
  }

  lemma AfterOpen(a: TState, b: TState, seg: Segment)
    requires Indexed(a) && Lives(b.conns) == Lives(a.conns) + [Opening(a, seg)]
    requires b.live == a.live[seg.Pair() := |a.conns|]
    requires b.nextInstance == a.nextInstance[seg.Pair() := NextInstance(a, seg.Pair()) + 1]
    ensures Indexed(b)
  {
    var l := Opening(a, seg);
    IdentityKeepsPair(l.ident.id, seg);
    AppendIndexed(Lives(a.conns), a.live, a.nextInstance, l);
  }

  lemma SegmentIndexed(s: TState, seg: Segment)
    requires s.WF() && Indexed(s)
    ensures Indexed(EvictSamples(ObserveSegment(s, seg)))
  {
    SegmentLives(s, seg);
    if Joins(s, seg) {
      var i := s.live[seg.Pair()];
      AfterJoin(s, EvictSamples(ObserveSegment(s, seg)), i, s.conns[i].life.Join(seg));
    } else {
      AfterOpen(s, EvictSamples(ObserveSegment(s, seg)), seg);
    }
  }

  lemma TickIndexed(s: TState, t: u64)
    requires s.WF() && Indexed(s)
    ensures Indexed(ObserveTick(s, t))
  {
    if s.cfg.retention.Evict? {
      TickLives(s, t);
      EvictDeadIndexed(BeforeCollection(s, t));
    }
  }

  /** In every reachable state, under either retention policy and any mix of segments and
      ticks: a pair is indexed exactly when it is tracked, at its newest instance;
      instances of a pair are numbered upward, below the next number to be given; and every
      connection's two ends make up its pair. */
  lemma {:induction false} RunIndexed(cfg: Config, items: seq<Item>)
    ensures Indexed(Run(cfg, items))
  {
    if |items| > 0 {
      var n := |items| - 1;
      RunIndexed(cfg, items[..n]);
      var s := Run(cfg, items[..n]);
      match items[n]
      case Seg(seg) => SegmentIndexed(s.(now := Max(s.now, seg.ts)), seg);
      case Tick(t) => TickIndexed(s, t);
    }
  }

  /** Tracked connection ids are pairwise distinct. */
  lemma IdsAreDistinct(cfg: Config, items: seq<Item>, i: nat, j: nat)
    requires i < j < |Run(cfg, items).conns|
    ensures Run(cfg, items).conns[i].life.ident.id != Run(cfg, items).conns[j].life.ident.id
  {
    RunIndexed(cfg, items);
    assert InstancesIncrease(Lives(Run(cfg, items).conns), Run(cfg, items).nextInstance);
    assert PairOf(Lives(Run(cfg, items).conns)[i]) == PairOf(Lives(Run(cfg, items).conns)[j]) ==>
           InstanceOf(Lives(Run(cfg, items).conns)[i]) < InstanceOf(Lives(Run(cfg, items).conns)[j]);
  }
}
