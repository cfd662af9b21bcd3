/** Connection ids over time: a run gives out the same id twice exactly when it opens a pair
    that was tracked before and has been wholly collected since. */
module IdReuse {
  import opened Core
  import opened Lifecycle
  import opened TrackerSpec
  import opened TrackerLives
  import opened TrackerIndex
  import opened Attribution
  import Accounting

  /** The tracker as a segment finds it: the clock has moved, nothing else has. */
  function Meets(s: TState, seg: Segment): (r: TState)
    requires s.WF()
    ensures r.WF()
  {
    s.(now := Max(s.now, seg.ts))
  }

  /** The id an item opens, if it opens one. */
  function OpenedBy(s: TState, item: Item): seq<ConnId>
    requires s.WF()
  {
    if item.Seg? && !Joins(Meets(s, item.seg), item.seg)
    then [ConnId(item.seg.Pair(), NextInstance(s, item.seg.Pair()))] else []
  }

  /** Every id a run has given, in order, whether or not it is still tracked. */
  function OpenedIds(cfg: Config, items: seq<Item>): seq<ConnId> {
    if |items| == 0 then []
    else
      var pre := items[..|items| - 1];
      OpenedIds(cfg, pre) + OpenedBy(Run(cfg, pre), items[|items| - 1])
  }

  ghost predicate Distinct(ids: seq<ConnId>) {
    forall i, j | 0 <= i < j < |ids| :: ids[i] != ids[j]
  }

  ghost predicate Tracked(s: TState, p: EndpointPair) {
    exists i :: 0 <= i < |s.conns| && PairOf(s.conns[i].life) == p
  }

  ghost predicate WasOpened(ids: seq<ConnId>, p: EndpointPair) {
    exists i :: 0 <= i < |ids| && ids[i].pair == p
  }

  /** Item `k` is a segment of a pair that was given before and is wholly untracked now. */
  ghost predicate Reopens(cfg: Config, items: seq<Item>, k: nat)
    requires k < |items|
  {
    && items[k].Seg?
    && WasOpened(OpenedIds(cfg, items[..k]), items[k].seg.Pair())
    && !Tracked(Run(cfg, items[..k]), items[k].seg.Pair())
  }

  /** The id given is the one the new connection carries. */
  lemma OpenedIdIsCarried(s: TState, seg: Segment)
    requires s.WF()
    ensures var r, given := Step(s, Seg(seg)), OpenedBy(s, Seg(seg));
            && |r.conns| == |s.conns| + |given|
            && (given != [] ==> r.conns[|s.conns|].life.ident.id == given[0])
  {
    SegmentLives(Meets(s, seg), seg);
    var r := Step(s, Seg(seg));
    assert OpenedBy(s, Seg(seg)) != [] ==> Lives(r.conns)[|s.conns|] == Opening(Meets(s, seg), seg);
  }

  // ---------------------------------------------------- pairs numbered and tracked

  /** A pair has a next instance number exactly while it is indexed. */
  ghost predicate NumberedAreLive(s: TState) {
    forall p :: p in s.nextInstance <==> p in s.live
  }

  lemma SegmentNumbered(s: TState, seg: Segment)
    requires s.WF() && NumberedAreLive(s)
    ensures NumberedAreLive(EvictSamples(ObserveSegment(s, seg)))
  {
    SegmentLives(s, seg);
  }

  lemma CollectionNumbered(s: TState)
    requires s.WF() && Indexed(s) && NumberedAreLive(s)
    ensures NumberedAreLive(EvictDead(s))
  {
    var r := EvictDead(s);
    EvictDeadIndexed(s);
    forall p | p in r.live
      ensures p in r.nextInstance
    {
      assert PairOf(Lives(r.conns)[r.live[p]]) == p;
    }
    assert NumberedAreLive(s);
  }

  lemma TickNumbered(s: TState, t: u64)
    requires s.WF() && Indexed(s) && NumberedAreLive(s)
    ensures NumberedAreLive(ObserveTick(s, t))
  {
    if s.cfg.retention.Evict? {
      TickLives(s, t);
      CollectionNumbered(BeforeCollection(s, t));
    }
  }

  lemma {:induction false} RunNumbered(cfg: Config, items: seq<Item>)
    ensures NumberedAreLive(Run(cfg, items))
  {
    if |items| > 0 {
      var s := Run(cfg, items[..|items| - 1]);
      RunNumbered(cfg, items[..|items| - 1]);
      RunIndexed(cfg, items[..|items| - 1]);
      match items[|items| - 1]
      case Seg(seg) => SegmentNumbered(Meets(s, seg), seg);
      case Tick(t) => TickNumbered(s, t);
    }
  }

  lemma TrackedIsNumbered(cfg: Config, items: seq<Item>, p: EndpointPair)
    ensures var s := Run(cfg, items);
            Tracked(s, p) <==> p in s.nextInstance
  {
    var s := Run(cfg, items);
    RunNumbered(cfg, items);
    RunIndexed(cfg, items);
    if Tracked(s, p) {
      var i :| 0 <= i < |s.conns| && PairOf(s.conns[i].life) == p;
      assert PairOf(Lives(s.conns)[i]) in s.live;
    }
    if p in s.nextInstance {
      assert p in s.live && PairOf(Lives(s.conns)[s.live[p]]) == p;
    }
  }

  // ------------------------------------------------------- what one item opens

  /** The next numbers after an item: one more for the pair it opens, else no more than
      before. */
  ghost predicate Numbers(next: Index, given: seq<ConnId>, after: Index) {
    if given == [] then forall p | p in after :: p in next && after[p] == next[p]
    else |given| == 1 && after == next[given[0].pair := given[0].instance + 1]
         && given[0].instance == (if given[0].pair in next then next[given[0].pair] else 0)
  }

  lemma SegmentNumbers(s: TState, seg: Segment)
    requires s.WF()
    ensures Numbers(s.nextInstance, OpenedBy(s, Seg(seg)),
                    EvictSamples(ObserveSegment(Meets(s, seg), seg)).nextInstance)
  {
    SegmentLives(Meets(s, seg), seg);
  }

  lemma TickNumbers(s: TState, t: u64)
    requires s.WF()
    ensures Numbers(s.nextInstance, [], ObserveTick(s, t).nextInstance)
  {
    if s.cfg.retention.Evict? {
      TickLives(s, t);
    }
  }

  lemma StepNumbers(s: TState, item: Item)
    requires s.WF()
    ensures Numbers(s.nextInstance, OpenedBy(s, item), Step(s, item).nextInstance)
  {
    match item
    case Seg(seg) => SegmentNumbers(s, seg);
    case Tick(t) => TickNumbers(s, t);
  }

  // ------------------------------------------------------------ the two invariants

  /** Once a pair has had an id it has had instance 0. */
  ghost predicate FirstIsZero(ids: seq<ConnId>, next: Index) {
    && (forall i | 0 <= i < |ids| :: ConnId(ids[i].pair, 0) in ids)
    && (forall p | p in next :: ConnId(p, 0) in ids)
  }

  /** Everything given lies below the next number of its pair. */
  ghost predicate Below(ids: seq<ConnId>, next: Index) {
    forall i | 0 <= i < |ids| && ids[i].pair in next :: ids[i].instance < next[ids[i].pair]
  }

  lemma FirstIsZeroStep(ids: seq<ConnId>, next: Index, given: seq<ConnId>, after: Index)
    requires FirstIsZero(ids, next) && Numbers(next, given, after)
    ensures FirstIsZero(ids + given, after)
  {
    var all := ids + given;
    assert forall x | x in ids :: x in all;
    if given != [] {
      assert given[0] in all;
      assert ConnId(given[0].pair, 0) in all;
      assert forall i | 0 <= i < |all| :: all[i] == if i < |ids| then ids[i] else given[0];
    } else {
      assert all == ids;
    }
  }

  lemma {:induction false} RunFirstIsZero(cfg: Config, items: seq<Item>)
    ensures FirstIsZero(OpenedIds(cfg, items), Run(cfg, items).nextInstance)
  {
    if |items| > 0 {
      var pre, last := items[..|items| - 1], items[|items| - 1];
      RunFirstIsZero(cfg, pre);
      StepNumbers(Run(cfg, pre), last);
      FirstIsZeroStep(OpenedIds(cfg, pre), Run(cfg, pre).nextInstance,
                      OpenedBy(Run(cfg, pre), last), Run(cfg, items).nextInstance);
    }
  }

  /** Unless the item reopens a pair, what it opens is new and still below the next number. */
  lemma FreshStep(ids: seq<ConnId>, next: Index, given: seq<ConnId>, after: Index)
    requires Distinct(ids) && Below(ids, next) && Numbers(next, given, after)
    requires given != [] && given[0].pair !in next ==> !WasOpened(ids, given[0].pair)
    ensures Distinct(ids + given) && Below(ids + given, after)
  {
    var all := ids + given;
    if given != [] {
      forall i | 0 <= i < |ids|
        ensures ids[i] != given[0]
        ensures ids[i].pair in after ==> ids[i].instance < after[ids[i].pair]
      {
        assert ids[i].pair == given[0].pair ==> WasOpened(ids, given[0].pair);
      }
    } else {
      assert all == ids;
    }
  }

  lemma {:induction false} FreshWithoutReopening(cfg: Config, items: seq<Item>)
    requires forall k | 0 <= k < |items| :: !Reopens(cfg, items, k)
    ensures Distinct(OpenedIds(cfg, items)) && Below(OpenedIds(cfg, items), Run(cfg, items).nextInstance)
  {
    if |items| > 0 {
      var n := |items| - 1;
      var pre, last := items[..n], items[n];
      forall k | 0 <= k < n
        ensures !Reopens(cfg, pre, k)
      {
        assert pre[..k] == items[..k];
        assert !Reopens(cfg, items, k);
      }
      FreshWithoutReopening(cfg, pre);
      StepNumbers(Run(cfg, pre), last);
      assert !Reopens(cfg, items, n);
      if last.Seg? {
        TrackedIsNumbered(cfg, pre, last.seg.Pair());
      }
      FreshStep(OpenedIds(cfg, pre), Run(cfg, pre).nextInstance,
                OpenedBy(Run(cfg, pre), last), Run(cfg, items).nextInstance);
    }
  }

  // -------------------------------------------------------------------- the theorem

  lemma OneItemGrows(cfg: Config, items: seq<Item>)
    requires |items| > 0
    ensures OpenedIds(cfg, items[..|items| - 1]) <= OpenedIds(cfg, items)
  {}

  lemma PrefixTrans(a: seq<ConnId>, b: seq<ConnId>, c: seq<ConnId>)
    requires a <= b && b <= c
    ensures a <= c
  {}

  lemma {:induction false} OpenedIdsGrow(cfg: Config, items: seq<Item>, k: nat)
    requires k <= |items|
    ensures OpenedIds(cfg, items[..k]) <= OpenedIds(cfg, items)
  {
    if k == |items| {
      assert items[..k] == items;
    } else {
      var pre := items[..|items| - 1];
      assert pre[..k] == items[..k];
      OpenedIdsGrow(cfg, pre, k);
      OneItemGrows(cfg, items);
      PrefixTrans(OpenedIds(cfg, items[..k]), OpenedIds(cfg, pre), OpenedIds(cfg, items));
    }
  }

  lemma RepeatStays(ids: seq<ConnId>, id: ConnId, all: seq<ConnId>)
    requires id in ids && ids + [id] <= all
    ensures !Distinct(all)
  {
    var j :| 0 <= j < |ids| && ids[j] == id;
    assert (ids + [id])[j] == all[j] && (ids + [id])[|ids|] == all[|ids|];
  }

  /** A reopened pair is given instance 0 again. */
  lemma ReopeningRepeats(cfg: Config, items: seq<Item>, k: nat)
    requires k < |items| && Reopens(cfg, items, k)
    ensures !Distinct(OpenedIds(cfg, items))
  {
    var pre, p := items[..k], items[k].seg.Pair();
    var ids := OpenedIds(cfg, pre);
    RunFirstIsZero(cfg, pre);
    RunNumbered(cfg, pre);
    TrackedIsNumbered(cfg, pre, p);
    assert OpenedBy(Run(cfg, pre), items[k]) == [ConnId(p, 0)];
    assert items[..k + 1][..k] == pre;
    OpenedIdsGrow(cfg, items, k + 1);
    RepeatStays(ids, ConnId(p, 0), OpenedIds(cfg, items));
  }

  /** Every id a run opens is new exactly when no segment opens a pair that was tracked before
      and is wholly untracked now. */
  lemma IdsAreNeverReusedExactly(cfg: Config, items: seq<Item>)
    ensures Distinct(OpenedIds(cfg, items)) <==> forall k | 0 <= k < |items| :: !Reopens(cfg, items, k)
  {
    if forall k | 0 <= k < |items| :: !Reopens(cfg, items, k) {
      FreshWithoutReopening(cfg, items);
    } else {
      var k :| 0 <= k < |items| && Reopens(cfg, items, k);
      ReopeningRepeats(cfg, items, k);
    }
  }

  // ----------------------------------------------- runs that reuse, and runs that cannot

  /** Everything given is tracked still. */
  ghost predicate AllTracked(ids: seq<ConnId>, s: TState) {
    forall i | 0 <= i < |ids| :: ids[i].pair in s.nextInstance
  }

  lemma {:induction false} UncollectedStayTracked(cfg: Config, items: seq<Item>)
    requires cfg.retention.FailFast? || forall i | 0 <= i < |items| :: items[i].Seg?
    ensures AllTracked(OpenedIds(cfg, items), Run(cfg, items))
  {
    if |items| > 0 {
      var pre, last := items[..|items| - 1], items[|items| - 1];
      UncollectedStayTracked(cfg, pre);
      Accounting.RunKeepsConfig(cfg, pre);
      if last.Seg? {
        SegmentLives(Meets(Run(cfg, pre), last.seg), last.seg);
      }
    }
  }

  /** A replay, or any run without ticks, never gives an id twice. */
  lemma ReplayNeverReuses(cfg: Config, items: seq<Item>)
    requires cfg.retention.FailFast? || forall i | 0 <= i < |items| :: items[i].Seg?
    ensures Distinct(OpenedIds(cfg, items))
  {
    forall k | 0 <= k < |items|
      ensures !Reopens(cfg, items, k)
    {
      UncollectedStayTracked(cfg, items[..k]);
      if items[k].Seg? {
        TrackedIsNumbered(cfg, items[..k], items[k].seg.Pair());
      }
    }
    IdsAreNeverReusedExactly(cfg, items);
  }

  lemma OpensAlone(cfg: Config, a: Segment)
    ensures OpenedIds(cfg, [Seg(a)]) == [ConnId(a.Pair(), 0)]
  {
    assert [Seg(a)][..0] == [];
    assert Run(cfg, []) == New(cfg) && OpenedIds(cfg, []) == [];
  }

  /** A tick later than both the window and the idle limit after a lone connection's last
      activity collects it. */
  lemma TickCollectsAll(s: TState, t: u64, l: Life)
    requires s.WF() && s.cfg.retention.Evict? && Lives(s.conns) == [l] && s.now <= t
    requires t > l.traffic.lastAt + Max(s.cfg.retention.horizon, s.cfg.deadAfter)
    ensures ObserveTick(s, t).conns == []
  {
    TickLives(s, t);
    var b := BeforeCollection(s, t);
    assert Lives(b.conns)[0] == l;
    assert b.conns[..0] == [];
  }

  lemma TickForgets(cfg: Config, a: Segment, t: u64)
    requires cfg.retention.Evict? && t > a.ts + Max(cfg.retention.horizon, cfg.deadAfter)
    ensures Run(cfg, [Seg(a), Tick(t)]).conns == []
    ensures OpenedIds(cfg, [Seg(a), Tick(t)]) == [ConnId(a.Pair(), 0)]
  {
    var one, two := [Seg(a)], [Seg(a), Tick(t)];
    assert two[..1] == one;
    OpensAlone(cfg, a);
    OneSegmentRun(cfg, a);
    Accounting.RunKeepsConfig(cfg, one);
    TickCollectsAll(Run(cfg, one), t, Open(ConnId(a.Pair(), 0), a));
    assert OpenedIds(cfg, two) == OpenedIds(cfg, one) + [];
  }

  lemma UntrackedOpensZero(cfg: Config, items: seq<Item>, b: Segment)
    requires Run(cfg, items).conns == []
    ensures OpenedIds(cfg, items + [Seg(b)]) == OpenedIds(cfg, items) + [ConnId(b.Pair(), 0)]
  {
    assert (items + [Seg(b)])[..|items|] == items;
    TrackedIsNumbered(cfg, items, b.Pair());
    RunNumbered(cfg, items);
  }

  /** Under every evicting configuration ids can be reused: any segment, a tick past the window
      and the idle limit, and any later segment of the same pair open instance 0 twice. */
  lemma IdsCanBeReused(cfg: Config, a: Segment, t: u64, b: Segment)
    requires cfg.retention.Evict? && t > a.ts + Max(cfg.retention.horizon, cfg.deadAfter)
    requires b.Pair() == a.Pair()
    ensures OpenedIds(cfg, [Seg(a), Tick(t)] + [Seg(b)]) == [ConnId(a.Pair(), 0), ConnId(a.Pair(), 0)]
  {
    TickForgets(cfg, a, t);
    UntrackedOpensZero(cfg, [Seg(a), Tick(t)], b);
  }
}
