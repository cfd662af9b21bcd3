/** The live view: under eviction just the connections not over before "now" are resolvable at
    it, and every tick collects exactly what is finished or idle, and old. */
module LiveView {
  import opened Core
  import opened Lifecycle
  import opened TrackerSpec
  import opened TrackerLives
  import opened TrackerIndex
  import opened Accounting
  import opened Attribution
  import opened StateSeries
  import opened Seek
  import T = Timeline

  /** The timeline of the samples retained now; unfinished connections extend to now. */
  function Snapshot(s: TState): T.Timeline {
    T.TimelineOf(SeriesOfAll(s.conns), s.now)
  }

  // ------------------------------------------------------------ invariants over runs

  lemma CollectionKeepsStates(s: TState, latest: u64)
    requires s.WF()
    ensures AllResolvable(s) ==> AllResolvable(EvictDead(s))
    ensures AllUpToDate(s, latest) ==> AllUpToDate(EvictDead(s), latest)
  {
    if s.cfg.retention.Evict? {
      var horizon := Horizon(s.now, s.cfg.retention.horizon);
      SurvivorsAreSubsequence(s.conns, s.now, horizon, s.cfg.deadAfter);
      SubsequenceKeeps(s, EvictDead(s), Origins(s.conns, s.now, horizon, s.cfg.deadAfter), latest);
    }
  }

  lemma SubsequenceKeeps(s: TState, r: TState, from: seq<nat>, latest: u64)
    requires r == s || (|from| == |r.conns| && r.now == s.now &&
                        forall i | 0 <= i < |from| :: from[i] < |s.conns| && r.conns[i] == s.conns[from[i]])
    ensures AllResolvable(s) ==> AllResolvable(r)
    ensures AllUpToDate(s, latest) ==> AllUpToDate(r, latest)
  {
  }

  lemma DecayTickKeepsStates(s: TState, t: u64)
    requires s.WF() && Accounted(s) && s.cfg.retention.Evict?
    ensures KeepsStates(s, BeforeCollection(s, t)) && s.now <= BeforeCollection(s, t).now
  {
    var s1 := s.(now := Max(s.now, t));
    DecayAccounted(s1, s1.now, |s1.conns|);
    DecayKeepsStates(s1, s1.now, |s1.conns|);
    var s2 := EmitDecay(s1, s1.now);
    AgingKeepsStates(s2);
    KeepsStatesTrans(s1, s2, EvictSamples(s2));
  }

  lemma TickKeepsStates(s: TState, t: u64, latest: u64)
    requires s.WF() && Accounted(s) && s.cfg.retention.Evict?
    ensures AllResolvable(s) ==> AllResolvable(ObserveTick(s, t))
    ensures AllUpToDate(s, latest) ==> AllUpToDate(ObserveTick(s, t), latest)
  {
    var b := BeforeCollection(s, t);
    DecayTickKeepsStates(s, t);
    KeepingKeeps(s, b, latest);
    CollectionKeepsStates(b, latest);
    TickLives(s, t);
  }

  /** The latest segment time so far; ticks do not count. */
  function LatestSegment(items: seq<Item>): u64 {
    if |items| == 0 then 0
    else
      var latest := LatestSegment(items[..|items| - 1]);
      if items[|items| - 1].Seg? then Max(latest, items[|items| - 1].seg.ts) else latest
  }

  /** Segment times never go back; ticks may carry any time. */
  ghost predicate SegmentsInOrder(items: seq<Item>) {
    |items| > 0 ==>
      && SegmentsInOrder(items[..|items| - 1])
      && (items[|items| - 1].Seg? ==> LatestSegment(items[..|items| - 1]) <= items[|items| - 1].seg.ts)
  }

  lemma {:induction false} LiveStates(cfg: Config, items: seq<Item>)
    requires cfg.retention.Evict? && cfg.collectState
    ensures AllResolvable(Run(cfg, items))
    ensures SegmentsInOrder(items) ==> AllUpToDate(Run(cfg, items), LatestSegment(items))
  {
    if |items| > 0 {
      var n := |items| - 1;
      LiveStates(cfg, items[..n]);
      RunKeepsConfig(cfg, items[..n]);
      RunAccounted(cfg, items[..n]);
      match items[n]
      case Seg(seg) =>
        RunAccounted(cfg, items);
        RunKeepsConfig(cfg, items);
        SuccessIsInherited(cfg, items);
        LiveSegment(Run(cfg, items[..n]), seg, LatestSegment(items[..n]));
      case Tick(t) =>
        TickKeepsStates(Run(cfg, items[..n]), t, LatestSegment(items[..n]));
    }
  }

  lemma LiveSegment(s: TState, seg: Segment, latest: u64)
    requires s.WF() && s.cfg.collectState && AllResolvable(s)
    requires !ObserveSegment(s.(now := Max(s.now, seg.ts)), seg).overflowed
    ensures AllResolvable(Step(s, Seg(seg)))
    ensures AllUpToDate(s, latest) && latest <= seg.ts ==> AllUpToDate(Step(s, Seg(seg)), Max(latest, seg.ts))
  {
    var s1 := s.(now := Max(s.now, seg.ts));
    assert AllResolvable(s1);
    assert AllUpToDate(s, latest) ==> AllUpToDate(s1, latest);
    SegmentKeepsStates(s1, seg, latest);
  }

  // -------------------------------------------------------------- resolving at "now"

  lemma {:induction false} ResolveHas(entries: seq<T.Entry>, t: u64, i: nat)
    requires i < |entries|
    ensures forall a | a in T.ResolveEntry(entries[i], t) :: a in T.ResolveAt(entries, t)
  {
    if i < |entries| - 1 {
      ResolveHas(entries[..|entries| - 1], t, i);
    }
  }

  /** Everything recorded by `t` is found at `t`. */
  lemma SortedLast(xs: seq<Sample>, t: u64)
    requires |xs| > 0 && StatesBy(xs, t)
    ensures StatesBy(T.SortByTime(xs), t) && Sorted(T.SortByTime(xs))
  {
    T.SortSorts(xs);
    var ys := T.SortByTime(xs);
    forall j | 0 <= j < |ys|
      ensures ys[j].StateSample? && ys[j].t <= t
    {
      assert ys[j] in multiset(xs);
    }
  }

  /** What is resolved at `t` comes from some entry. */
  lemma {:induction false} ResolvedFrom(entries: seq<T.Entry>, t: u64, a: T.AsOf) returns (i: nat)
    requires a in T.ResolveAt(entries, t)
    ensures i < |entries| && a in T.ResolveEntry(entries[i], t)
  {
    i := |entries| - 1;
    if a !in T.ResolveEntry(entries[i], t) {
      i := ResolvedFrom(entries[..|entries| - 1], t, a);
    }
  }

  /** Not over before `now`. */
  predicate Shown(l: Life, now: u64) { !l.phase.state.Terminal() || l.traffic.lastAt == now }

  lemma ResolvesExactly(c: Conn, now: u64)
    requires Resolvable(c, now) && c.life.traffic.lastAt <= now
    ensures |T.ResolveEntry(T.EntryOf(SeriesOf(c), now), now)| == if Shown(c.life, now) then 1 else 0
  {
    var e := T.EntryOf(SeriesOf(c), now);
    SortedLast(c.hist[STATES], now);
    LastSampleFound(e, now, |e.samples|);
  }

  lemma ResolvesToCurrent(c: Conn, now: u64, latest: u64)
    requires Resolvable(c, now) && UpToDate(c, latest) && Shown(c.life, now)
    ensures T.ResolveEntry(T.EntryOf(SeriesOf(c), now), now) == [AsOfLife(c.life)]
  {
    var e := T.EntryOf(SeriesOf(c), now);
    var h := c.hist[STATES];
    T.SortedStaysPut(h);
    LastSampleFound(e, now, |h|);
    assert h[|h| - 1] == c.life.Snapshot(h[|h| - 1].t);
  }

  /** The snapshot at "now" lists a connection of this id. */
  ghost predicate Listed(s: TState, id: ConnId) {
    exists a :: a in T.ResolveAt(Snapshot(s).entries, s.now) && a.id == id
  }

  /** Under eviction with state collection on, after any mix of segments and ticks in any
      order of time and however much has been evicted, the snapshot at "now" lists a tracked
      connection exactly when it is not closed or reset, or was active at this very moment. */
  lemma ResolvableExactly(cfg: Config, items: seq<Item>, i: nat)
    requires cfg.retention.Evict? && cfg.collectState && i < |Run(cfg, items).conns|
    ensures var s := Run(cfg, items);
            Listed(s, s.conns[i].life.ident.id) <==> Shown(s.conns[i].life, s.now)
  {
    var s := Run(cfg, items);
    LiveStates(cfg, items);
    RunClocked(cfg, items);
    EntriesAreDistinct(cfg, items, Snapshot(s).entries);
    assert Lives(s.conns)[i] == s.conns[i].life;
    ResolvesExactly(s.conns[i], s.now);
    ListedExactly(s, i);
  }

  ghost predicate DistinctEntries(entries: seq<T.Entry>) {
    forall j, k | 0 <= j < k < |entries| :: entries[j].conn.ident.id != entries[k].conn.ident.id
  }

  lemma ResolvesOwnId(e: T.Entry, t: u64)
    ensures forall a | a in T.ResolveEntry(e, t) :: a.id == e.conn.ident.id
  {}

  /** With distinct ids only a connection's own entry lists it. */
  lemma ListsOwn(entries: seq<T.Entry>, t: u64, i: nat, a: T.AsOf)
    requires i < |entries| && DistinctEntries(entries)
    requires a in T.ResolveAt(entries, t) && a.id == entries[i].conn.ident.id
    ensures a in T.ResolveEntry(entries[i], t)
  {
    var k := ResolvedFrom(entries, t, a);
    ResolvesOwnId(entries[k], t);
    assert k < i || i < k || k == i;
  }

  lemma ListedExactly(s: TState, i: nat)
    requires i < |s.conns| && DistinctEntries(Snapshot(s).entries)
    ensures Listed(s, s.conns[i].life.ident.id) <==>
            |T.ResolveEntry(T.EntryOf(SeriesOf(s.conns[i]), s.now), s.now)| > 0
  {
    var entries, id := Snapshot(s).entries, s.conns[i].life.ident.id;
    var own := T.ResolveEntry(entries[i], s.now);
    assert entries[i] == T.EntryOf(SeriesOf(s.conns[i]), s.now);
    ResolveHas(entries, s.now, i);
    ResolvesOwnId(entries[i], s.now);
    assert |own| > 0 ==> own[0] in T.ResolveAt(entries, s.now);
    if Listed(s, id) {
      var a :| a in T.ResolveAt(entries, s.now) && a.id == id;
      ListsOwn(entries, s.now, i, a);
    }
  }

  /** And when segment times never go back it is resolved to its current state and bytes. */
  lemma UnfinishedResolveToCurrent(cfg: Config, items: seq<Item>, i: nat)
    requires cfg.retention.Evict? && cfg.collectState && SegmentsInOrder(items)
    requires i < |Run(cfg, items).conns| && Shown(Run(cfg, items).conns[i].life, Run(cfg, items).now)
    ensures var s := Run(cfg, items);
            AsOfLife(s.conns[i].life) in T.ResolveAt(Snapshot(s).entries, s.now)
  {
    LiveStates(cfg, items);
    CurrentListed(Run(cfg, items), i, LatestSegment(items));
  }

  lemma CurrentListed(s: TState, i: nat, latest: u64)
    requires AllResolvable(s) && AllUpToDate(s, latest) && i < |s.conns| && Shown(s.conns[i].life, s.now)
    ensures AsOfLife(s.conns[i].life) in T.ResolveAt(Snapshot(s).entries, s.now)
  {
    var c, entries := s.conns[i], Snapshot(s).entries;
    assert entries[i] == T.EntryOf(SeriesOf(c), s.now);
    ResolveHas(entries, s.now, i);
    assert Resolvable(c, s.now) && UpToDate(c, latest);
    ResolvesToCurrent(c, s.now, latest);
    assert T.ResolveEntry(entries[i], s.now)[0] == AsOfLife(c.life);
  }

  // ----------------------------------------------------------------------- collection

  lemma KeptSurvive(b: TState, i: nat)
    requires b.WF() && b.cfg.retention.Evict? && i < |EvictDead(b).conns|
    ensures Survives(EvictDead(b).conns[i].life, b.now, Horizon(b.now, b.cfg.retention.horizon), b.cfg.deadAfter)
    ensures EvictDead(b).now == b.now
  {
    var horizon := Horizon(b.now, b.cfg.retention.horizon);
    SurvivorsAreSubsequence(b.conns, b.now, horizon, b.cfg.deadAfter);
    if |Survivors(b.conns, b.now, horizon, b.cfg.deadAfter)| == |b.conns| {
      AllSurvive(b.conns, b.now, horizon, b.cfg.deadAfter);
    }
  }

  /** After a tick every survivor is worth keeping, and so was last active within the
      longer of the retention window and the idle limit. */
  lemma SurvivorsAreRecent(s: TState, t: u64, i: nat)
    requires s.WF() && s.cfg.retention.Evict? && i < |ObserveTick(s, t).conns|
    ensures var r := ObserveTick(s, t);
            var l := r.conns[i].life;
            && Survives(l, r.now, Horizon(r.now, s.cfg.retention.horizon), s.cfg.deadAfter)
            && l.traffic.lastAt + Max(s.cfg.retention.horizon, s.cfg.deadAfter) >= r.now
  {
    TickLives(s, t);
    KeptSurvive(BeforeCollection(s, t), i);
  }

  /** Nothing else is collected: a connection that still survives is still tracked. */
  lemma {:induction false} SurvivorsStay(conns: seq<Conn>, now: u64, horizon: u64, deadAfter: u64, i: nat)
    requires i < |conns| && Survives(conns[i].life, now, horizon, deadAfter)
    ensures conns[i] in Survivors(conns, now, horizon, deadAfter)
  {
    if i < |conns| - 1 {
      SurvivorsStay(conns[..|conns| - 1], now, horizon, deadAfter, i);
    }
  }

  lemma SurvivorsAreKept(s: TState, t: u64, i: nat)
    requires s.WF() && s.cfg.retention.Evict? && i < |s.conns|
    requires var now := Max(s.now, t);
             Survives(s.conns[i].life, now, Horizon(now, s.cfg.retention.horizon), s.cfg.deadAfter)
    ensures exists k :: 0 <= k < |ObserveTick(s, t).conns| && ObserveTick(s, t).conns[k].life == s.conns[i].life
  {
    var b := BeforeCollection(s, t);
    TickLives(s, t);
    assert Lives(b.conns)[i] == Lives(s.conns)[i];
    var horizon := Horizon(b.now, b.cfg.retention.horizon);
    SurvivorsStay(b.conns, b.now, horizon, b.cfg.deadAfter, i);
    var kept := Survivors(b.conns, b.now, horizon, b.cfg.deadAfter);
    var k :| 0 <= k < |kept| && kept[k] == b.conns[i];
    if |kept| == |b.conns| {
      AllSurvive(b.conns, b.now, horizon, b.cfg.deadAfter);
    }
    assert ObserveTick(s, t).conns[k].life == s.conns[i].life;
  }

  /** Closed, reset or silent for longer than `deadAfter`, and last active before the window. */
  predicate Collectable(l: Life, now: u64, cfg: Config)
    requires cfg.retention.Evict?
  {
    && (l.phase.state == Closed || l.phase.state == Reset || l.traffic.lastAt + cfg.deadAfter < now)
    && l.traffic.lastAt + cfg.retention.horizon < now
  }

  ghost predicate IsTracked(s: TState, l: Life) { exists k :: 0 <= k < |s.conns| && s.conns[k].life == l }

  lemma CollectablePlainly(l: Life, now: u64, cfg: Config)
    requires cfg.retention.Evict?
    ensures Collectable(l, now, cfg) <==> !Survives(l, now, Horizon(now, cfg.retention.horizon), cfg.deadAfter)
  {}

  lemma TickKeepsExactly(s: TState, t: u64, l: Life)
    requires s.WF() && s.cfg.retention.Evict?
    ensures var now := if t > s.now then t else s.now;
            IsTracked(ObserveTick(s, t), l) <==> IsTracked(s, l) && !Collectable(l, now, s.cfg)
  {
    var b, r := BeforeCollection(s, t), ObserveTick(s, t);
    var h := Horizon(b.now, b.cfg.retention.horizon);
    TickLives(s, t);
    CollectablePlainly(l, b.now, s.cfg);
    if IsTracked(r, l) {
      var k :| 0 <= k < |r.conns| && r.conns[k].life == l;
      KeptSurvive(b, k);
      var i := KeptWas(b, k);
      assert Lives(s.conns)[i] == l;
    }
    if IsTracked(s, l) && !Collectable(l, b.now, s.cfg) {
      var i :| 0 <= i < |s.conns| && s.conns[i].life == l;
      SurvivorsAreKept(s, t, i);
    }
  }

  lemma KeptWas(b: TState, k: nat) returns (i: nat)
    requires b.WF() && b.cfg.retention.Evict? && k < |EvictDead(b).conns|
    ensures i < |b.conns| && b.conns[i].life == EvictDead(b).conns[k].life
  {
    var h := Horizon(b.now, b.cfg.retention.horizon);
    SurvivorsAreSubsequence(b.conns, b.now, h, b.cfg.deadAfter);
    i := if |Survivors(b.conns, b.now, h, b.cfg.deadAfter)| == |b.conns| then k
         else Origins(b.conns, b.now, h, b.cfg.deadAfter)[k];
  }

  /** What is tracked after a tick is what was tracked before it and cannot be collected: a
      connection goes exactly when it is closed, reset or silent for longer than `deadAfter`, and
      was last active before the retention window. */
  lemma TickCollectsExactly(cfg: Config, items: seq<Item>, t: u64, l: Life)
    requires cfg.retention.Evict?
    ensures var now := if t > Run(cfg, items).now then t else Run(cfg, items).now;
            IsTracked(Run(cfg, items + [Tick(t)]), l) <==> IsTracked(Run(cfg, items), l) && !Collectable(l, now, cfg)
  {
    assert (items + [Tick(t)])[..|items|] == items;
    RunKeepsConfig(cfg, items);
    TickKeepsExactly(Run(cfg, items), t, l);
  }

  // ---------------------------------------------------------------------------- spans

  lemma {:induction false} LastActivityIsLatest(conns: seq<T.ConnSeries>, i: nat)
    requires i < |conns|
    ensures conns[i].conn.traffic.lastAt <= T.LastActivity(conns)
  {
    if i < |conns| - 1 {
      LastActivityIsLatest(conns[..|conns| - 1], i);
    }
  }

  /** No life is active before it opens or after `now`. */
  ghost predicate Clocked(lives: seq<Life>, now: u64) {
    forall i | 0 <= i < |lives| :: lives[i].ident.openedAt <= lives[i].traffic.lastAt <= now
  }

  lemma SegmentClocked(s: TState, seg: Segment)
    requires s.WF() && Clocked(Lives(s.conns), s.now) && seg.ts <= s.now
    ensures var r := EvictSamples(ObserveSegment(s, seg)); Clocked(Lives(r.conns), r.now)
  {
    SegmentLives(s, seg);
  }

  lemma TickClocked(s: TState, t: u64)
    requires s.WF() && Clocked(Lives(s.conns), s.now)
    ensures Clocked(Lives(ObserveTick(s, t).conns), ObserveTick(s, t).now)
  {
    if s.cfg.retention.Evict? {
      TickLives(s, t);
      var b := BeforeCollection(s, t);
      var horizon := Horizon(b.now, b.cfg.retention.horizon);
      SurvivorsAreSubsequence(b.conns, b.now, horizon, b.cfg.deadAfter);
      SubsequenceClocked(b.conns, ObserveTick(s, t).conns, Origins(b.conns, b.now, horizon, b.cfg.deadAfter), b.now);
    }
  }

  lemma SubsequenceClocked(conns: seq<Conn>, kept: seq<Conn>, from: seq<nat>, now: u64)
    requires kept == conns ||
             (|from| == |kept| && forall i | 0 <= i < |from| :: from[i] < |conns| && kept[i] == conns[from[i]])
    requires Clocked(Lives(conns), now)
    ensures Clocked(Lives(kept), now)
  {
    forall i | 0 <= i < |kept|
      ensures kept[i].life.ident.openedAt <= kept[i].life.traffic.lastAt <= now
    {
      var l := Lives(conns)[if kept == conns then i else from[i]];
      assert kept[i].life == l;
    }
  }

  lemma {:induction false} RunClocked(cfg: Config, items: seq<Item>)
    ensures Clocked(Lives(Run(cfg, items).conns), Run(cfg, items).now)
  {
    if |items| > 0 {
      var s := Run(cfg, items[..|items| - 1]);
      RunClocked(cfg, items[..|items| - 1]);
      match items[|items| - 1]
      case Seg(seg) =>
        var s1 := s.(now := Max(s.now, seg.ts));
        assert Clocked(Lives(s1.conns), s1.now);
        SegmentClocked(s1, seg);
      case Tick(t) => TickClocked(s, t);
    }
  }

  lemma {:induction false} SpanIsOwn(entries: seq<T.Entry>, i: nat)
    requires i < |entries|
    requires DistinctEntries(entries)
    ensures T.XSpanIn(entries, entries[i].conn.ident.id) ==
            Some((entries[i].conn.ident.openedAt, entries[i].effectiveEnd))
  {
    if i > 0 {
      assert entries[0].conn.ident.id != entries[i].conn.ident.id;
      SpanIsOwn(entries[1..], i - 1);
    }
  }

  /** The timeline's span of a connection's id is that connection's own, from its opening to
      its last activity when it has ended and to the timeline's end otherwise, and is never
      inverted. */
  ghost predicate OwnOrderedSpan(tl: T.Timeline, l: Life) {
    var end := T.EffectiveEnd(l, tl.end);
    T.XSpan(tl, l.ident.id) == Some((l.ident.openedAt, end)) && l.ident.openedAt <= end
  }

  lemma EntriesAreDistinct(cfg: Config, items: seq<Item>, entries: seq<T.Entry>)
    requires |entries| == |Run(cfg, items).conns|
    requires forall i | 0 <= i < |entries| :: entries[i].conn == Run(cfg, items).conns[i].life
    ensures DistinctEntries(entries)
  {
    forall j, k | 0 <= j < k < |entries|
      ensures entries[j].conn.ident.id != entries[k].conn.ident.id
    {
      IdsAreDistinct(cfg, items, j, k);
    }
  }

  lemma TimelineSpans(cfg: Config, items: seq<Item>, end: u64, i: nat)
    requires i < |Run(cfg, items).conns|
    requires Run(cfg, items).conns[i].life.traffic.lastAt <= end
    ensures OwnOrderedSpan(T.TimelineOf(SeriesOfAll(Run(cfg, items).conns), end), Run(cfg, items).conns[i].life)
  {
    var s := Run(cfg, items);
    var tl := T.TimelineOf(SeriesOfAll(s.conns), end);
    EntriesAreDistinct(cfg, items, tl.entries);
    SpanIsOwn(tl.entries, i);
    RunClocked(cfg, items);
    var l := Lives(s.conns)[i];
    assert l.ident.openedAt <= l.traffic.lastAt;
  }

  /** In every reachable state the live timeline, and the finished one when there is one, give
      each tracked connection its own span, in order: what the plots' clamping needs. */
  lemma SpansAreOrdered(cfg: Config, items: seq<Item>, i: nat)
    requires i < |Run(cfg, items).conns|
    ensures var s := Run(cfg, items);
            && OwnOrderedSpan(Snapshot(s), s.conns[i].life)
            && (!s.overflowed ==> OwnOrderedSpan(IntoTimeline(s).timeline, s.conns[i].life))
  {
    var s := Run(cfg, items);
    RunClocked(cfg, items);
    var l := Lives(s.conns)[i];
    assert l.traffic.lastAt <= s.now;
    TimelineSpans(cfg, items, s.now, i);
    LastActivityIsLatest(SeriesOfAll(s.conns), i);
    TimelineSpans(cfg, items, T.LastActivity(SeriesOfAll(s.conns)), i);
  }
}
