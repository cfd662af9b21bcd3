/** Seeking is re-running: resolving the finished timeline at a cursor time gives what a
    tracker fed only the segments up to that time would hold. */
module Seek {
  import opened Core
  import opened Lifecycle
  import opened TrackerSpec
  import opened TrackerLives
  import opened Recording
  import opened Ceiling
  import opened Eviction
  import opened RetentionByTime
  import Chronology
  import opened StateSeries
  import T = Timeline

  function SeriesOf(c: Conn): T.ConnSeries {
    T.ConnSeries(c.life, c.hist[STATES], c.hist[SEQPOINTS], c.hist[INFLIGHT], c.hist[RTTS], c.hist[THROUGHPUT])
  }

  function SeriesOfAll(conns: seq<Conn>): (r: seq<T.ConnSeries>)
    ensures |r| == |conns| && forall i | 0 <= i < |r| :: r[i] == SeriesOf(conns[i])
  {
    seq(|conns|, i requires 0 <= i < |conns| => SeriesOf(conns[i]))
  }

  datatype Outcome = Ready(timeline: T.Timeline) | SampleCeiling(samples: nat, limit: nat)

  /** The finished replay timeline, unless collection failed. */
  function IntoTimeline(s: TState): Outcome {
    if s.overflowed then SampleCeiling(s.collected + 1, s.cfg.retention.MaxSamples())
    else Ready(T.TimelineOf(SeriesOfAll(s.conns), T.LastActivity(SeriesOfAll(s.conns))))
  }

  // --------------------------------------------------------------- resolving one entry

  /** On sorted samples bisection finds the last one not later than `t`. */
  lemma LastSampleFound(e: T.Entry, t: u64, k: nat)
    requires Sorted(e.samples) && 0 < k <= |e.samples|
    requires e.samples[k - 1].t <= t && (k < |e.samples| ==> e.samples[k].t > t)
    ensures T.LastSampleAt(e, t) == Some(e.samples[k - 1])
  {
    var p := (s: Sample) => s.t <= t;
    T.PartitionPointSplits(e.samples, p, 0, |e.samples|);
    assert p(e.samples[k - 1]) && (k < |e.samples| ==> !p(e.samples[k]));
  }

  function AsOfLife(l: Life): T.AsOf {
    T.AsOf(l.ident.id, l.phase.state, l.traffic.bytesO2R, l.traffic.bytesR2O)
  }

  // ----------------------------------------------------- the run after the cursor time

  /** `h` is `g` with only later samples added. */
  ghost predicate ExtendsAfter(h: seq<Sample>, g: seq<Sample>, t: u64) {
    && |g| <= |h|
    && (forall j | 0 <= j < |g| :: h[j] == g[j])
    && (forall j | |g| <= j < |h| :: h[j].t > t)
  }

  /** `f` has grown from `p` by segments later than `t` only. */
  ghost predicate GrownAfter(p: TState, f: TState, t: u64) {
    && |p.conns| <= |f.conns|
    && (forall i | 0 <= i < |p.conns| ::
          f.conns[i].life.ident == p.conns[i].life.ident &&
          ExtendsAfter(f.conns[i].hist[STATES], p.conns[i].hist[STATES], t))
    && (forall i | |p.conns| <= i < |f.conns| :: f.conns[i].life.ident.openedAt > t)
  }

  lemma SegmentAppendsState(s: TState, seg: Segment)
    requires s.WF() && s.cfg.retention.FailFast? && s.cfg.collectState && !s.overflowed
    requires !ObserveSegment(s, seg).overflowed
    ensures var p, r, idx := Placed(s, seg), ObserveSegment(s, seg), Target(s, seg);
            && OthersStand(s, r, idx)
            && r.conns[idx].life == p.conns[idx].life
            && r.conns[idx].hist[STATES] == StatesOf(s, idx) + [p.conns[idx].life.Snapshot(seg.ts)]
  {
    var p, idx, xs := Placed(s, seg), Target(s, seg), Produced(s, seg);
    ObserveSegmentIsPut(s, seg);
    ProducesOneState(s, seg);
    PlacedOpened(s, seg);
    PlacedRecordsNothing(s, seg);
    PushAllAppends(p, idx, xs);
    PutMoves(s, p, PushAll(p, idx, xs), idx);
  }

  lemma PlacedIdentity(s: TState, seg: Segment)
    requires s.WF()
    ensures var idx := Target(s, seg);
            var ident := Placed(s, seg).conns[idx].life.ident;
            if idx < |s.conns| then ident == s.conns[idx].life.ident else ident.openedAt == seg.ts
  {
  }

  lemma GrowthStep(p: TState, s: TState, r: TState, idx: nat, x: Sample, t: u64)
    requires GrownAfter(p, s, t) && OthersStand(s, r, idx) && x.t > t
    requires r.conns[idx].hist[STATES] == StatesOf(s, idx) + [x]
    requires if idx < |s.conns| then r.conns[idx].life.ident == s.conns[idx].life.ident
             else r.conns[idx].life.ident.openedAt > t
    ensures GrownAfter(p, r, t)
  {
    forall i | 0 <= i < |p.conns|
      ensures ExtendsAfter(r.conns[i].hist[STATES], p.conns[i].hist[STATES], t)
    {
      assert ExtendsAfter(s.conns[i].hist[STATES], p.conns[i].hist[STATES], t);
    }
  }

  lemma SegmentGrowsAfter(p: TState, s: TState, seg: Segment, t: u64)
    requires s.WF() && s.cfg.retention.FailFast? && s.cfg.collectState && !s.overflowed
    requires !ObserveSegment(s, seg).overflowed && GrownAfter(p, s, t) && seg.ts > t
    ensures GrownAfter(p, ObserveSegment(s, seg), t)
  {
    SegmentAppendsState(s, seg);
    PlacedIdentity(s, seg);
    GrowthStep(p, s, ObserveSegment(s, seg), Target(s, seg),
               Placed(s, seg).conns[Target(s, seg)].life.Snapshot(seg.ts), t);
  }

  /** Segments after `t` only add connections and samples after `t`. */
  lemma {:induction false} RunGrows(cfg: Config, items: seq<Item>, n: nat, t: u64)
    requires SegmentsOnly(items) && n <= |items|
    requires cfg.retention.FailFast? && cfg.collectState && !Run(cfg, items).overflowed
    requires forall i | n <= i < |items| :: items[i].seg.ts > t
    ensures GrownAfter(Run(cfg, items[..n]), Run(cfg, items), t)
    ensures !Run(cfg, items[..n]).overflowed
  {
    if n == |items| {
      assert items[..n] == items;
    } else {
      var pre := items[..|items| - 1];
      LastFailFast(cfg, items);
      assert pre[..n] == items[..n];
      RunGrows(cfg, pre, n, t);
      LastGrows(Run(cfg, items[..n]), cfg, items, t);
    }
  }

  lemma LastGrows(p: TState, cfg: Config, items: seq<Item>, t: u64)
    requires |items| > 0 && SegmentsOnly(items) && items[|items| - 1].seg.ts > t
    requires cfg.retention.FailFast? && cfg.collectState && !Run(cfg, items).overflowed
    requires GrownAfter(p, Run(cfg, items[..|items| - 1]), t)
    ensures GrownAfter(p, Run(cfg, items), t)
  {
    LastFailFast(cfg, items);
    SegmentGrowsAfter(p, BeforeLast(cfg, items), items[|items| - 1].seg, t);
  }

  lemma StepUpToDate(s: TState, seg: Segment)
    requires s.WF() && s.cfg.collectState && AllResolvable(s) && AllUpToDate(s, seg.ts)
    requires !ObserveSegment(s.(now := Max(s.now, seg.ts)), seg).overflowed
    ensures AllResolvable(Step(s, Seg(seg))) && AllUpToDate(Step(s, Seg(seg)), seg.ts)
  {
    var s1 := s.(now := Max(s.now, seg.ts));
    assert AllResolvable(s1) && AllUpToDate(s1, seg.ts);
    SegmentKeepsStates(s1, seg, seg.ts);
  }

  /** In-order replay keeps every state series ordered and up to date. */
  lemma {:induction false} ReplayUpToDate(cfg: Config, items: seq<Item>, latest: u64)
    requires OrderedSegments(items) && cfg.retention.FailFast? && cfg.collectState && !Run(cfg, items).overflowed
    requires forall i | 0 <= i < |items| :: items[i].seg.ts <= latest
    ensures AllResolvable(Run(cfg, items)) && AllUpToDate(Run(cfg, items), latest)
  {
    if |items| > 0 {
      var n := |items| - 1;
      LastFailFast(cfg, items);
      ReplayUpToDate(cfg, items[..n], items[n].seg.ts);
      StepUpToDate(Run(cfg, items[..n]), items[n].seg);
      LaterKeepsUpToDate(Run(cfg, items), items[n].seg.ts, latest);
    }
  }

  lemma LaterKeepsUpToDate(s: TState, latest: u64, later: u64)
    requires AllUpToDate(s, latest) && latest <= later
    ensures AllUpToDate(s, later)
  {
    forall i | 0 <= i < |s.conns|
      ensures UpToDate(s.conns[i], later)
    {
      UpToDateLater(s.conns[i], latest, later);
    }
  }

  // ---------------------------------------------------------------------- the theorem

  /** The part of the stream heard by time `t`. */
  function HeardBy(items: seq<Item>, t: u64): seq<Item> {
    if |items| == 0 then []
    else
      var x := items[|items| - 1];
      HeardBy(items[..|items| - 1], t) + if x.Seg? && x.seg.ts <= t then [x] else []
  }

  lemma {:induction false} AllHeard(items: seq<Item>, t: u64)
    requires forall i | 0 <= i < |items| :: items[i].Seg? && items[i].seg.ts <= t
    ensures HeardBy(items, t) == items
  {
    if |items| > 0 {
      var init, last := items[..|items| - 1], items[|items| - 1];
      assert items == init + [last] && last.Seg? && last.seg.ts <= t;
      AllHeard(init, t);
    }
  }

  lemma OrderedSplits(items: seq<Item>)
    requires OrderedSegments(items) && |items| > 0
    ensures OrderedSegments(items[..|items| - 1])
    ensures forall i | 0 <= i < |items| :: items[i].seg.ts <= items[|items| - 1].seg.ts
  {
  }

  lemma NotHeardLast(items: seq<Item>, t: u64)
    requires |items| > 0 && items[|items| - 1].Seg? && items[|items| - 1].seg.ts > t
    ensures HeardBy(items, t) == HeardBy(items[..|items| - 1], t)
  {
  }

  lemma PrefixOfMore(items: seq<Item>, n: nat, t: u64)
    requires SegmentsOnly(items) && n < |items| && items[|items| - 1].seg.ts > t
    requires var pre := items[..|items| - 1];
             (forall i | 0 <= i < n :: pre[i].seg.ts <= t) && forall i | n <= i < |pre| :: pre[i].seg.ts > t
    ensures items[..|items| - 1][..n] == items[..n]
    ensures (forall i | 0 <= i < n :: items[i].seg.ts <= t) && forall i | n <= i < |items| :: items[i].seg.ts > t
  {
    var pre := items[..|items| - 1];
    assert forall i | 0 <= i < |pre| :: pre[i] == items[i];
  }

  /** On an in-order stream what is heard by `t` is a prefix. */
  lemma {:induction false} HeardIsPrefix(items: seq<Item>, t: u64) returns (n: nat)
    requires OrderedSegments(items)
    ensures n <= |items| && HeardBy(items, t) == items[..n]
    ensures forall i | 0 <= i < n :: items[i].seg.ts <= t
    ensures forall i | n <= i < |items| :: items[i].seg.ts > t
  {
    n := |items|;
    if |items| > 0 {
      OrderedSplits(items);
      if items[n - 1].seg.ts > t {
        var pre := items[..n - 1];
        NotHeardLast(items, t);
        n := HeardIsPrefix(pre, t);
        PrefixOfMore(items, n, t);
      } else {
        AllHeard(items, t);
      }
    }
  }

  /** What the prefix tracker `p` holds, of the connections whose interval in the finished
      run `f` reaches `t`. */
  function PrefixView(p: seq<Conn>, f: seq<Conn>, end: u64, t: u64): seq<T.AsOf>
    requires |p| <= |f|
  {
    if |p| == 0 then []
    else
      var i := |p| - 1;
      PrefixView(p[..i], f, end, t) +
      if t <= T.EffectiveEnd(f[i].life, end) then [AsOfLife(p[i].life)] else []
  }

  lemma CursorFinds(e: T.Entry, g: seq<Sample>, t: u64)
    requires Sorted(e.samples) && |g| > 0 && g[|g| - 1].t <= t && ExtendsAfter(e.samples, g, t)
    ensures T.LastSampleAt(e, t) == Some(g[|g| - 1])
  {
    LastSampleFound(e, t, |g|);
  }

  lemma EntryResolvesAs(e: T.Entry, g: seq<Sample>, l: Life, t: u64)
    requires Sorted(e.samples) && |g| > 0 && ExtendsAfter(e.samples, g, t)
    requires g[|g| - 1] == l.Snapshot(g[|g| - 1].t) && g[|g| - 1].t <= t
    requires e.conn.ident == l.ident && l.ident.openedAt <= t
    ensures T.ResolveEntry(e, t) == if t <= e.effectiveEnd then [AsOfLife(l)] else []
  {
    CursorFinds(e, g, t);
  }

  lemma EntryResolves(c: Conn, was: Conn, end: u64, t: u64)
    requires UpToDate(was, t) && Sorted(c.hist[STATES])
    requires c.life.ident == was.life.ident && c.life.ident.openedAt <= t
    requires ExtendsAfter(c.hist[STATES], was.hist[STATES], t)
    ensures T.ResolveEntry(T.EntryOf(SeriesOf(c), end), t) ==
            if t <= T.EffectiveEnd(c.life, end) then [AsOfLife(was.life)] else []
  {
    T.SortedStaysPut(c.hist[STATES]);
    var e := T.EntryOf(SeriesOf(c), end);
    assert e.samples == c.hist[STATES] && e.conn == c.life;
    EntryResolvesAs(e, was.hist[STATES], was.life, t);
  }

  ghost predicate EntryGives(p: seq<Conn>, f: seq<Conn>, entries: seq<T.Entry>, end: u64, t: u64, i: nat)
    requires i < |f| == |entries|
  {
    T.ResolveEntry(entries[i], t) ==
      if i < |p| && t <= T.EffectiveEnd(f[i].life, end) then [AsOfLife(p[i].life)] else []
  }

  lemma EachEntryGives(p: TState, f: TState, end: u64, t: u64, i: nat)
    requires GrownAfter(p, f, t) && i < |f.conns|
    requires AllUpToDate(p, t) && AllResolvable(p) && p.now <= t
    requires Sorted(f.conns[i].hist[STATES])
    ensures EntryGives(p.conns, f.conns, T.Entries(SeriesOfAll(f.conns), end), end, t, i)
  {
    if i < |p.conns| {
      assert UpToDate(p.conns[i], t) && Resolvable(p.conns[i], p.now);
      EntryResolves(f.conns[i], p.conns[i], end, t);
    }
  }

  lemma {:induction false} EntriesGive(p: seq<Conn>, f: seq<Conn>, entries: seq<T.Entry>, end: u64, t: u64, n: nat)
    requires n <= |f| == |entries| && |p| <= |f|
    requires forall i | 0 <= i < |f| :: EntryGives(p, f, entries, end, t, i)
    ensures T.ResolveAt(entries[..n], t) == PrefixView(if n <= |p| then p[..n] else p, f, end, t)
  {
    if n > 0 {
      var i := n - 1;
      EntriesGive(p, f, entries, end, t, i);
      assert entries[..n][..i] == entries[..i];
      assert EntryGives(p, f, entries, end, t, i);
      if i < |p| {
        assert p[..n][..i] == p[..i];
      } else {
        assert p[..|p|] == p;
      }
    }
  }

  lemma GrownResolves(p: TState, f: TState, end: u64, t: u64)
    requires GrownAfter(p, f, t) && AllUpToDate(p, t) && AllResolvable(p) && p.now <= t
    requires forall i | 0 <= i < |f.conns| :: Sorted(f.conns[i].hist[STATES])
    ensures T.ResolveAt(T.Entries(SeriesOfAll(f.conns), end), t) == PrefixView(p.conns, f.conns, end, t)
  {
    var entries := T.Entries(SeriesOfAll(f.conns), end);
    forall i | 0 <= i < |f.conns|
      ensures EntryGives(p.conns, f.conns, entries, end, t, i)
    {
      EachEntryGives(p, f, end, t, i);
    }
    AllEntriesGive(p.conns, f.conns, entries, end, t);
  }

  lemma AllEntriesGive(p: seq<Conn>, f: seq<Conn>, entries: seq<T.Entry>, end: u64, t: u64)
    requires |f| == |entries| && |p| <= |f|
    requires forall i | 0 <= i < |f| :: EntryGives(p, f, entries, end, t, i)
    ensures T.ResolveAt(entries, t) == PrefixView(p, f, end, t)
  {
    EntriesGive(p, f, entries, end, t, |f|);
    assert entries[..|f|] == entries && p[..|p|] == p;
  }

  /** The finished run and the run heard by `t`, as far as resolving needs them. */
  lemma HeardIsGrownFrom(cfg: Config, items: seq<Item>, t: u64)
    requires OrderedSegments(items) && cfg.retention.FailFast? && cfg.collectState && !Run(cfg, items).overflowed
    ensures var p := Run(cfg, HeardBy(items, t));
            GrownAfter(p, Run(cfg, items), t) && AllUpToDate(p, t) && AllResolvable(p) && p.now <= t
  {
    var n := HeardIsPrefix(items, t);
    RunGrows(cfg, items, n, t);
    ReplayUpToDate(cfg, items[..n], t);
    Chronology.ClockIsLatest(cfg, items[..n], t);
  }

  /** Seeking equals re-running.  On an in-order segment stream with state collection on
      that does not meet the ceiling, resolving the finished timeline at any `t` lists
      exactly the connections a tracker fed only the segments up to `t` would hold and
      whose effective end is not before `t`, in the same order, each with the state and
      byte counts of that prefix run. */
  lemma SeekingIsReRunning(cfg: Config, items: seq<Item>, t: u64)
    requires OrderedSegments(items) && cfg.retention.FailFast? && cfg.collectState && !Run(cfg, items).overflowed
    ensures |Run(cfg, HeardBy(items, t)).conns| <= |Run(cfg, items).conns|
    ensures var tl := IntoTimeline(Run(cfg, items)).timeline;
            T.ResolveAt(tl.entries, t) ==
            PrefixView(Run(cfg, HeardBy(items, t)).conns, Run(cfg, items).conns, tl.end, t)
  {
    HeardIsGrownFrom(cfg, items, t);
    ReplayUpToDate(cfg, items, U64_MAX);
    var f := Run(cfg, items);
    SortedStates(f, U64_MAX);
    GrownResolves(Run(cfg, HeardBy(items, t)), f, IntoTimeline(f).timeline.end, t);
  }

  lemma SortedStates(s: TState, latest: u64)
    requires AllUpToDate(s, latest)
    ensures forall i | 0 <= i < |s.conns| :: Sorted(s.conns[i].hist[STATES])
  {
    forall i | 0 <= i < |s.conns|
      ensures Sorted(s.conns[i].hist[STATES])
    {
      assert UpToDate(s.conns[i], latest);
    }
  }

  // ---------------------------------------------------------------- the axis of a replay

  /** `x` is the time of some segment of the stream. */
  ghost predicate IsSegmentTime(items: seq<Item>, x: u64) {
    exists i :: 0 <= i < |items| && items[i].Seg? && items[i].seg.ts == x
  }

  ghost predicate HasStateAt(s: TState, x: u64) {
    exists i, j :: 0 <= i < |s.conns| && 0 <= j < |s.conns[i].hist[STATES]| && s.conns[i].hist[STATES][j].t == x
  }

  lemma StateTimesStep(s: TState, r: TState, idx: nat, state: Sample, x: u64)
    requires OthersStand(s, r, idx) && r.conns[idx].hist[STATES] == StatesOf(s, idx) + [state]
    ensures HasStateAt(r, x) <==> HasStateAt(s, x) || state.t == x
  {
    if HasStateAt(s, x) {
      var i, j :| 0 <= i < |s.conns| && 0 <= j < |s.conns[i].hist[STATES]| && s.conns[i].hist[STATES][j].t == x;
      assert r.conns[i].hist[STATES][j].t == x;
    }
    assert r.conns[idx].hist[STATES][|StatesOf(s, idx)|] == state;
    if HasStateAt(r, x) {
      var i, j :| 0 <= i < |r.conns| && 0 <= j < |r.conns[i].hist[STATES]| && r.conns[i].hist[STATES][j].t == x;
      if i != idx || j < |StatesOf(s, idx)| {
        assert s.conns[i].hist[STATES][j].t == x;
      }
    }
  }

  lemma SegmentTimesStep(items: seq<Item>, x: u64)
    requires |items| > 0 && items[|items| - 1].Seg?
    ensures IsSegmentTime(items, x) <==>
            IsSegmentTime(items[..|items| - 1], x) || items[|items| - 1].seg.ts == x
  {
    var n := |items| - 1;
    if IsSegmentTime(items[..n], x) {
      var i :| 0 <= i < n && items[..n][i].Seg? && items[..n][i].seg.ts == x;
      assert items[i].seg.ts == x;
    }
    assert forall i | 0 <= i < n :: items[..n][i] == items[i];
  }

  /** A replay records a state at the time of every segment, and at no other. */
  lemma {:induction false} StateTimesAreSegmentTimes(cfg: Config, items: seq<Item>, x: u64)
    requires SegmentsOnly(items) && cfg.retention.FailFast? && cfg.collectState && !Run(cfg, items).overflowed
    ensures HasStateAt(Run(cfg, items), x) <==> IsSegmentTime(items, x)
  {
    if |items| > 0 {
      var n := |items| - 1;
      var s, seg := BeforeLast(cfg, items), items[n].seg;
      LastFailFast(cfg, items);
      StateTimesAreSegmentTimes(cfg, items[..n], x);
      SegmentAppendsState(s, seg);
      StateTimesStep(s, ObserveSegment(s, seg), Target(s, seg),
                     Placed(s, seg).conns[Target(s, seg)].life.Snapshot(seg.ts), x);
      SegmentTimesStep(items, x);
    }
  }

  lemma EventsAreStateTimes(s: TState, x: u64)
    ensures T.IsEvent(SeriesOfAll(s.conns), x) <==> HasStateAt(s, x)
  {
    var conns := SeriesOfAll(s.conns);
    if T.IsEvent(conns, x) {
      var i, j :| 0 <= i < |conns| && 0 <= j < |conns[i].states| && conns[i].states[j].t == x;
      assert s.conns[i].hist[STATES][j].t == x;
    }
    if HasStateAt(s, x) {
      var i, j :| 0 <= i < |s.conns| && 0 <= j < |s.conns[i].hist[STATES]| && s.conns[i].hist[STATES][j].t == x;
      assert conns[i].states[j].t == x;
    }
  }

  /** `t` is the latest activity of any life, or zero when there is none. */
  ghost predicate LatestActivity(lives: seq<Life>, t: u64) {
    && (forall i | 0 <= i < |lives| :: lives[i].traffic.lastAt <= t)
    && if |lives| == 0 then t == 0 else exists i :: 0 <= i < |lives| && lives[i].traffic.lastAt == t
  }

  lemma {:induction false} EndIsLatestActivity(conns: seq<T.ConnSeries>, lives: seq<Life>)
    requires |conns| == |lives| && forall i | 0 <= i < |conns| :: conns[i].conn == lives[i]
    ensures LatestActivity(lives, T.LastActivity(conns))
  {
    if |conns| > 0 {
      var n := |conns| - 1;
      EndIsLatestActivity(conns[..n], lives[..n]);
      LatestOfMore(lives[..n], lives[n], T.LastActivity(conns[..n]));
      assert lives == lives[..n] + [lives[n]];
    }
  }

  lemma LatestOfMore(lives: seq<Life>, l: Life, t: u64)
    requires LatestActivity(lives, t)
    ensures LatestActivity(lives + [l], Max(t, l.traffic.lastAt))
  {
    var all := lives + [l];
    assert all[|lives|] == l;
    if t > l.traffic.lastAt {
      var i :| 0 <= i < |lives| && lives[i].traffic.lastAt == t;
      assert all[i].traffic.lastAt == t;
    }
  }

  lemma LatestOfLater(lives: seq<Life>, i: nat, l: Life, ts: u64, t: u64)
    requires LatestActivity(lives, t) && i < |lives| && l.traffic.lastAt == Max(lives[i].traffic.lastAt, ts)
    ensures LatestActivity(lives[i := l], Max(t, ts))
  {
    var all := lives[i := l];
    var k :| 0 <= k < |lives| && lives[k].traffic.lastAt == t;
    assert all[i] == l && (k != i ==> all[k] == lives[k]);
  }

  /** `t` is the time of the latest segment, or zero when there is none. */
  ghost predicate LastSegment(items: seq<Item>, t: u64) {
    && (forall i | 0 <= i < |items| && items[i].Seg? :: items[i].seg.ts <= t)
    && if |items| == 0 then t == 0 else IsSegmentTime(items, t)
  }

  lemma LastSegmentStep(items: seq<Item>, was: u64)
    requires |items| > 0 && items[|items| - 1].Seg? && LastSegment(items[..|items| - 1], was)
    ensures LastSegment(items, Max(was, items[|items| - 1].seg.ts))
  {
    var n := |items| - 1;
    assert forall i | 0 <= i < n :: items[..n][i] == items[i];
    SegmentTimesStep(items, Max(was, items[n].seg.ts));
  }

  /** The latest activity is the time of the latest segment. */
  lemma {:induction false} ActivityIsLatestSegment(cfg: Config, items: seq<Item>, t: u64)
    requires SegmentsOnly(items) && cfg.retention.FailFast? && !Run(cfg, items).overflowed
    requires LatestActivity(Lives(Run(cfg, items).conns), t)
    ensures LastSegment(items, t)
  {
    if |items| > 0 {
      var n := |items| - 1;
      LastFailFast(cfg, items);
      var was := SomeLatest(BeforeLast(cfg, items));
      ActivityIsLatestSegment(cfg, items[..n], was);
      LatestStep(BeforeLast(cfg, items), items[n].seg, was, t);
      LastSegmentStep(items, was);
    }
  }

  lemma SomeLatest(s: TState) returns (t: u64)
    ensures LatestActivity(Lives(s.conns), t)
  {
    t := T.LastActivity(SeriesOfAll(s.conns));
    EndIsLatestActivity(SeriesOfAll(s.conns), Lives(s.conns));
  }

  lemma LatestStep(s: TState, seg: Segment, was: u64, t: u64)
    requires s.WF() && s.cfg.retention.FailFast?
    requires LatestActivity(Lives(s.conns), was) && LatestActivity(Lives(ObserveSegment(s, seg).conns), t)
    ensures t == Max(was, seg.ts)
  {
    SegmentLives(s, seg);
    assert ObserveSegment(s, seg).cfg == s.cfg;
    var after := Lives(ObserveSegment(s, seg).conns);
    if Joins(s, seg) {
      var i := s.live[seg.Pair()];
      var l := Lives(s.conns)[i];
      LatestOfLater(Lives(s.conns), i, l.Join(seg), seg.ts, was);
    } else {
      LatestOfMore(Lives(s.conns), Opening(s, seg), was);
    }
    OneLatest(after, t, Max(was, seg.ts));
  }

  lemma OneLatest(lives: seq<Life>, t: u64, u: u64)
    requires LatestActivity(lives, t) && LatestActivity(lives, u)
    ensures t == u
  {}

  /** The time axis of a replay: its events are the times of the segments, and it runs from the
      first of them to the last. */
  ghost predicate SpansStream(tl: T.Timeline, items: seq<Item>) {
    && (forall x: u64 :: x in tl.eventTimes <==> IsSegmentTime(items, x))
    && (forall x: u64 | IsSegmentTime(items, x) :: tl.start <= x <= tl.end)
    && if |items| == 0 then tl.start == tl.end == 0 else IsSegmentTime(items, tl.start) && IsSegmentTime(items, tl.end)
  }

  lemma AxisOfReplay(cfg: Config, items: seq<Item>)
    requires SegmentsOnly(items) && cfg.retention.FailFast? && cfg.collectState && !Run(cfg, items).overflowed
    ensures IntoTimeline(Run(cfg, items)).Ready? && SpansStream(IntoTimeline(Run(cfg, items)).timeline, items)
  {
    var s := Run(cfg, items);
    var conns := SeriesOfAll(s.conns);
    forall x: u64
      ensures T.IsEvent(conns, x) <==> IsSegmentTime(items, x)
    {
      EventsAreStateTimes(s, x);
      StateTimesAreSegmentTimes(cfg, items, x);
    }
    EndIsLatestActivity(conns, Lives(s.conns));
    ActivityIsLatestSegment(cfg, items, T.LastActivity(conns));
    AxisSpans(conns, items);
  }

  lemma AxisSpans(conns: seq<T.ConnSeries>, items: seq<Item>)
    requires SegmentsOnly(items) && forall x: u64 :: T.IsEvent(conns, x) <==> IsSegmentTime(items, x)
    requires LastSegment(items, T.LastActivity(conns))
    ensures SpansStream(T.TimelineOf(conns, T.LastActivity(conns)), items)
  {
    T.EventIndexIsExact(conns, T.LastActivity(conns));
    T.StartIsFirstEvent(conns, T.LastActivity(conns));
  }
}
