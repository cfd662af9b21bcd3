/** What seeking shows when timestamps are not in order: of each connection, the view after the
    last of its segments among those with the greatest timestamp not after the cursor. */
module SeekAnyOrder {
  import opened Core
  import opened Lifecycle
  import opened TrackerSpec
  import opened TrackerLives
  import opened Recording
  import opened Eviction
  import opened Attribution
  import opened DerivedSeries
  import opened SeriesFolds
  import opened Seek
  import StateSeries
  import T = Timeline

  // ------------------------------------------------------------- sorting, then bisecting

  /** Index `k` is the last of those with the greatest time not after `t`. */
  ghost predicate IsPick(ts: seq<u64>, t: u64, k: nat) {
    && k < |ts| && ts[k] <= t
    && forall j | 0 <= j < |ts| && ts[j] <= t :: ts[j] < ts[k] || (ts[j] == ts[k] && j <= k)
  }

  function Pick(ts: seq<u64>, t: u64): (r: Option<nat>)
    ensures r.Some? ==> r.value < |ts|
  {
    if |ts| == 0 then None
    else
      var k := Pick(ts[..|ts| - 1], t);
      var last := ts[|ts| - 1];
      if last <= t && (k.Some? ==> ts[k.value] <= last) then Some(|ts| - 1) else k
  }

  lemma {:induction false} PickPicks(ts: seq<u64>, t: u64)
    ensures Pick(ts, t).Some? <==> exists j :: 0 <= j < |ts| && ts[j] <= t
    ensures Pick(ts, t).Some? ==> IsPick(ts, t, Pick(ts, t).value)
  {
    if |ts| > 0 {
      PickPicks(ts[..|ts| - 1], t);
    }
  }

  lemma {:induction false} LastOfAt(xs: seq<Sample>, m: u64, k: nat)
    requires k < |xs| && xs[k].t == m && forall j | k < j < |xs| :: xs[j].t != m
    ensures var at := T.At(xs, m); |at| > 0 && at[|at| - 1] == xs[k]
  {
    if k < |xs| - 1 {
      LastOfAt(xs[..|xs| - 1], m, k);
    }
  }

  ghost predicate SameElements(xs: seq<Sample>, ys: seq<Sample>) {
    (forall x | x in xs :: x in ys) && (forall x | x in ys :: x in xs)
  }

  lemma SortedHas(xs: seq<Sample>)
    ensures Sorted(T.SortByTime(xs)) && SameElements(xs, T.SortByTime(xs))
  {
    T.SortSorts(xs);
    forall x | x in xs
      ensures x in T.SortByTime(xs)
    {
      assert x in multiset(T.SortByTime(xs));
    }
    forall x | x in T.SortByTime(xs)
      ensures x in xs
    {
      assert x in multiset(xs);
    }
  }

  /** The first `p` of `ys` are those not after `t`. */
  ghost predicate SplitsAt(ys: seq<Sample>, t: u64, p: nat) {
    p <= |ys| && (forall i | 0 <= i < p :: ys[i].t <= t) && (forall i | p <= i < |ys| :: ys[i].t > t)
  }

  /** The last of them has the greatest time. */
  lemma GreatestIsLast(xs: seq<Sample>, ys: seq<Sample>, t: u64, k: nat, p: nat)
    requires Sorted(ys) && SplitsAt(ys, t, p) && IsPick(T.Times(xs), t, k)
    requires SameElements(xs, ys)
    ensures p > 0 && k < |xs| && ys[p - 1].t == xs[k].t
  {
    assert T.Times(xs)[k] == xs[k].t && xs[k] in ys;
    var i :| 0 <= i < |ys| && ys[i] == xs[k];
    assert i < p && xs[k].t <= ys[p - 1].t && ys[p - 1] in xs;
    var j :| 0 <= j < |xs| && xs[j] == ys[p - 1];
    assert T.Times(xs)[j] == ys[p - 1].t;
  }

  /** And among equal times the picked one comes last, where sorting keeps their order. */
  lemma LastIsPick(xs: seq<Sample>, ys: seq<Sample>, t: u64, k: nat, p: nat)
    requires SplitsAt(ys, t, p) && IsPick(T.Times(xs), t, k) && p > 0 && k < |xs| && ys[p - 1].t == xs[k].t
    requires T.At(ys, xs[k].t) == T.At(xs, xs[k].t)
    ensures ys[p - 1] == xs[k]
  {
    LastOfAt(ys, xs[k].t, p - 1);
    LaterDiffer(xs, t, k);
    LastOfAt(xs, xs[k].t, k);
  }

  /** Bisecting the sorted samples finds the picked one. */
  lemma PickIsFound(xs: seq<Sample>, t: u64, k: nat, p: nat)
    requires IsPick(T.Times(xs), t, k) && SplitsAt(T.SortByTime(xs), t, p)
    ensures p > 0 && k < |xs| && T.SortByTime(xs)[p - 1] == xs[k]
  {
    SortedHas(xs);
    GreatestIsLast(xs, T.SortByTime(xs), t, k, p);
    T.SortIsStable(xs, xs[k].t);
    LastIsPick(xs, T.SortByTime(xs), t, k, p);
  }

  lemma LaterDiffer(xs: seq<Sample>, t: u64, k: nat)
    requires IsPick(T.Times(xs), t, k)
    ensures k < |xs| && forall j | k < j < |xs| :: xs[j].t != xs[k].t
  {
    forall j | k < j < |xs|
      ensures xs[j].t != xs[k].t
    {
      assert T.Times(xs)[j] == xs[j].t;
    }
  }

  lemma LastSampleIsPick(e: T.Entry, xs: seq<Sample>, t: u64, k: nat)
    requires e.samples == T.SortByTime(xs) && IsPick(T.Times(xs), t, k)
    ensures k < |xs| && T.LastSampleAt(e, t) == Some(xs[k])
  {
    SortedHas(xs);
    var p := BisectionSplits(e.samples, t);
    PickIsFound(xs, t, k, p);
  }

  lemma BisectionSplits(ys: seq<Sample>, t: u64) returns (p: nat)
    requires Sorted(ys)
    ensures p == T.PartitionPoint(ys, (s: Sample) => s.t <= t, 0, |ys|) && SplitsAt(ys, t, p)
  {
    p := T.PartitionPoint(ys, (s: Sample) => s.t <= t, 0, |ys|);
    T.PartitionPointSplits(ys, (s: Sample) => s.t <= t, 0, |ys|);
  }

  // --------------------------------------------------------- the states a replay records

  function LogTimes(log: Log): (ts: seq<u64>)
    ensures |ts| == |log|
  {
    seq(|log|, i requires 0 <= i < |log| => log[i].ts)
  }

  /** The life of an instance after segment `n` of its log. */
  function LifeAfter(id: ConnId, log: Log, n: nat): Life
    requires n < |log|
  {
    LifeRun(id, log[..n + 1])
  }

  /** One snapshot for each segment, of the life it led to. */
  ghost predicate AreSnapshots(xs: seq<Sample>, id: ConnId, log: Log) {
    |xs| == |log| && forall j | 0 <= j < |log| :: xs[j] == LifeAfter(id, log, j).Snapshot(log[j].ts)
  }

  lemma YieldsOneState(id: ConnId, log: Log, cfg: Config)
    requires |log| > 0 && cfg.collectState
    ensures Of(Yield(id, log, cfg), STATES) == [LifeRun(id, log).Snapshot(log[|log| - 1].ts)]
  {
    var d, o := BeforeLastDeriv(id, log, cfg), LastObs(id, log);
    var derived := Derived(d, id, o.seg, o.dir, cfg);
    StateSeries.OneAmongNone(Tagged(STATES, LifeRun(id, log).Snapshot(o.seg.ts)), derived, d, id, o.seg, o.dir, cfg);
  }

  lemma LifeAfterPrefix(id: ConnId, log: Log, n: nat, j: nat)
    requires j < n <= |log|
    ensures LifeAfter(id, log[..n], j) == LifeAfter(id, log, j) && log[..n][j] == log[j]
  {
    assert log[..n][..j + 1] == log[..j + 1];
  }

  lemma SnapshotsGoOn(xs: seq<Sample>, id: ConnId, log: Log)
    requires |log| > 0 && AreSnapshots(xs, id, log[..|log| - 1])
    ensures AreSnapshots(xs + [LifeRun(id, log).Snapshot(log[|log| - 1].ts)], id, log)
  {
    var n := |log| - 1;
    var x := LifeRun(id, log).Snapshot(log[n].ts);
    assert log[..n + 1] == log;
    forall j | 0 <= j < |log|
      ensures (xs + [x])[j] == LifeAfter(id, log, j).Snapshot(log[j].ts)
    {
      if j < n {
        LifeAfterPrefix(id, log, n, j);
      }
    }
  }

  lemma {:induction false} RecordedAreSnapshots(id: ConnId, log: Log, cfg: Config)
    requires |log| > 0 && cfg.collectState
    ensures AreSnapshots(HistRun(id, log, cfg)[STATES], id, log)
  {
    if |log| > 1 {
      RecordedAreSnapshots(id, log[..|log| - 1], cfg);
    }
    AppendedAt(BeforeLastHist(id, log, cfg), Yield(id, log, cfg), STATES);
    YieldsOneState(id, log, cfg);
    SnapshotsGoOn(BeforeLastHist(id, log, cfg)[STATES], id, log);
  }

  // ------------------------------------------------------------------------ the theorem

  /** The snapshots of the segments of a log from number `from` on. */
  ghost predicate AreLastSnapshots(xs: seq<Sample>, id: ConnId, log: Log, from: nat) {
    && from + |xs| == |log|
    && forall j | 0 <= j < |xs| :: xs[j] == LifeAfter(id, log, from + j).Snapshot(log[from + j].ts)
  }

  /** The view of one connection at `t` by the segments of its log from number `from` on: while
      it is active, that after the picked one. */
  function ViewFrom(l: Life, log: Log, from: nat, end: u64, t: u64): seq<T.AsOf>
    requires from <= |log|
  {
    var k := Pick(LogTimes(log)[from..], t);
    if l.ident.openedAt <= t <= T.EffectiveEnd(l, end) && k.Some?
    then [AsOfLife(LifeAfter(l.ident.id, log, from + k.value))] else []
  }

  /** By its whole log. */
  function ViewAt(l: Life, log: Log, end: u64, t: u64): seq<T.AsOf> { ViewFrom(l, log, 0, end, t) }

  lemma SnapshotTimes(xs: seq<Sample>, id: ConnId, log: Log, from: nat)
    requires AreLastSnapshots(xs, id, log, from)
    ensures T.Times(xs) == LogTimes(log)[from..]
  {}

  lemma NoneIsFound(e: T.Entry, xs: seq<Sample>, t: u64)
    requires e.samples == T.SortByTime(xs) && forall j | 0 <= j < |xs| :: xs[j].t > t
    ensures T.LastSampleAt(e, t).None?
  {
    SortedHas(xs);
    var p := BisectionSplits(e.samples, t);
    if p > 0 {
      assert e.samples[p - 1] in xs;
    }
  }

  lemma EntryFinds(e: T.Entry, xs: seq<Sample>, t: u64)
    requires e.samples == T.SortByTime(xs)
    ensures var k := Pick(T.Times(xs), t);
            T.LastSampleAt(e, t) == if k.Some? then Some(xs[k.value]) else None
  {
    PickPicks(T.Times(xs), t);
    var k := Pick(T.Times(xs), t);
    if k.Some? {
      LastSampleIsPick(e, xs, t, k.value);
    } else {
      assert forall j | 0 <= j < |xs| :: T.Times(xs)[j] == xs[j].t;
      NoneIsFound(e, xs, t);
    }
  }

  /** An entry shows the life whose snapshot is found, while it is active. */
  lemma FoundShows(e: T.Entry, life: Life, ts: u64, t: u64)
    requires T.LastSampleAt(e, t) == Some(life.Snapshot(ts)) && life.ident.id == e.conn.ident.id
    ensures T.ResolveEntry(e, t) == if T.ActiveAt(e, t) then [AsOfLife(life)] else []
  {}

  lemma NothingShows(e: T.Entry, t: u64)
    requires T.LastSampleAt(e, t).None?
    ensures T.ResolveEntry(e, t) == []
  {}

  lemma EntryShowsFrom(e: T.Entry, xs: seq<Sample>, log: Log, from: nat, end: u64, t: u64)
    requires e.samples == T.SortByTime(xs) && AreLastSnapshots(xs, e.conn.ident.id, log, from)
    requires e.effectiveEnd == T.EffectiveEnd(e.conn, end)
    requires forall n: nat | n < |log| :: LifeAfter(e.conn.ident.id, log, n).ident == e.conn.ident
    ensures T.ResolveEntry(e, t) == ViewFrom(e.conn, log, from, end, t)
  {
    var k := Pick(T.Times(xs), t);
    SnapshotTimes(xs, e.conn.ident.id, log, from);
    EntryFinds(e, xs, t);
    if k.Some? {
      FoundShows(e, LifeAfter(e.conn.ident.id, log, from + k.value), log[from + k.value].ts, t);
    } else {
      NothingShows(e, t);
    }
  }

  lemma EntryShows(c: Conn, log: Log, from: nat, end: u64, t: u64)
    requires IsFoldOf(c.life, log) && AreLastSnapshots(c.hist[STATES], c.life.ident.id, log, from)
    ensures T.ResolveEntry(T.EntryOf(SeriesOf(c), end), t) == ViewFrom(c.life, log, from, end, t)
  {
    forall n: nat | n < |log|
      ensures LifeAfter(c.life.ident.id, log, n).ident == c.life.ident
    {
      SameIdentity(c.life, log, n);
    }
    EntryShowsFrom(T.EntryOf(SeriesOf(c), end), c.hist[STATES], log, from, end, t);
  }

  lemma SameIdentity(l: Life, log: Log, n: nat)
    requires IsFoldOf(l, log) && n < |log|
    ensures LifeAfter(l.ident.id, log, n).ident == l.ident
  {
    IdentityIsFixed(l.ident.id, log);
    IdentityIsFixed(l.ident.id, log[..n + 1]);
  }

  function Flatten(views: seq<seq<T.AsOf>>): seq<T.AsOf> {
    if |views| == 0 then [] else Flatten(views[..|views| - 1]) + views[|views| - 1]
  }

  lemma {:induction false} EntriesShow(entries: seq<T.Entry>, views: seq<seq<T.AsOf>>, t: u64)
    requires |entries| == |views| && forall i | 0 <= i < |views| :: T.ResolveEntry(entries[i], t) == views[i]
    ensures T.ResolveAt(entries, t) == Flatten(views)
  {
    if |entries| > 0 {
      EntriesShow(entries[..|entries| - 1], views[..|views| - 1], t);
    }
  }

  /** The views of all connections, in order of opening. */
  ghost function ViewsAt(lives: seq<Life>, logs: seq<Log>, end: u64, t: u64): (views: seq<seq<T.AsOf>>)
    requires |lives| == |logs|
    ensures |views| == |lives|
  {
    seq(|lives|, i requires 0 <= i < |lives| => ViewAt(lives[i], logs[i], end, t))
  }

  lemma ReplayShows(cfg: Config, items: seq<Item>, end: u64, t: u64, i: nat)
    requires cfg.retention.FailFast? && cfg.collectState && !Run(cfg, items).overflowed
    requires i < |Run(cfg, items).conns|
    ensures var c := Run(cfg, items).conns[i];
            T.ResolveEntry(T.EntryOf(SeriesOf(c), end), t) == ViewAt(c.life, Logs(cfg, items)[i], end, t)
  {
    var c, log := Run(cfg, items).conns[i], Logs(cfg, items)[i];
    SeriesAreFolds(cfg, items);
    LivesAreFolds(cfg, items);
    assert IsFoldOf(Lives(Run(cfg, items).conns)[i], log);
    RecordedAreSnapshots(c.life.ident.id, log, cfg);
    EntryShows(c, log, 0, end, t);
  }

  /** Seeking, whatever the order of timestamps.  In an unfailed replay with state collection on,
      resolving the finished timeline at any `t` lists exactly the connections open by `t` whose
      effective end is not before it, in order of opening, each as it was after the last of its
      own segments among those with the greatest timestamp not after `t`. */
  lemma SeekingShowsPicks(cfg: Config, items: seq<Item>, t: u64)
    requires cfg.retention.FailFast? && cfg.collectState && !Run(cfg, items).overflowed
    ensures var f, tl := Run(cfg, items), IntoTimeline(Run(cfg, items)).timeline;
            T.ResolveAt(tl.entries, t) == Flatten(ViewsAt(Lives(f.conns), Logs(cfg, items), tl.end, t))
  {
    var f, tl := Run(cfg, items), IntoTimeline(Run(cfg, items)).timeline;
    forall i | 0 <= i < |f.conns|
      ensures T.ResolveEntry(tl.entries[i], t) == ViewAt(Lives(f.conns)[i], Logs(cfg, items)[i], tl.end, t)
    {
      ReplayShows(cfg, items, tl.end, t, i);
    }
    EntriesShow(tl.entries, ViewsAt(Lives(f.conns), Logs(cfg, items), tl.end, t), t);
  }
}
