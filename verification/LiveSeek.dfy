/** Seeking back in the live view.  What the snapshot shows at any time is what the segments
    whose states are still retained give; and from the retention horizon on that is what the
    whole log gives, unless the state in force there has aged away. */
module LiveSeek {
  import opened Core
  import opened Lifecycle
  import opened TrackerSpec
  import opened TrackerLives
  import opened TrackerIndex
  import opened Walk
  import opened Accounting
  import opened Chronology
  import opened Eviction
  import opened Attribution
  import opened SeriesFolds
  import opened Stories
  import opened Seek
  import opened SeekAnyOrder
  import OldestFirst
  import LiveRetention
  import LiveView
  import RetentionByTime
  import T = Timeline

  // ------------------------------------------------------------------- any order of time

  /** The number of the first segment whose state connection `i` still retains. */
  ghost function FirstKept(cfg: Config, items: seq<Item>, i: nat): (from: nat)
    requires cfg.retention.Evict? && cfg.collectState && i < |Run(cfg, items).conns|
    ensures from <= |Logs(cfg, items)[i]|
  {
    RetainedSnapshots(cfg, items, i);
    |Logs(cfg, items)[i]| - |Run(cfg, items).conns[i].hist[STATES]|
  }

  /** The retained states are the snapshots of the last segments of the log. */
  lemma RetainedSnapshots(cfg: Config, items: seq<Item>, i: nat)
    requires cfg.retention.Evict? && cfg.collectState && i < |Run(cfg, items).conns|
    ensures var c, log := Run(cfg, items).conns[i], Logs(cfg, items)[i];
            KeepsLast(c.hist[STATES], c.life.ident.id, log)
  {
    EvictingSucceeds(cfg, items);
    KeptEnd(cfg, items, i);
    LastOfRecorded(Run(cfg, items).conns[i].hist[STATES], Run(cfg, items).conns[i].life.ident.id,
                   Logs(cfg, items)[i], cfg);
  }

  ghost predicate KeepsLast(kept: seq<Sample>, id: ConnId, log: Log) {
    |kept| <= |log| && AreLastSnapshots(kept, id, log, |log| - |kept|)
  }

  lemma EvictingSucceeds(cfg: Config, items: seq<Item>)
    requires cfg.retention.Evict?
    ensures !Run(cfg, items).overflowed
  {
    CounterIsExactAndBounded(cfg, items);
  }

  lemma KeptEnd(cfg: Config, items: seq<Item>, i: nat)
    requires !Run(cfg, items).overflowed && i < |Run(cfg, items).conns|
    ensures var c, log := Run(cfg, items).conns[i], Logs(cfg, items)[i];
            |log| > 0 && IsSuffix(c.hist[STATES], HistRun(c.life.ident.id, log, cfg)[STATES])
  {
    RetainedOfLog(cfg, items, i, STATES);
  }

  lemma LastOfRecorded(kept: seq<Sample>, id: ConnId, log: Log, cfg: Config)
    requires |log| > 0 && cfg.collectState && IsSuffix(kept, HistRun(id, log, cfg)[STATES])
    ensures KeepsLast(kept, id, log)
  {
    RecordedAreSnapshots(id, log, cfg);
    LastOfSnapshots(kept, HistRun(id, log, cfg)[STATES], id, log);
  }

  lemma TrackedIsFold(cfg: Config, items: seq<Item>, i: nat)
    requires i < |Run(cfg, items).conns|
    ensures IsFoldOf(Run(cfg, items).conns[i].life, Logs(cfg, items)[i])
  {
    LivesAreFolds(cfg, items);
    assert IsFoldOf(Lives(Run(cfg, items).conns)[i], Logs(cfg, items)[i]);
  }

  lemma LastOfSnapshots(kept: seq<Sample>, xs: seq<Sample>, id: ConnId, log: Log)
    requires IsSuffix(kept, xs) && AreSnapshots(xs, id, log)
    ensures |kept| <= |log| && AreLastSnapshots(kept, id, log, |log| - |kept|)
  {
    var from := |log| - |kept|;
    forall j | 0 <= j < |kept|
      ensures kept[j] == LifeAfter(id, log, from + j).Snapshot(log[from + j].ts)
    {
      assert kept[j] == xs[from + j];
    }
  }

  /** What each connection shows at `t` by the segments whose states it retains. */
  ghost function RetainedViews(cfg: Config, items: seq<Item>, t: u64): (views: seq<seq<T.AsOf>>)
    requires cfg.retention.Evict? && cfg.collectState
    ensures |views| == |Run(cfg, items).conns|
  {
    var s := Run(cfg, items);
    seq(|s.conns|, i requires 0 <= i < |s.conns| =>
          ViewFrom(s.conns[i].life, Logs(cfg, items)[i], FirstKept(cfg, items, i), s.now, t))
  }

  /** After any mix of segments and ticks in any order of time, the snapshot resolved at any `t`
      lists each connection that is open by `t`, is not over before it and retains a state not
      after it, as it was after the last, of those of its segments whose states are retained,
      among the ones with the greatest timestamp not after `t`. */
  lemma SnapshotShows(cfg: Config, items: seq<Item>, t: u64)
    requires cfg.retention.Evict? && cfg.collectState
    ensures T.ResolveAt(LiveView.Snapshot(Run(cfg, items)).entries, t) == Flatten(RetainedViews(cfg, items, t))
  {
    var entries := LiveView.Snapshot(Run(cfg, items)).entries;
    forall i | 0 <= i < |entries|
      ensures T.ResolveEntry(entries[i], t) == RetainedViews(cfg, items, t)[i]
    {
      ConnShows(cfg, items, i, t);
    }
    EntriesShow(entries, RetainedViews(cfg, items, t), t);
  }

  lemma ConnShows(cfg: Config, items: seq<Item>, i: nat, t: u64)
    requires cfg.retention.Evict? && cfg.collectState && i < |Run(cfg, items).conns|
    ensures var s := Run(cfg, items);
            T.ResolveEntry(LiveView.Snapshot(s).entries[i], t) ==
            ViewFrom(s.conns[i].life, Logs(cfg, items)[i], FirstKept(cfg, items, i), s.now, t)
  {
    SnapshotEntry(Run(cfg, items), i);
    TrackedShows(cfg, items, i, t);
  }

  lemma SnapshotEntry(s: TState, i: nat)
    requires i < |s.conns|
    ensures LiveView.Snapshot(s).entries[i] == T.EntryOf(SeriesOf(s.conns[i]), s.now)
  {}

  /** The connection's retained states are the last of its log's, and it is the fold of its log. */
  ghost predicate KeepsOwn(c: Conn, log: Log) {
    IsFoldOf(c.life, log) && KeepsLast(c.hist[STATES], c.life.ident.id, log)
  }

  lemma TrackedKeepsOwn(cfg: Config, items: seq<Item>, i: nat)
    requires cfg.retention.Evict? && cfg.collectState && i < |Run(cfg, items).conns|
    ensures KeepsOwn(Run(cfg, items).conns[i], Logs(cfg, items)[i])
  {
    TrackedIsFold(cfg, items, i);
    RetainedSnapshots(cfg, items, i);
  }

  lemma TrackedShows(cfg: Config, items: seq<Item>, i: nat, t: u64)
    requires cfg.retention.Evict? && cfg.collectState && i < |Run(cfg, items).conns|
    ensures var s := Run(cfg, items);
            T.ResolveEntry(T.EntryOf(SeriesOf(s.conns[i]), s.now), t) ==
            ViewFrom(s.conns[i].life, Logs(cfg, items)[i], FirstKept(cfg, items, i), s.now, t)
  {
    TrackedKeepsOwn(cfg, items, i);
    KeptShows(Run(cfg, items).conns[i], Logs(cfg, items)[i], FirstKept(cfg, items, i), Run(cfg, items).now, t);
  }

  lemma KeptShows(c: Conn, log: Log, from: nat, end: u64, t: u64)
    requires KeepsOwn(c, log) && from == |log| - |c.hist[STATES]|
    ensures T.ResolveEntry(T.EntryOf(SeriesOf(c), end), t) == ViewFrom(c.life, log, from, end, t)
  {
    EntryShows(c, log, from, end, t);
  }

  // --------------------------------------------------------------- back to the horizon

  /** Kept are the times from number `from` on: those since the horizon, but at least the last. */
  ghost predicate KeptSince(ts: seq<u64>, h: u64, from: nat) {
    && from < |ts| && (forall j | 0 <= j < from :: ts[j] < h)
    && (from == |ts| - 1 || forall j | from <= j < |ts| :: h <= ts[j])
  }

  /** The last time not after `t` lies before the horizon, and a later one follows. */
  ghost predicate AgedAway(ts: seq<u64>, h: u64, t: u64) {
    exists k :: 0 <= k < |ts| - 1 && ts[k] < h && t < ts[k + 1]
  }

  lemma PickIsLast(ts: seq<u64>, t: u64, k: nat)
    requires T.Nondecreasing(ts) && IsPick(ts, t, k)
    ensures forall j | k < j < |ts| :: t < ts[j]
  {
  }

  lemma PickIs(ts: seq<u64>, t: u64, k: nat)
    requires IsPick(ts, t, k)
    ensures Pick(ts, t) == Some(k)
  {
    PickPicks(ts, t);
  }

  lemma NoPick(ts: seq<u64>, t: u64)
    requires forall j | 0 <= j < |ts| :: t < ts[j]
    ensures Pick(ts, t) == None
  {
    PickPicks(ts, t);
  }

  /** From the horizon on, what is kept picks as all of it does, unless the pick aged away. */
  lemma KeptPicks(ts: seq<u64>, h: u64, from: nat, t: u64)
    requires T.Nondecreasing(ts) && KeptSince(ts, h, from) && h <= t
    ensures var all, kept := Pick(ts, t), Pick(ts[from..], t);
            && (AgedAway(ts, h, t) ==> all.Some? && kept.None?)
            && (!AgedAway(ts, h, t) ==> if all.Some? then kept.Some? && all.value == from + kept.value else kept.None?)
  {
    PickPicks(ts, t);
    var all := Pick(ts, t);
    if all.None? {
      NoPick(ts[from..], t);
    } else if all.value < from {
      PickIsLast(ts, t, all.value);
      assert ts[all.value] < h && t < ts[all.value + 1];
      NoPick(ts[from..], t);
    } else {
      PickIsLast(ts, t, all.value);
      PickInKept(ts, from, t, all.value);
    }
  }

  lemma PickInKept(ts: seq<u64>, from: nat, t: u64, k: nat)
    requires from <= k && IsPick(ts, t, k)
    ensures Pick(ts[from..], t) == Some(k - from)
  {
    PickIs(ts[from..], t, k - from);
  }

  lemma ViewFromKept(l: Life, log: Log, h: u64, from: nat, end: u64, t: u64)
    requires T.Nondecreasing(LogTimes(log)) && KeptSince(LogTimes(log), h, from) && h <= t
    ensures ViewFrom(l, log, from, end, t) == if AgedAway(LogTimes(log), h, t) then [] else ViewAt(l, log, end, t)
  {
    KeptPicks(LogTimes(log), h, from, t);
    assert LogTimes(log)[0..] == LogTimes(log);
  }

  // ---------------------------------------------------------------------- what is kept

  /** On a sorted series the samples since the horizon are its end. */
  lemma {:induction false} SinceIsEnd(xs: seq<Sample>, h: u64) returns (from: nat)
    requires Sorted(xs)
    ensures from <= |xs| && RetentionByTime.Since(xs, h) == xs[from..]
    ensures (forall j | 0 <= j < from :: xs[j].t < h) && (forall j | from <= j < |xs| :: h <= xs[j].t)
  {
    from := 0;
    if |xs| > 0 && xs[0].t < h {
      RetentionByTime.SinceTail(xs, h);
      var later := SinceIsEnd(xs[1..], h);
      from := later + 1;
    } else {
      RetentionByTime.SinceAll(xs, h);
    }
  }

  lemma WindowKeeps(xs: seq<Sample>, kept: seq<Sample>, h: u64)
    requires Sorted(xs) && |xs| > 0 && kept == RetentionByTime.LastWindow(xs, STATES, h)
    ensures |kept| <= |xs| && KeptSince(T.Times(xs), h, |xs| - |kept|)
  {
    var from := SinceIsEnd(xs, h);
  }

  lemma SnapshotsInTime(xs: seq<Sample>, id: ConnId, log: Log)
    requires AreSnapshots(xs, id, log) && Sorted(xs)
    ensures T.Times(xs) == LogTimes(log) && T.Nondecreasing(LogTimes(log))
  {
    assert T.Times(xs) == LogTimes(log);
    forall i, j | 0 <= i < j < |log|
      ensures LogTimes(log)[i] <= LogTimes(log)[j]
    {
      assert xs[i].t <= xs[j].t;
    }
  }

  /** As long as the ceiling is never met and no segment comes before an earlier item, a
      connection keeps the states of its segments since the horizon, or of the last. */
  lemma StatesKept(cfg: Config, items: seq<Item>, i: nat)
    requires cfg.retention.Evict? && cfg.collectState && i < |Run(cfg, items).conns|
    requires NeverFull(cfg, items) && SegmentsInTime(items)
    ensures var ts, h := LogTimes(Logs(cfg, items)[i]), Horizon(Run(cfg, items).now, cfg.retention.horizon);
            T.Nondecreasing(ts) && KeptSince(ts, h, FirstKept(cfg, items, i))
  {
    var c, log, story := Run(cfg, items).conns[i], Logs(cfg, items)[i], StoriesOf(cfg, items)[i];
    var id := c.life.ident.id;
    LiveRetention.LiveRetainsLastWindow(cfg, items, i, STATES);
    StoriesTellLogs(cfg, items);
    StoriesAreDated(cfg, items, true);
    StoryKeepsLog(id, story, cfg, STATES);
    LiveRetention.StoryInTime(id, story, cfg, STATES);
    RecordedAreSnapshots(id, log, cfg);
    SnapshotsInTime(HistRun(id, log, cfg)[STATES], id, log);
    WindowKeeps(HistRun(id, log, cfg)[STATES], c.hist[STATES], Horizon(Run(cfg, items).now, cfg.retention.horizon));
  }

  /** Seeking back to any time from the horizon on: a connection shows just what its whole log
      gives, except that it is missing exactly when its last segment by then is older than the
      horizon and a later one has followed. */
  lemma SeekBackExactly(cfg: Config, items: seq<Item>, i: nat, t: u64)
    requires cfg.retention.Evict? && cfg.collectState && i < |Run(cfg, items).conns|
    requires NeverFull(cfg, items) && SegmentsInTime(items)
    requires Horizon(Run(cfg, items).now, cfg.retention.horizon) <= t
    ensures var s, log := Run(cfg, items), Logs(cfg, items)[i];
            var shown := T.ResolveEntry(LiveView.Snapshot(s).entries[i], t);
            var whole := ViewAt(s.conns[i].life, log, s.now, t);
            var missing := AgedAway(LogTimes(log), Horizon(s.now, cfg.retention.horizon), t);
            shown == (if missing then [] else whole) && (shown == whole <==> whole == [] || !missing)
  {
    ConnShows(cfg, items, i, t);
    StatesKept(cfg, items, i);
    ViewFromKept(Run(cfg, items).conns[i].life, Logs(cfg, items)[i],
                 Horizon(Run(cfg, items).now, cfg.retention.horizon), FirstKept(cfg, items, i), Run(cfg, items).now, t);
  }

  // --------------------------------------------------------------------- the witness

  /** A client's SYN, and a plain segment of the same client. */
  predicate Resumes(a: Segment, b: Segment) {
    && a.flags == Flags(false, true, false, false) && b.src == a.src && b.dst == a.dst
    && !b.flags.syn && !b.flags.fin && !b.flags.rst
  }

  function OpenLife(a: Segment): Life { Open(ConnId(a.Pair(), 0), a) }

  lemma ResumedLife(a: Segment, b: Segment)
    requires Resumes(a, b)
    ensures OpenLife(a).phase.state == SynSent && PairOf(OpenLife(a)) == a.Pair()
    ensures OpenLife(a).Join(b).phase.state == SynSent && OpenLife(a).Join(b).ident.openedAt == a.ts
  {}

  lemma OnlyLife(s: TState, l: Life)
    requires Lives(s.conns) == [l]
    ensures |s.conns| == 1 && s.conns[0].life == l
  {
    assert Lives(s.conns)[0] == l;
  }

  lemma WaitingJoins(s: TState, seg: Segment)
    requires s.WF() && |s.conns| == 1 && s.conns[0].life.phase.state == SynSent && !seg.flags.syn
    requires seg.Pair() in s.live
    ensures Joins(s, seg) && s.live[seg.Pair()] == 0
  {}

  lemma ResumeStep(s: TState, logs: seq<Log>, a: Segment, b: Segment)
    requires Resumes(a, b) && s.WF() && Indexed(s) && Lives(s.conns) == [OpenLife(a)] && logs == [[a]]
    ensures |logs| == |s.conns| && LogSegment(s, logs, b) == [[a] + [b]]
    ensures var r := EvictSamples(ObserveSegment(s, b));
            Lives(r.conns) == [OpenLife(a).Join(b)] && r.now == s.now
  {
    ResumedLife(a, b);
    OnlyLife(s, OpenLife(a));
    assert PairOf(Lives(s.conns)[0]) in s.live;
    WaitingJoins(s, b);
    SegmentLives(s, b);
  }

  lemma LastLog(cfg: Config, items: seq<Item>, seg: Segment)
    requires Run(cfg, items).now <= seg.ts
    ensures Logs(cfg, items + [Seg(seg)]) == LogSegment(Run(cfg, items).(now := seg.ts), Logs(cfg, items), seg)
  {
    assert (items + [Seg(seg)])[..|items|] == items;
  }

  lemma ResumeOn(cfg: Config, items: seq<Item>, a: Segment, b: Segment)
    requires Resumes(a, b) && Run(cfg, items).now <= b.ts && Indexed(Run(cfg, items))
    requires Lives(Run(cfg, items).conns) == [OpenLife(a)] && Logs(cfg, items) == [[a]]
    ensures var more := items + [Seg(b)];
            && Logs(cfg, more) == [[a] + [b]] && Run(cfg, more).now == b.ts
            && Lives(Run(cfg, more).conns) == [OpenLife(a).Join(b)]
  {
    ResumeStep(Run(cfg, items).(now := b.ts), Logs(cfg, items), a, b);
    OldestFirst.NextSegment(cfg, items, items + [Seg(b)], b);
    LastLog(cfg, items, b);
  }

  lemma ResumeRun(cfg: Config, a: Segment, b: Segment)
    requires Resumes(a, b) && a.ts <= b.ts
    ensures var items := [Seg(a)] + [Seg(b)];
            && Logs(cfg, items) == [[a] + [b]] && Run(cfg, items).now == b.ts
            && Lives(Run(cfg, items).conns) == [OpenLife(a).Join(b)]
  {
    OneSegmentRun(cfg, a);
    RunIndexed(cfg, [Seg(a)]);
    ResumeOn(cfg, [Seg(a)], a, b);
  }

  lemma TwoFit(cfg: Config, a: Segment, b: Segment)
    requires cfg.retention.Evict? && cfg.retention.ceiling >= MostSamples(a) + MostSamples(b) && a.ts <= b.ts
    ensures NeverFull(cfg, [Seg(a)] + [Seg(b)]) && SegmentsInTime([Seg(a)] + [Seg(b)])
  {
    var items := [Seg(a)] + [Seg(b)];
    assert items[..1] == [Seg(a)] && [Seg(a)][..0] == [];
    assert LiveRetention.MostHeld([Seg(a)]) == LiveRetention.MostHeld([]) + MostSamples(a);
    LiveRetention.RoomForAllIsNeverFull(cfg, items);
  }

  lemma FirstAgesAway(a: Segment, b: Segment, h: u64, t: u64)
    requires a.ts < h <= t < b.ts
    ensures AgedAway(LogTimes([a] + [b]), h, t)
  {
    var ts := LogTimes([a] + [b]);
    assert ts[0] == a.ts && ts[1] == b.ts;
  }

  lemma OnlyEntryActive(s: TState, l: Life, t: u64)
    requires Lives(s.conns) == [l] && !l.phase.state.Terminal() && l.ident.openedAt <= t <= s.now
    ensures var entries := LiveView.Snapshot(s).entries;
            && |entries| == 1 && T.ActiveAt(entries[0], t)
            && T.ResolveAt(entries, t) == T.ResolveEntry(entries[0], t)
  {
    OnlyLife(s, l);
    SnapshotEntry(s, 0);
    OnlyEntry(LiveView.Snapshot(s).entries, t);
  }

  lemma FirstIsMissing(cfg: Config, items: seq<Item>, a: Segment, b: Segment, t: u64)
    requires cfg.retention.Evict? && cfg.collectState && NeverFull(cfg, items) && SegmentsInTime(items)
    requires |Run(cfg, items).conns| == 1 && Logs(cfg, items) == [[a] + [b]]
    requires a.ts < Horizon(Run(cfg, items).now, cfg.retention.horizon) <= t < b.ts
    ensures T.ResolveEntry(LiveView.Snapshot(Run(cfg, items)).entries[0], t) == []
  {
    FirstAgesAway(a, b, Horizon(Run(cfg, items).now, cfg.retention.horizon), t);
    SeekBackExactly(cfg, items, 0, t);
  }

  /** It happens in any live configuration that records states: a client opens, is silent for more
      than the window and is heard again; at the horizon it was open and has not ended, and yet
      the snapshot does not show it there. */
  lemma SeekBackCanMiss(cfg: Config, a: Segment, b: Segment)
    requires cfg.retention.Evict? && cfg.collectState && cfg.retention.ceiling >= MostSamples(a) + MostSamples(b)
    requires Resumes(a, b) && 0 < cfg.retention.horizon && a.ts + cfg.retention.horizon < b.ts
    ensures var s := Run(cfg, [Seg(a)] + [Seg(b)]);
            var h := Horizon(s.now, cfg.retention.horizon);
            && h <= s.now && |LiveView.Snapshot(s).entries| == 1 && T.ActiveAt(LiveView.Snapshot(s).entries[0], h)
            && T.ResolveAt(LiveView.Snapshot(s).entries, h) == []
  {
    var items, h := [Seg(a)] + [Seg(b)], Horizon(b.ts, cfg.retention.horizon);
    ResumeRun(cfg, a, b);
    TwoFit(cfg, a, b);
    ResumedLife(a, b);
    OnlyLife(Run(cfg, items), OpenLife(a).Join(b));
    OnlyEntryActive(Run(cfg, items), OpenLife(a).Join(b), h);
    FirstIsMissing(cfg, items, a, b, h);
  }

  lemma OnlyEntry(entries: seq<T.Entry>, t: u64)
    requires |entries| == 1
    ensures T.ResolveAt(entries, t) == T.ResolveEntry(entries[0], t)
  {
    assert entries[..0] == [] && T.ResolveAt([], t) == [];
  }
}
