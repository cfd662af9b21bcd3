/** The seekable timeline: sorted series, a merged index of event times, and queries that
    search both by bisection. */
module Timeline {
  import opened Core
  import opened Lifecycle

  // ------------------------------------------------------------------- sorting

  /** Inserts after everything that is not later, so that equal times keep their order. */
  function Insert(xs: seq<Sample>, x: Sample): (r: seq<Sample>)
    ensures |r| == |xs| + 1
  {
    if |xs| > 0 && xs[|xs| - 1].t > x.t then Insert(xs[..|xs| - 1], x) + [xs[|xs| - 1]] else xs + [x]
  }

  /** A stable sort by time. */
  function SortByTime(xs: seq<Sample>): (r: seq<Sample>)
    ensures |r| == |xs|
  {
    if |xs| == 0 then [] else Insert(SortByTime(xs[..|xs| - 1]), xs[|xs| - 1])
  }

  /** The samples stamped `t`, in order. */
  function At(xs: seq<Sample>, t: u64): seq<Sample> {
    if |xs| == 0 then [] else At(xs[..|xs| - 1], t) + if xs[|xs| - 1].t == t then [xs[|xs| - 1]] else []
  }

  lemma {:induction false} InsertKeepsAll(xs: seq<Sample>, x: Sample)
    ensures multiset(Insert(xs, x)) == multiset(xs) + multiset{x}
  {
    if |xs| > 0 && xs[|xs| - 1].t > x.t {
      var init, last := xs[..|xs| - 1], xs[|xs| - 1];
      assert xs == init + [last];
      InsertKeepsAll(init, x);
    }
  }

  lemma {:induction false} InsertSorts(xs: seq<Sample>, x: Sample)
    requires Sorted(xs)
    ensures Sorted(Insert(xs, x))
    ensures |xs| > 0 ==> Insert(xs, x)[|xs|].t == Max(xs[|xs| - 1].t, x.t)
  {
    if |xs| > 0 && xs[|xs| - 1].t > x.t {
      InsertSorts(xs[..|xs| - 1], x);
    }
  }

  lemma {:induction false} InsertIsStable(xs: seq<Sample>, x: Sample, t: u64)
    ensures At(Insert(xs, x), t) == At(xs, t) + if x.t == t then [x] else []
  {
    if |xs| > 0 && xs[|xs| - 1].t > x.t {
      var init, last := xs[..|xs| - 1], xs[|xs| - 1];
      InsertIsStable(init, x, t);
      assert (Insert(init, x) + [last])[..|xs|] == Insert(init, x);
    } else {
      assert (xs + [x])[..|xs|] == xs;
    }
  }

  /** Sorting orders by time and loses nothing. */
  lemma {:induction false} SortSorts(xs: seq<Sample>)
    ensures Sorted(SortByTime(xs)) && multiset(SortByTime(xs)) == multiset(xs)
  {
    if |xs| > 0 {
      var init, last := xs[..|xs| - 1], xs[|xs| - 1];
      assert xs == init + [last];
      SortSorts(init);
      InsertSorts(SortByTime(init), last);
      InsertKeepsAll(SortByTime(init), last);
    }
  }

  /** Samples stamped alike keep their order. */
  lemma {:induction false} SortIsStable(xs: seq<Sample>, t: u64)
    ensures At(SortByTime(xs), t) == At(xs, t)
  {
    if |xs| > 0 {
      SortIsStable(xs[..|xs| - 1], t);
      InsertIsStable(SortByTime(xs[..|xs| - 1]), xs[|xs| - 1], t);
    }
  }

  lemma {:induction false} SortedStaysPut(xs: seq<Sample>)
    requires Sorted(xs)
    ensures SortByTime(xs) == xs
  {
    if |xs| > 0 {
      var init, last := xs[..|xs| - 1], xs[|xs| - 1];
      assert xs == init + [last];
      SortedStaysPut(init);
      assert |init| > 0 ==> init[|init| - 1].t <= last.t;
      assert Insert(init, last) == init + [last];
    }
  }

  // ------------------------------------------------------- the event-time index

  ghost predicate Nondecreasing(ts: seq<u64>) {
    forall i, j | 0 <= i < j < |ts| :: ts[i] <= ts[j]
  }

  ghost predicate Increasing(ts: seq<u64>) {
    forall i, j | 0 <= i < j < |ts| :: ts[i] < ts[j]
  }

  function InsertTime(ts: seq<u64>, t: u64): seq<u64> {
    if |ts| > 0 && ts[|ts| - 1] > t then InsertTime(ts[..|ts| - 1], t) + [ts[|ts| - 1]] else ts + [t]
  }

  function SortTimes(ts: seq<u64>): seq<u64> {
    if |ts| == 0 then [] else InsertTime(SortTimes(ts[..|ts| - 1]), ts[|ts| - 1])
  }

  /** Drops an element equal to its predecessor. */
  function Dedup(ts: seq<u64>): (r: seq<u64>)
    ensures |ts| > 0 ==> |r| > 0 && r[|r| - 1] == ts[|ts| - 1]
  {
    if |ts| <= 1 then ts
    else
      var r := Dedup(ts[..|ts| - 1]);
      if ts[|ts| - 1] == ts[|ts| - 2] then r else r + [ts[|ts| - 1]]
  }

  lemma {:induction false} InsertTimeSorts(ts: seq<u64>, t: u64)
    requires Nondecreasing(ts)
    ensures Nondecreasing(InsertTime(ts, t))
    ensures forall x: u64 :: x in InsertTime(ts, t) <==> x in ts || x == t
  {
    if |ts| > 0 && ts[|ts| - 1] > t {
      InsertTimeSorts(ts[..|ts| - 1], t);
      assert ts == ts[..|ts| - 1] + [ts[|ts| - 1]];
      var r := InsertTime(ts[..|ts| - 1], t);
      assert forall i | 0 <= i < |r| :: r[i] in r;
    }
  }

  lemma {:induction false} SortTimesSorts(ts: seq<u64>)
    ensures Nondecreasing(SortTimes(ts))
    ensures forall x: u64 :: x in SortTimes(ts) <==> x in ts
  {
    if |ts| > 0 {
      SortTimesSorts(ts[..|ts| - 1]);
      InsertTimeSorts(SortTimes(ts[..|ts| - 1]), ts[|ts| - 1]);
      assert ts == ts[..|ts| - 1] + [ts[|ts| - 1]];
    }
  }

  lemma {:induction false} DedupKeepsAll(ts: seq<u64>)
    ensures forall x: u64 :: x in Dedup(ts) <==> x in ts
  {
    if |ts| > 1 {
      var init := ts[..|ts| - 1];
      DedupKeepsAll(init);
      assert ts == init + [ts[|ts| - 1]];
      assert ts[|ts| - 2] == init[|init| - 1];
    }
  }

  lemma {:induction false} DedupIncreases(ts: seq<u64>)
    requires Nondecreasing(ts)
    ensures Increasing(Dedup(ts))
  {
    if |ts| > 1 {
      DedupIncreases(ts[..|ts| - 1]);
      var r := Dedup(ts[..|ts| - 1]);
      assert r[|r| - 1] == ts[|ts| - 2];
    }
  }

  // ---------------------------------------------------------------- construction

  /** One connection with its retained series, in whatever order they were recorded. */
  datatype ConnSeries = ConnSeries(
    conn: Life, states: seq<Sample>, seqPoints: seq<Sample>, inFlight: seq<Sample>,
    rtts: seq<Sample>, throughput: seq<Sample>)

  datatype Entry = Entry(
    conn: Life, samples: seq<Sample>, seqPoints: seq<Sample>, inFlight: seq<Sample>,
    rtts: seq<Sample>, throughput: seq<Sample>, effectiveEnd: u64)

  datatype Timeline = Timeline(entries: seq<Entry>, start: u64, end: u64, eventTimes: seq<u64>)

  function EffectiveEnd(l: Life, end: u64): u64 {
    if l.phase.state.Terminal() then l.traffic.lastAt else end
  }

  function EntryOf(c: ConnSeries, end: u64): Entry {
    Entry(c.conn, SortByTime(c.states), SortByTime(c.seqPoints), SortByTime(c.inFlight),
          SortByTime(c.rtts), SortByTime(c.throughput), EffectiveEnd(c.conn, end))
  }

  function Times(xs: seq<Sample>): (ts: seq<u64>)
    ensures |ts| == |xs|
  {
    seq(|xs|, i requires 0 <= i < |xs| => xs[i].t)
  }

  /** The times of every state sample, connection by connection. */
  function StateTimes(conns: seq<ConnSeries>): seq<u64> {
    if |conns| == 0 then []
    else StateTimes(conns[..|conns| - 1]) + Times(SortByTime(conns[|conns| - 1].states))
  }

  /** The same times as they stand in the input. */
  function RawTimes(conns: seq<ConnSeries>): seq<u64> {
    if |conns| == 0 then [] else RawTimes(conns[..|conns| - 1]) + Times(conns[|conns| - 1].states)
  }

  function MinTime(ts: seq<u64>): u64 {
    if |ts| == 0 then 0
    else if |ts| == 1 then ts[0]
    else
      var m := MinTime(ts[..|ts| - 1]);
      if ts[|ts| - 1] < m then ts[|ts| - 1] else m
  }

  function Entries(conns: seq<ConnSeries>, end: u64): (r: seq<Entry>)
    ensures |r| == |conns| && forall i | 0 <= i < |r| :: r[i] == EntryOf(conns[i], end)
  {
    seq(|conns|, i requires 0 <= i < |conns| => EntryOf(conns[i], end))
  }

  function TimelineOf(conns: seq<ConnSeries>, end: u64): Timeline {
    Timeline(Entries(conns, end), MinTime(RawTimes(conns)), end, Dedup(SortTimes(StateTimes(conns))))
  }

  /** The end a replay timeline derives for itself: the latest activity. */
  function LastActivity(conns: seq<ConnSeries>): u64 {
    if |conns| == 0 then 0
    else Max(LastActivity(conns[..|conns| - 1]), conns[|conns| - 1].conn.traffic.lastAt)
  }

  /** Builds the timeline: sorts every series, collects the state times, and sorts and
      dedups them into the event index. */
  method WithSeqEnding(conns: seq<ConnSeries>, end: u64) returns (tl: Timeline)
    ensures tl == TimelineOf(conns, end)
  {
    var entries: seq<Entry>, eventTimes: seq<u64> := [], [];
    for i := 0 to |conns|
      invariant entries == Entries(conns[..i], end)
      invariant eventTimes == StateTimes(conns[..i])
    {
      assert conns[..i + 1][..i] == conns[..i];
      eventTimes := PushTimes(eventTimes, SortByTime(conns[i].states));
      entries := entries + [EntryOf(conns[i], end)];
    }
    assert conns[..|conns|] == conns;
    var start := FirstTime(conns);
    tl := Timeline(entries, start, end, Dedup(SortTimes(eventTimes)));
  }

  method PushTimes(eventTimes: seq<u64>, samples: seq<Sample>) returns (r: seq<u64>)
    ensures r == eventTimes + Times(samples)
  {
    r := eventTimes;
    for j := 0 to |samples|
      invariant r == eventTimes + Times(samples)[..j]
    {
      r := r + [samples[j].t];
    }
    assert Times(samples)[..|samples|] == Times(samples);
  }

  /** The least state time over all connections, or zero. */
  method FirstTime(conns: seq<ConnSeries>) returns (start: u64)
    ensures start == MinTime(RawTimes(conns))
  {
    var first: Option<u64> := None;
    for i := 0 to |conns|
      invariant first == LeastOf(RawTimes(conns[..i]))
    {
      assert conns[..i + 1][..i] == conns[..i];
      var states := conns[i].states;
      ghost var seen := RawTimes(conns[..i]);
      assert seen + Times(states)[..0] == seen;
      for j := 0 to |states|
        invariant first == LeastOf(seen + Times(states)[..j])
      {
        ghost var sofar := seen + Times(states)[..j];
        assert seen + Times(states)[..j + 1] == sofar + [states[j].t];
        assert (sofar + [states[j].t])[..|sofar|] == sofar;
        if first.None? || states[j].t < first.value {
          first := Some(states[j].t);
        }
      }
      assert Times(states)[..|states|] == Times(states);
    }
    assert conns[..|conns|] == conns;
    start := if first.Some? then first.value else 0;
  }

  function LeastOf(ts: seq<u64>): Option<u64> {
    if |ts| == 0 then None else Some(MinTime(ts))
  }

  /** Sorting moves times about but changes none. */
  lemma TimesOfSorted(xs: seq<Sample>)
    ensures forall t :: t in Times(SortByTime(xs)) <==> t in Times(xs)
  {
    SortSorts(xs);
    forall t: u64
      ensures t in Times(SortByTime(xs)) <==> t in Times(xs)
    {
      if t in Times(xs) {
        var i :| 0 <= i < |xs| && Times(xs)[i] == t;
        assert xs[i] in multiset(SortByTime(xs));
        var j :| 0 <= j < |xs| && SortByTime(xs)[j] == xs[i];
        assert Times(SortByTime(xs))[j] == t;
      }
      if t in Times(SortByTime(xs)) {
        var i :| 0 <= i < |xs| && Times(SortByTime(xs))[i] == t;
        assert SortByTime(xs)[i] in multiset(xs);
        var j :| 0 <= j < |xs| && xs[j] == SortByTime(xs)[i];
        assert Times(xs)[j] == t;
      }
    }
  }

  // --------------------------------------------------------------------- bisection

  /** The first index in `[lo, hi]` whose element fails `p`, by bisection. */
  function PartitionPoint<T>(xs: seq<T>, p: T -> bool, lo: nat, hi: nat): (k: nat)
    requires lo <= hi <= |xs|
    ensures lo <= k <= hi
    decreases hi - lo
  {
    if lo == hi then lo
    else
      var mid := (lo + hi) / 2;
      if p(xs[mid]) then PartitionPoint(xs, p, mid + 1, hi) else PartitionPoint(xs, p, lo, mid)
  }

  ghost predicate Partitioned<T>(xs: seq<T>, p: T -> bool) {
    forall i, j | 0 <= i < j < |xs| && p(xs[j]) :: p(xs[i])
  }

  lemma {:induction false} PartitionPointSplits<T>(xs: seq<T>, p: T -> bool, lo: nat, hi: nat)
    requires lo <= hi <= |xs| && Partitioned(xs, p)
    requires (forall i | 0 <= i < lo :: p(xs[i])) && (forall i | hi <= i < |xs| :: !p(xs[i]))
    ensures var k := PartitionPoint(xs, p, lo, hi);
            (forall i | 0 <= i < k :: p(xs[i])) && (forall i | k <= i < |xs| :: !p(xs[i]))
    decreases hi - lo
  {
    if lo < hi {
      var mid := (lo + hi) / 2;
      if p(xs[mid]) {
        PartitionPointSplits(xs, p, mid + 1, hi);
      } else {
        PartitionPointSplits(xs, p, lo, mid);
      }
    }
  }

  // ------------------------------------------------------------------------ queries

  datatype AsOf = AsOf(id: ConnId, state: ConnState, bytesO2R: nat, bytesR2O: nat)

  predicate ActiveAt(e: Entry, t: u64) { e.conn.ident.openedAt <= t <= e.effectiveEnd }

  /** The last sample not later than `t`, found by bisection. */
  function LastSampleAt(e: Entry, t: u64): Option<Sample> {
    var k := PartitionPoint(e.samples, (s: Sample) => s.t <= t, 0, |e.samples|);
    if k == 0 then None else Some(e.samples[k - 1])
  }

  function ResolveEntry(e: Entry, t: u64): seq<AsOf> {
    if !ActiveAt(e, t) then []
    else
      var s := LastSampleAt(e, t);
      if s.Some? && s.value.StateSample? then
        [AsOf(e.conn.ident.id, s.value.state, s.value.bytesO2R, s.value.bytesR2O)]
      else []
  }

  /** Each active connection as of `t`, in order. */
  function ResolveAt(entries: seq<Entry>, t: u64): seq<AsOf> {
    if |entries| == 0 then []
    else ResolveAt(entries[..|entries| - 1], t) + ResolveEntry(entries[|entries| - 1], t)
  }

  /** How many event times are not after `t`. */
  function CountUpTo(ts: seq<u64>, t: u64): (k: nat)
    ensures k <= |ts|
  {
    PartitionPoint(ts, (x: u64) => x <= t, 0, |ts|)
  }

  lemma CountSplits(ts: seq<u64>, t: u64)
    requires Increasing(ts)
    ensures var k := CountUpTo(ts, t);
            (forall i | 0 <= i < k :: ts[i] <= t) && (forall i | k <= i < |ts| :: ts[i] > t)
  {
    PartitionPointSplits(ts, (x: u64) => x <= t, 0, |ts|);
  }

  function NextEvent(tl: Timeline, t: u64): Option<u64> {
    var k := CountUpTo(tl.eventTimes, t);
    if k < |tl.eventTimes| then Some(tl.eventTimes[k]) else None
  }

  /** How many event times are before `t`. */
  function CountBefore(ts: seq<u64>, t: u64): (k: nat)
    ensures k <= |ts|
  {
    PartitionPoint(ts, (x: u64) => x < t, 0, |ts|)
  }

  lemma CountBeforeSplits(ts: seq<u64>, t: u64)
    requires Increasing(ts)
    ensures var k := CountBefore(ts, t);
            (forall i | 0 <= i < k :: ts[i] < t) && (forall i | k <= i < |ts| :: ts[i] >= t)
  {
    PartitionPointSplits(ts, (x: u64) => x < t, 0, |ts|);
  }

  function PrevEvent(tl: Timeline, t: u64): Option<u64> {
    var k := CountBefore(tl.eventTimes, t);
    if k == 0 then None else Some(tl.eventTimes[k - 1])
  }

  function XSpan(tl: Timeline, id: ConnId): Option<(u64, u64)> {
    XSpanIn(tl.entries, id)
  }

  function XSpanIn(entries: seq<Entry>, id: ConnId): Option<(u64, u64)> {
    if |entries| == 0 then None
    else if entries[0].conn.ident.id == id then Some((entries[0].conn.ident.openedAt, entries[0].effectiveEnd))
    else XSpanIn(entries[1..], id)
  }

  // ----------------------------------------------------------------- event stepping

  /** `x` stamps a state sample of some connection. */
  ghost predicate IsEvent(conns: seq<ConnSeries>, x: u64) {
    exists i, j :: 0 <= i < |conns| && 0 <= j < |conns[i].states| && conns[i].states[j].t == x
  }

  lemma {:induction false} StateTimesAreEvents(conns: seq<ConnSeries>)
    ensures forall x: u64 :: x in StateTimes(conns) <==> IsEvent(conns, x)
  {
    if |conns| > 0 {
      var n := |conns| - 1;
      StateTimesAreEvents(conns[..n]);
      TimesOfSorted(conns[n].states);
      forall x: u64
        ensures x in StateTimes(conns) <==> IsEvent(conns, x)
      {
        if x in Times(conns[n].states) {
          var j :| 0 <= j < |conns[n].states| && Times(conns[n].states)[j] == x;
          assert conns[n].states[j].t == x;
        }
        if IsEvent(conns[..n], x) {
          var i, j :| 0 <= i < n && 0 <= j < |conns[..n][i].states| && conns[..n][i].states[j].t == x;
          assert conns[i].states[j].t == x;
        }
        if IsEvent(conns, x) {
          var i, j :| 0 <= i < |conns| && 0 <= j < |conns[i].states| && conns[i].states[j].t == x;
          if i < n {
            assert conns[..n][i].states[j].t == x;
          } else {
            assert Times(conns[n].states)[j] == x;
          }
        }
      }
    }
  }

  /** The event index holds each event time once, in order. */
  lemma EventIndexIsExact(conns: seq<ConnSeries>, end: u64)
    ensures var ts := TimelineOf(conns, end).eventTimes;
            Increasing(ts) && forall x: u64 :: x in ts <==> IsEvent(conns, x)
  {
    StateTimesAreEvents(conns);
    SortTimesSorts(StateTimes(conns));
    DedupIncreases(SortTimes(StateTimes(conns)));
    DedupKeepsAll(SortTimes(StateTimes(conns)));
  }

  lemma LeastAfter(ts: seq<u64>, t: u64)
    requires Increasing(ts)
    ensures var k := CountUpTo(ts, t);
            if k < |ts| then ts[k] in ts && ts[k] > t && forall x | x in ts && x > t :: ts[k] <= x
            else forall x | x in ts :: x <= t
  {
    CountSplits(ts, t);
  }

  lemma GreatestBefore(ts: seq<u64>, t: u64)
    requires Increasing(ts)
    ensures var k := CountBefore(ts, t);
            if k > 0 then ts[k - 1] in ts && ts[k - 1] < t && forall x | x in ts && x < t :: x <= ts[k - 1]
            else forall x | x in ts :: t <= x
  {
    CountBeforeSplits(ts, t);
  }

  /** `NextEvent` is the least event time after `t` over the unsorted, duplicated input. */
  lemma NextEventIsLeastAfter(conns: seq<ConnSeries>, end: u64, t: u64)
    ensures var r := NextEvent(TimelineOf(conns, end), t);
            if r.Some? then IsEvent(conns, r.value) && r.value > t &&
                            forall x: u64 | IsEvent(conns, x) && x > t :: r.value <= x
            else forall x: u64 | IsEvent(conns, x) :: x <= t
  {
    EventIndexIsExact(conns, end);
    LeastAfter(TimelineOf(conns, end).eventTimes, t);
  }

  /** `PrevEvent` is the greatest event time before `t`. */
  lemma PrevEventIsGreatestBefore(conns: seq<ConnSeries>, end: u64, t: u64)
    ensures var r := PrevEvent(TimelineOf(conns, end), t);
            if r.Some? then IsEvent(conns, r.value) && r.value < t &&
                            forall x: u64 | IsEvent(conns, x) && x < t :: x <= r.value
            else forall x: u64 | IsEvent(conns, x) :: t <= x
  {
    EventIndexIsExact(conns, end);
    GreatestBefore(TimelineOf(conns, end).eventTimes, t);
  }

  lemma NeighboursAgree(ts: seq<u64>, x: u64, y: u64)
    requires Increasing(ts) && x in ts && y in ts
    ensures (CountUpTo(ts, x) < |ts| && ts[CountUpTo(ts, x)] == y) <==>
            (CountBefore(ts, y) > 0 && ts[CountBefore(ts, y) - 1] == x)
  {
    LeastAfter(ts, x);
    GreatestBefore(ts, y);
  }

  /** On event times stepping forward and stepping back undo each other. */
  lemma SteppingInverts(conns: seq<ConnSeries>, end: u64, x: u64, y: u64)
    requires IsEvent(conns, x) && IsEvent(conns, y)
    ensures NextEvent(TimelineOf(conns, end), x) == Some(y) <==> PrevEvent(TimelineOf(conns, end), y) == Some(x)
  {
    EventIndexIsExact(conns, end);
    NeighboursAgree(TimelineOf(conns, end).eventTimes, x, y);
  }

  /** The times visited by stepping forward from `t` until there is no next event. */
  ghost function StepsFrom(tl: Timeline, t: u64): seq<u64>
    decreases TWO_64 - t
  {
    var r := NextEvent(tl, t);
    if r.Some? && r.value > t then [r.value] + StepsFrom(tl, r.value) else []
  }

  lemma CountAtEvent(ts: seq<u64>, k: nat)
    requires Increasing(ts) && k < |ts|
    ensures CountUpTo(ts, ts[k]) == k + 1
  {
    CountSplits(ts, ts[k]);
    assert k + 1 < |ts| ==> ts[k] < ts[k + 1];
  }

  lemma {:induction false} WalkIsSuffix(tl: Timeline, t: u64)
    requires Increasing(tl.eventTimes)
    ensures StepsFrom(tl, t) == tl.eventTimes[CountUpTo(tl.eventTimes, t)..]
    decreases TWO_64 - t
  {
    var ts := tl.eventTimes;
    var k := CountUpTo(ts, t);
    CountSplits(ts, t);
    if k < |ts| {
      WalkIsSuffix(tl, ts[k]);
      CountAtEvent(ts, k);
      assert ts[k..] == [ts[k]] + ts[k + 1..];
    }
  }

  /** Stepping from before the first event visits every event time exactly once, in order,
      and stops. */
  lemma WalkVisitsEverything(conns: seq<ConnSeries>, end: u64, t: u64)
    requires forall x: u64 | IsEvent(conns, x) :: t < x
    ensures var w := StepsFrom(TimelineOf(conns, end), t);
            Increasing(w) && forall x: u64 :: x in w <==> IsEvent(conns, x)
  {
    EventIndexIsExact(conns, end);
    var tl := TimelineOf(conns, end);
    WalkIsSuffix(tl, t);
    CountSplits(tl.eventTimes, t);
    assert tl.eventTimes[0..] == tl.eventTimes;
  }

  // ---------------------------------------------------------------------- the start

  lemma {:induction false} MinTimeIsLeast(ts: seq<u64>)
    requires |ts| > 0
    ensures MinTime(ts) in ts && forall x | x in ts :: MinTime(ts) <= x
  {
    assert ts == ts[..|ts| - 1] + [ts[|ts| - 1]];
    if |ts| > 1 {
      MinTimeIsLeast(ts[..|ts| - 1]);
    }
  }

  lemma {:induction false} RawTimesAreSorted(conns: seq<ConnSeries>)
    ensures forall x: u64 :: x in RawTimes(conns) <==> x in StateTimes(conns)
  {
    if |conns| > 0 {
      RawTimesAreSorted(conns[..|conns| - 1]);
      TimesOfSorted(conns[|conns| - 1].states);
    }
  }

  /** The timeline starts at its first event, or at zero when there is none. */
  lemma StartIsFirstEvent(conns: seq<ConnSeries>, end: u64)
    ensures var start := TimelineOf(conns, end).start;
            if exists x: u64 :: IsEvent(conns, x)
            then IsEvent(conns, start) && forall x: u64 | IsEvent(conns, x) :: start <= x
            else start == 0
  {
    var ts := RawTimes(conns);
    StateTimesAreEvents(conns);
    RawTimesAreSorted(conns);
    if |ts| > 0 {
      MinTimeIsLeast(ts);
      assert ts[0] in ts;
    }
  }
}
