/** The state series of every tracked connection: what keeps it non-empty, ordered and up to
    date through segments, aging, the memory backstop and ticks. */
module StateSeries {
  import opened Core
  import opened MetricSpec
  import opened Lifecycle
  import opened TrackerSpec
  import opened Recording
  import opened Eviction

  // -------------------------------------------- one state per segment is produced

  lemma {:induction false} OfConcat(a: seq<Tagged>, b: seq<Tagged>, k: Kind)
    ensures Of(a + b, k) == Of(a, k) + Of(b, k)
  {
    if |b| == 0 {
      assert a + b == a;
    } else {
      assert (a + b)[..|a + b| - 1] == a + b[..|b| - 1];
      OfConcat(a, b[..|b| - 1], k);
    }
  }

  ghost predicate NoStates(xs: seq<Tagged>) {
    forall i | 0 <= i < |xs| :: xs[i].kind != STATES
  }

  lemma {:induction false} OfNoStates(xs: seq<Tagged>)
    requires NoStates(xs)
    ensures Of(xs, STATES) == []
  {
    if |xs| > 0 {
      OfNoStates(xs[..|xs| - 1]);
    }
  }

  lemma DetailHasNoStates(d: Deriv, seg: Segment, dir: Direction, sample: Sample, cfg: Config)
    requires sample.MetricSample?
    ensures NoStates(DetailSamples(d, seg, dir, sample, cfg))
  {
    var a, b := Tag(SEQPOINTS, UnwrapInto(d.unwrap, seg, dir, sample, cfg).1), InFlightPart(d.metrics, seg.ts, cfg);
    var c, e := Tag(RTTS, SmoothInto(d.srtt, sample, cfg).1), ThroughputPart(d.metrics, seg.ts, cfg);
    assert NoStates(a) && NoStates(b) && NoStates(c) && NoStates(e);
    assert NoStates(a + b + c + e);
  }

  lemma DerivedHasNoStates(d: Deriv, id: ConnId, seg: Segment, dir: Direction, cfg: Config)
    ensures NoStates(Derived(d, id, seg, dir, cfg))
  {
    DetailHasNoStates(d.(metrics := ObserveState(d.metrics, seg, dir, cfg)), seg, dir,
                      ObserveSample(d.metrics, seg, dir, cfg), cfg);
  }

  /** Every segment produces exactly one state sample, of the state it leads to. */
  lemma ProducesOneState(s: TState, seg: Segment)
    requires s.WF() && s.cfg.collectState
    ensures Of(Produced(s, seg), STATES) == [Placed(s, seg).conns[Target(s, seg)].life.Snapshot(seg.ts)]
  {
    var l := Placed(s, seg).conns[Target(s, seg)].life;
    var d := if Joins(s, seg) then s.conns[s.live[seg.Pair()]].deriv else NO_DERIV;
    var derived := Derived(d, l.ident.id, seg, l.ident.DirectionOf(seg.src), s.cfg);
    OneAmongNone(Tagged(STATES, l.Snapshot(seg.ts)), derived, d, l.ident.id, seg,
                 l.ident.DirectionOf(seg.src), s.cfg);
  }

  lemma OneAmongNone(x: Tagged, derived: seq<Tagged>, d: Deriv, id: ConnId, seg: Segment, dir: Direction, cfg: Config)
    requires x.kind == STATES && derived == Derived(d, id, seg, dir, cfg)
    ensures Of([x] + derived, STATES) == [x.sample] && Of(derived + [x], STATES) == [x.sample]
  {
    DerivedHasNoStates(d, id, seg, dir, cfg);
    OfNoStates(derived);
    OfConcat([x], derived, STATES);
    OfConcat(derived, [x], STATES);
    assert Of([x][..0], STATES) == [];
  }

  // ----------------------------------------------------------- what recording keeps

  ghost predicate KeepsLast(after: seq<Sample>, before: seq<Sample>) {
    IsSuffix(after, before) && (before != [] ==> after != [])
  }

  /** The backstop may drop old states, never the last. */
  lemma RoomKeepsLast(s: TState, h: Hist)
    ensures KeepsLast(Room(s, h)[STATES], h[STATES])
  {
  }

  lemma KeepsLastAppend(a: seq<Sample>, b: seq<Sample>, c: seq<Sample>, x: Sample)
    requires KeepsLast(a, b) && KeepsLast(b, c)
    ensures KeepsLast(a, c) && KeepsLast(a + [x], c + [x])
  {
    SuffixTrans(a, b, c);
    SuffixAppend(a, c, x);
  }

  lemma PushedStates(p: TState, idx: nat, x: Tagged)
    requires idx < |p.conns| && !Push(p, idx, x).overflowed
    ensures !p.overflowed
    ensures var room := Room(p, p.conns[idx].hist)[STATES];
            Push(p, idx, x).conns[idx].hist[STATES] == if x.kind == STATES then room + [x.sample] else room
  {
    PushEffect(p, idx, x);
  }

  lemma PushKeepsLast(p: TState, idx: nat, x: Tagged, was: seq<Sample>)
    requires idx < |p.conns| && !Push(p, idx, x).overflowed
    requires KeepsLast(p.conns[idx].hist[STATES], was)
    ensures KeepsLast(Push(p, idx, x).conns[idx].hist[STATES], if x.kind == STATES then was + [x.sample] else was)
    ensures !p.overflowed
  {
    PushedStates(p, idx, x);
    var h := p.conns[idx].hist;
    RoomKeepsLast(p, h);
    KeepsLastAppend(Room(p, h)[STATES], h[STATES], was, x.sample);
  }

  lemma {:induction false} PushAllKeepsLast(s: TState, idx: nat, xs: seq<Tagged>)
    requires idx < |s.conns| && !PushAll(s, idx, xs).overflowed
    ensures KeepsLast(PushAll(s, idx, xs).conns[idx].hist[STATES], s.conns[idx].hist[STATES] + Of(xs, STATES))
  {
    var held := s.conns[idx].hist[STATES];
    if |xs| > 0 {
      var pre, x := xs[..|xs| - 1], xs[|xs| - 1];
      var p := PushAll(s, idx, pre);
      assert PushAll(s, idx, xs) == Push(p, idx, x);
      PushedStates(p, idx, x);
      PushAllKeepsLast(s, idx, pre);
      PushKeepsLast(p, idx, x, held + Of(pre, STATES));
      OneMoreState(held, xs);
    } else {
      assert held + Of(xs, STATES) == held;
    }
  }

  lemma OneMoreState(held: seq<Sample>, xs: seq<Tagged>)
    requires |xs| > 0
    ensures var pre, x := xs[..|xs| - 1], xs[|xs| - 1];
            held + Of(xs, STATES) ==
            if x.kind == STATES then held + Of(pre, STATES) + [x.sample] else held + Of(pre, STATES)
  {
  }

  /** Same lives, and of each state series a non-empty end. */
  ghost predicate KeepsStates(a: TState, b: TState) {
    && |a.conns| == |b.conns|
    && forall i | 0 <= i < |a.conns| ::
         b.conns[i].life == a.conns[i].life && KeepsLast(b.conns[i].hist[STATES], a.conns[i].hist[STATES])
  }

  lemma AgingKeepsStates(s: TState)
    ensures KeepsStates(s, EvictSamples(s))
  {
    if s.cfg.retention.Evict? {
      var horizon := Horizon(s.now, s.cfg.retention.horizon);
      forall i | 0 <= i < |s.conns|
        ensures KeepsLast(AgeHist(s.conns[i].hist, horizon)[STATES], s.conns[i].hist[STATES])
      {
        EvictFrontIsSuffix(s.conns[i].hist[STATES], horizon, 1);
      }
    }
  }

  lemma RecordingKeepsStates(s: TState, idx: nat, xs: seq<Tagged>)
    requires idx < |s.conns| && NoStates(xs) && !PushAll(s, idx, xs).overflowed
    ensures KeepsStates(s, PushAll(s, idx, xs))
  {
    PushAllKeepsLast(s, idx, xs);
    OfNoStates(xs);
    assert s.conns[idx].hist[STATES] + [] == s.conns[idx].hist[STATES];
  }

  lemma {:induction false} DecayKeepsStates(s: TState, t: u64, n: nat)
    requires n <= |s.conns| && !DecayUpTo(s, t, n).overflowed
    ensures KeepsStates(s, DecayUpTo(s, t, n))
    ensures !s.overflowed
  {
    if n > 0 {
      DecayStep(s, t, n);
      DecayOneKeepsStates(DecayUpTo(s, t, n - 1), DecayUpTo(s, t, n), n - 1, t);
      DecayKeepsStates(s, t, n - 1);
      KeepsStatesTrans(s, DecayUpTo(s, t, n - 1), DecayUpTo(s, t, n));
    }
  }

  lemma DecayOneKeepsStates(p: TState, r: TState, i: nat, t: u64)
    requires i < |p.conns| && DecaysTo(p, r, i, t) && !r.overflowed
    ensures !p.overflowed && KeepsStates(p, r)
  {
    if r != p {
      var m := p.conns[i].deriv.metrics;
      var q := CollectThroughputAt(p, i, t);
      assert !p.overflowed && !q.overflowed;
      if p.cfg.collectThroughput {
        RecordingKeepsStates(p, i, Tag(THROUGHPUT, ThroughputPoints(m, t, p.cfg.throughputWindow)));
      }
      if q.cfg.collectInFlight {
        RecordingKeepsStates(q, i, Tag(INFLIGHT, InFlightPoints(q.conns[i].deriv.metrics, t)));
      }
      KeepsStatesTrans(p, q, r);
    }
  }

  lemma KeepsStatesTrans(a: TState, b: TState, c: TState)
    requires KeepsStates(a, b) && KeepsStates(b, c)
    ensures KeepsStates(a, c)
  {
    forall i | 0 <= i < |a.conns|
      ensures KeepsLast(c.conns[i].hist[STATES], a.conns[i].hist[STATES])
    {
      SuffixTrans(c.conns[i].hist[STATES], b.conns[i].hist[STATES], a.conns[i].hist[STATES]);
    }
  }

  // ------------------------------------------------------------------ two invariants

  /** States, none of them in the future. */
  ghost predicate StatesBy(h: seq<Sample>, now: u64) {
    forall j | 0 <= j < |h| :: h[j].StateSample? && h[j].t <= now
  }

  /** The connection has opened and has states, none of them in the future. */
  ghost predicate Resolvable(c: Conn, now: u64) {
    c.life.ident.openedAt <= now && |c.hist[STATES]| > 0 && StatesBy(c.hist[STATES], now)
  }

  /** The states are in order and the last one is the connection's state and bytes now. */
  ghost predicate UpToDate(c: Conn, latest: u64) {
    var h := c.hist[STATES];
    && |h| > 0 && Sorted(h) && NoLaterThan(h, latest)
    && h[|h| - 1] == c.life.Snapshot(h[|h| - 1].t)
  }

  ghost predicate AllResolvable(s: TState) {
    forall i | 0 <= i < |s.conns| :: Resolvable(s.conns[i], s.now)
  }

  ghost predicate AllUpToDate(s: TState, latest: u64) {
    forall i | 0 <= i < |s.conns| :: UpToDate(s.conns[i], latest)
  }

  lemma KeepingKeeps(a: TState, b: TState, latest: u64)
    requires KeepsStates(a, b) && a.now <= b.now
    ensures AllResolvable(a) ==> AllResolvable(b)
    ensures AllUpToDate(a, latest) ==> AllUpToDate(b, latest)
  {
    forall i | 0 <= i < |a.conns|
      ensures Resolvable(a.conns[i], a.now) ==> Resolvable(b.conns[i], b.now)
      ensures UpToDate(a.conns[i], latest) ==> UpToDate(b.conns[i], latest)
    {
      var g, h := a.conns[i].hist[STATES], b.conns[i].hist[STATES];
      assert forall j | 0 <= j < |h| :: h[j] == g[|g| - |h| + j];
    }
  }

  lemma PushedIsCurrent(h: seq<Sample>, was: seq<Sample>, l: Life, ts: u64)
    requires KeepsLast(h, was + [l.Snapshot(ts)])
    ensures |h| > 0 && h[|h| - 1] == l.Snapshot(ts)
    ensures forall j | 0 <= j < |h| - 1 :: h[j] in was
    ensures Sorted(was) && NoLaterThan(was, ts) ==> Sorted(h) && NoLaterThan(h, ts)
  {
    var full := was + [l.Snapshot(ts)];
    assert forall j | 0 <= j < |h| :: h[j] == full[|full| - |h| + j];
  }

  function StatesOf(s: TState, idx: nat): seq<Sample> {
    if idx < |s.conns| then s.conns[idx].hist[STATES] else []
  }

  /** `r` is `s` with connection `idx` moved on to life `l`, its states now ending in that
      life's state at `ts`, and every other connection alone. */
  ghost predicate MovesTo(s: TState, r: TState, idx: nat, l: Life, ts: u64) {
    && idx < |r.conns| && |r.conns| == Max(|s.conns|, idx + 1) && idx <= |s.conns| && r.now == s.now
    && r.conns[idx].life == l
    && l.ident.openedAt == (if idx < |s.conns| then s.conns[idx].life.ident.openedAt else ts)
    && KeepsLast(r.conns[idx].hist[STATES], StatesOf(s, idx) + [l.Snapshot(ts)])
    && forall i | 0 <= i < |s.conns| && i != idx :: r.conns[i] == s.conns[i]
  }

  lemma PlacedOpened(s: TState, seg: Segment)
    requires s.WF()
    ensures var l := Placed(s, seg).conns[Target(s, seg)].life;
            l.ident.openedAt == if Joins(s, seg) then s.conns[Target(s, seg)].life.ident.openedAt else seg.ts
    ensures Target(s, seg) <= |s.conns| && (Target(s, seg) < |s.conns| <==> Joins(s, seg))
    ensures forall i | 0 <= i < |s.conns| && i != Target(s, seg) :: Placed(s, seg).conns[i] == s.conns[i]
  {
  }

  lemma SegmentMoves(s: TState, seg: Segment)
    requires s.WF() && s.cfg.collectState && !ObserveSegment(s, seg).overflowed
    ensures MovesTo(s, ObserveSegment(s, seg), Target(s, seg), Placed(s, seg).conns[Target(s, seg)].life, seg.ts)
  {
    var p, idx, xs := Placed(s, seg), Target(s, seg), Produced(s, seg);
    ObserveSegmentIsPut(s, seg);
    ProducesOneState(s, seg);
    PlacedOpened(s, seg);
    PlacedRecordsNothing(s, seg);
    PushAllKeepsLast(p, idx, xs);
    assert p.conns[idx].hist[STATES] == StatesOf(s, idx);
    PutMoves(s, p, PushAll(p, idx, xs), idx);
  }

  lemma PutMoves(s: TState, p: TState, r: TState, idx: nat)
    requires idx < |p.conns| && Records(p, r, idx) && p.now == s.now
    requires |p.conns| == Max(|s.conns|, idx + 1) && idx <= |s.conns|
    requires forall i | 0 <= i < |s.conns| && i != idx :: p.conns[i] == s.conns[i]
    ensures r.conns[idx].life == p.conns[idx].life && r.now == s.now && |r.conns| == |p.conns|
    ensures forall i | 0 <= i < |s.conns| && i != idx :: r.conns[i] == s.conns[i]
  {
  }

  /** A connection whose states end with its own state at `ts`. */
  lemma MovedConn(c: Conn, was: seq<Sample>, ts: u64)
    requires KeepsLast(c.hist[STATES], was + [c.life.Snapshot(ts)])
    ensures forall now: u64 | ts <= now && c.life.ident.openedAt <= now && StatesBy(was, now) :: Resolvable(c, now)
    ensures Sorted(was) && NoLaterThan(was, ts) ==> UpToDate(c, ts)
  {
    PushedIsCurrent(c.hist[STATES], was, c.life, ts);
    var h := c.hist[STATES];
    forall now: u64 | ts <= now && c.life.ident.openedAt <= now && StatesBy(was, now)
      ensures Resolvable(c, now)
    {
      assert forall j | 0 <= j < |h| - 1 :: h[j] in was;
    }
  }

  /** Everything but connection `idx` stands as it was. */
  ghost predicate OthersStand(s: TState, r: TState, idx: nat) {
    && idx < |r.conns| && |r.conns| == Max(|s.conns|, idx + 1) && idx <= |s.conns| && r.now == s.now
    && forall i | 0 <= i < |s.conns| && i != idx :: r.conns[i] == s.conns[i]
  }

  lemma StandingResolvable(s: TState, r: TState, idx: nat)
    requires OthersStand(s, r, idx) && AllResolvable(s) && Resolvable(r.conns[idx], r.now)
    ensures AllResolvable(r)
  {
    forall i | 0 <= i < |r.conns|
      ensures Resolvable(r.conns[i], r.now)
    {
      assert i != idx ==> r.conns[i] == s.conns[i] && Resolvable(s.conns[i], s.now);
    }
  }

  lemma UpToDateLater(c: Conn, latest: u64, later: u64)
    requires UpToDate(c, latest) && latest <= later
    ensures UpToDate(c, later)
  {
  }

  lemma StandingUpToDate(s: TState, r: TState, idx: nat, latest: u64, later: u64)
    requires OthersStand(s, r, idx) && AllUpToDate(s, latest) && latest <= later && UpToDate(r.conns[idx], later)
    ensures AllUpToDate(r, later)
  {
    forall i | 0 <= i < |r.conns|
      ensures UpToDate(r.conns[i], later)
    {
      if i != idx {
        assert r.conns[i] == s.conns[i];
        UpToDateLater(s.conns[i], latest, later);
      }
    }
  }

  lemma MovingKeepsResolvable(s: TState, r: TState, idx: nat, l: Life, ts: u64)
    requires MovesTo(s, r, idx, l, ts) && AllResolvable(s) && ts <= s.now
    ensures AllResolvable(r)
  {
    MovedConn(r.conns[idx], StatesOf(s, idx), ts);
    assert idx < |s.conns| ==> Resolvable(s.conns[idx], s.now);
    assert StatesBy(StatesOf(s, idx), s.now);
    StandingResolvable(s, r, idx);
  }

  lemma WasInOrder(s: TState, idx: nat, latest: u64, ts: u64)
    requires AllUpToDate(s, latest) && latest <= ts
    ensures Sorted(StatesOf(s, idx)) && NoLaterThan(StatesOf(s, idx), ts)
  {
    assert idx < |s.conns| ==> UpToDate(s.conns[idx], latest);
  }

  lemma MovingKeepsUpToDate(s: TState, r: TState, idx: nat, l: Life, ts: u64, latest: u64)
    requires idx < |r.conns| && r.conns[idx].life == l && OthersStand(s, r, idx)
    requires KeepsLast(r.conns[idx].hist[STATES], StatesOf(s, idx) + [l.Snapshot(ts)])
    requires AllUpToDate(s, latest) && latest <= ts
    ensures AllUpToDate(r, ts)
  {
    WasInOrder(s, idx, latest, ts);
    MovedConn(r.conns[idx], StatesOf(s, idx), ts);
    StandingUpToDate(s, r, idx, latest, ts);
  }

  lemma SegmentKeepsStates(s: TState, seg: Segment, latest: u64)
    requires s.WF() && s.cfg.collectState && !ObserveSegment(s, seg).overflowed
    ensures AllResolvable(s) && seg.ts <= s.now ==> AllResolvable(EvictSamples(ObserveSegment(s, seg)))
    ensures AllUpToDate(s, latest) && latest <= seg.ts ==>
              AllUpToDate(EvictSamples(ObserveSegment(s, seg)), seg.ts)
  {
    SegmentMoves(s, seg);
    var r := ObserveSegment(s, seg);
    var l := Placed(s, seg).conns[Target(s, seg)].life;
    if AllResolvable(s) && seg.ts <= s.now {
      MovingKeepsResolvable(s, r, Target(s, seg), l, seg.ts);
    }
    if AllUpToDate(s, latest) && latest <= seg.ts {
      MovingKeepsUpToDate(s, r, Target(s, seg), l, seg.ts, latest);
    }
    AgingKeepsStates(r);
    KeepingKeeps(r, EvictSamples(r), seg.ts);
  }
}
