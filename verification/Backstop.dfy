/** The memory backstop of the live program can be passed: under every retention window and
    every ceiling there is a run that fills the ceiling exactly, and then a connection whose
    first segment takes the count past it. */
module Backstop {
  import opened Core
  import opened TrackerSpec
  import opened TrackerLives
  import opened Recording
  import opened Walk
  import opened Accounting
  import StateSeries

  // ------------------------------------------------ recording on a fresh connection

  /** Room is used up to the ceiling `n`; a full ceiling is passed by one. */
  predicate Fills(before: nat, after: nat, n: nat) {
    (before < n ==> before < after <= n) && (before == n ==> after == n + 1)
  }

  lemma FirstPushFills(p: TState, idx: nat, x: Tagged)
    requires idx < |p.conns| && p.cfg.retention.Evict? && !p.overflowed && p.conns[idx].hist == NO_HIST
    requires p.collected <= p.cfg.retention.ceiling
    ensures var r := Push(p, idx, x);
            && Fills(p.collected, r.collected, p.cfg.retention.ceiling) && !r.overflowed
            && (x.kind != STATES ==> CanPop(r.conns[idx].hist))
  {
    PushEffect(p, idx, x);
    assert !CanPop(NO_HIST) && Room(p, NO_HIST) == NO_HIST;
    HasOneToPop(Append(NO_HIST, x.kind, x.sample), x.kind);
  }

  lemma HasOneToPop(h: Hist, k: Kind)
    ensures k != STATES && |h[k]| > 0 ==> CanPop(h)
  {
    assert Evictable(h, k) <= Evictable(h, Longest(h, KINDS));
  }

  /** Once the connection has something to give up, one more sample never passes the
      ceiling again. */
  lemma LaterPushFills(p: TState, idx: nat, x: Tagged, before: nat)
    requires idx < |p.conns| && p.cfg.retention.Evict? && !p.overflowed && CanPop(p.conns[idx].hist)
    requires before <= p.cfg.retention.ceiling && Fills(before, p.collected, p.cfg.retention.ceiling)
    ensures var r := Push(p, idx, x);
            && Fills(before, r.collected, p.cfg.retention.ceiling) && !r.overflowed
            && (x.kind != STATES ==> CanPop(r.conns[idx].hist))
  {
    PushEffect(p, idx, x);
    var h := Append(Room(p, p.conns[idx].hist), x.kind, x.sample);
    HasOneToPop(h, x.kind);
  }

  lemma {:induction false} PushesFill(p: TState, idx: nat, xs: seq<Tagged>)
    requires idx < |p.conns| && p.cfg.retention.Evict? && !p.overflowed && p.conns[idx].hist == NO_HIST
    requires p.collected <= p.cfg.retention.ceiling && |xs| > 0
    requires forall i | 0 <= i < |xs| - 1 :: xs[i].kind != STATES
    ensures var r := PushAll(p, idx, xs);
            && Fills(p.collected, r.collected, p.cfg.retention.ceiling) && !r.overflowed
            && (xs[|xs| - 1].kind != STATES ==> CanPop(r.conns[idx].hist))
  {
    var pre, x := xs[..|xs| - 1], xs[|xs| - 1];
    if |pre| == 0 {
      FirstPushFills(p, idx, x);
    } else {
      PushesFill(p, idx, pre);
      LaterPushFills(PushAll(p, idx, pre), idx, x, p.collected);
    }
  }

  // ------------------------------------------------------------ nothing has aged yet

  ghost predicate HistFrom(h: Hist, t: u64) {
    forall k: Kind, i | 0 <= i < |h[k]| :: h[k][i].t >= t
  }

  ghost predicate AllFrom(s: TState, t: u64) {
    forall i | 0 <= i < |s.conns| :: HistFrom(s.conns[i].hist, t)
  }

  ghost function From(t: u64): TState -> bool { (s: TState) => AllFrom(s, t) }

  lemma PushFrom(s: TState, idx: nat, x: Tagged, t: u64)
    requires idx < |s.conns| && AllFrom(s, t) && x.sample.t >= t
    ensures AllFrom(Push(s, idx, x), t)
  {
    PushEffect(s, idx, x);
    assert HistFrom(s.conns[idx].hist, t);
    RoomFrom(s, s.conns[idx].hist, t);
    AppendFrom(Room(s, s.conns[idx].hist), x.kind, x.sample, t);
  }

  lemma RoomFrom(s: TState, h: Hist, t: u64)
    requires HistFrom(h, t)
    ensures HistFrom(Room(s, h), t)
  {
    var room := Room(s, h);
    forall k: Kind, i | 0 <= i < |room[k]|
      ensures room[k][i].t >= t
    {
      assert room[k][i] == h[k][i] || room[k][i] == h[k][i + 1];
    }
  }

  lemma AppendFrom(h: Hist, k: Kind, x: Sample, t: u64)
    requires HistFrom(h, t) && x.t >= t
    ensures HistFrom(Append(h, k, x), t)
  {}

  lemma MovesFrom(t: u64, stamp: u64)
    requires t <= stamp
    ensures KeptByMoves(From(t), stamp)
  {
    forall s: TState, idx: nat, x: Tagged | idx < |s.conns| && From(t)(s) && Sound(x, stamp)
      ensures From(t)(Push(s, idx, x))
    {
      PushFrom(s, idx, x, t);
    }
  }

  /** No recording of a segment at `t` or later is from before `t`. */
  lemma SegmentFrom(s: TState, seg: Segment, t: u64)
    requires s.WF() && AllFrom(s, t) && t <= seg.ts
    ensures AllFrom(ObserveSegment(s, seg), t)
  {
    MovesFrom(t, seg.ts);
    BegunFrom(s, seg, t);
    SegmentKeeps(s, seg, From(t));
  }

  lemma BegunFrom(s: TState, seg: Segment, t: u64)
    requires s.WF() && AllFrom(s, t)
    ensures AllFrom(Begun(s, seg), t)
  {
  }

  lemma AgeHistNothing(h: Hist, horizon: u64)
    requires HistFrom(h, horizon)
    ensures AgeHist(h, horizon) == h
  {
    assert forall k: Kind :: EvictFront(h[k], horizon, KeepMin(k)) == h[k];
  }

  lemma AgesNothing(s: TState, t: u64)
    requires AllFrom(s, t) && (s.cfg.retention.Evict? ==> Horizon(s.now, s.cfg.retention.horizon) <= t)
    ensures EvictSamples(s) == s
  {
    if s.cfg.retention.Evict? {
      var horizon := Horizon(s.now, s.cfg.retention.horizon);
      forall i | 0 <= i < |s.conns|
        ensures AgeHist(s.conns[i].hist, horizon) == s.conns[i].hist
      {
        assert HistFrom(s.conns[i].hist, t);
        AgeHistNothing(s.conns[i].hist, horizon);
      }
      assert AgeAll(s.conns, horizon) == s.conns;
    }
  }

  // ---------------------------------------------------------- opening a connection

  /** A tracker whose samples are all of the present moment `t`. */
  ghost predicate Present(s: TState, t: u64) {
    && s.WF() && s.cfg.retention.Evict? && s.cfg.collectState && Accounted(s)
    && s.now == t && AllFrom(s, t)
  }

  lemma OpeningProduces(s: TState, seg: Segment)
    requires s.WF() && s.cfg.collectState && seg.Pair() !in s.live
    ensures var xs := Produced(s, seg);
            && |xs| > 0 && forall i | 0 <= i < |xs| - 1 :: xs[i].kind != STATES
  {
    var l := Opened(s, seg).conns[|s.conns|].life;
    StateSeries.DerivedHasNoStates(NO_DERIV, l.ident.id, seg, l.ident.DirectionOf(seg.src), s.cfg);
  }

  /** The first segment of an untracked pair takes up room, and passes a full ceiling. */
  lemma OpeningFills(s: TState, seg: Segment)
    requires Present(s, seg.ts) && seg.Pair() !in s.live && s.collected <= s.cfg.retention.ceiling
    ensures var r := EvictSamples(ObserveSegment(s, seg));
            && Fills(s.collected, r.collected, s.cfg.retention.ceiling)
            && r.live == s.live[seg.Pair() := |s.conns|]
  {
    ObserveSegmentAccounted(s, seg);
    ObserveSegmentIsPut(s, seg);
    PlacedRecordsNothing(s, seg);
    OpeningProduces(s, seg);
    PushesFill(Placed(s, seg), Target(s, seg), Produced(s, seg));
    SegmentStaysPresent(s, seg);
    AgesNothing(ObserveSegment(s, seg), seg.ts);
    SegmentLives(s, seg);
  }

  lemma SegmentStaysPresent(s: TState, seg: Segment)
    requires Present(s, seg.ts)
    ensures Present(ObserveSegment(s, seg), seg.ts)
  {
    ObserveSegmentAccounted(s, seg);
    SegmentFrom(s, seg, seg.ts);
    assert SameClock(s, ObserveSegment(s, seg)) by { SegmentLives(s, seg); }
  }

  predicate SameClock(a: TState, b: TState) { b.cfg == a.cfg && b.now == a.now }

  // --------------------------------------------------------------------- the witness

  /** The opening SYN of the `k`-th of a row of clients, all at time `t`. */
  function Client(t: u64, k: nat): Segment {
    Segment(t, Endpoint(k + 1, 0), Endpoint(0, 0), 0, 0, Flags(false, true, false, false), [], 0)
  }

  function Clients(t: u64, n: nat): seq<Item> {
    if n == 0 then [] else Clients(t, n - 1) + [Seg(Client(t, n - 1))]
  }

  lemma ClientsDiffer(t: u64, j: nat, k: nat)
    requires j != k
    ensures Client(t, j).Pair() != Client(t, k).Pair()
  {
    CanonicalIdentifiesUnorderedPairs(Client(t, j).src, Client(t, j).dst, Client(t, k).src, Client(t, k).dst);
  }

  /** Only the first `n` clients are tracked. */
  ghost predicate OnlyClients(s: TState, t: u64, n: nat) {
    forall p | p in s.live :: exists k: nat :: k < n && p == Client(t, k).Pair()
  }

  lemma NextClientIsNew(s: TState, t: u64, n: nat)
    requires OnlyClients(s, t, n)
    ensures Client(t, n).Pair() !in s.live
  {
    forall k: nat | k < n
      ensures Client(t, k).Pair() != Client(t, n).Pair()
    {
      ClientsDiffer(t, k, n);
    }
  }

  /** After clients have opened. */
  ghost predicate Clientele(cfg: Config, t: u64, n: nat) {
    var s := Run(cfg, Clients(t, n));
    var now := s.(now := t);
    Present(now, t) && OnlyClients(s, t, n) && s.now <= t && s.cfg == cfg
  }

  lemma LastClient(cfg: Config, t: u64, n: nat)
    ensures Run(cfg, Clients(t, n + 1)) ==
            var s := Run(cfg, Clients(t, n));
            EvictSamples(ObserveSegment(s.(now := Max(s.now, t)), Client(t, n)))
  {
    var items := Clients(t, n + 1);
    assert items[..|items| - 1] == Clients(t, n);
  }

  /** One more client. */
  lemma NextClient(cfg: Config, t: u64, n: nat)
    requires Clientele(cfg, t, n)
    ensures Clientele(cfg, t, n + 1)
    ensures var s, r := Run(cfg, Clients(t, n)), Run(cfg, Clients(t, n + 1));
            && Client(t, n).Pair() !in s.live
            && (s.collected <= cfg.retention.ceiling ==> Fills(s.collected, r.collected, cfg.retention.ceiling))
  {
    var s := Run(cfg, Clients(t, n));
    var now := s.(now := t);
    var seg := Client(t, n);
    LastClient(cfg, t, n);
    NextClientIsNew(s, t, n);
    SegmentStaysPresent(now, seg);
    AgesNothing(ObserveSegment(now, seg), t);
    if s.collected <= cfg.retention.ceiling {
      OpeningFills(now, seg);
    }
    SegmentLives(now, seg);
    var r := Run(cfg, Clients(t, n + 1));
    forall p | p in r.live
      ensures exists k: nat :: k < n + 1 && p == Client(t, k).Pair()
    {
      if p == seg.Pair() {
        assert p == Client(t, n).Pair();
      } else {
        assert p in s.live;
      }
    }
  }

  lemma {:induction false} ClientsReach(cfg: Config, t: u64, n: nat) returns (m: nat)
    requires Clientele(cfg, t, n) && Run(cfg, Clients(t, n)).collected <= cfg.retention.ceiling
    ensures Clientele(cfg, t, m) && Run(cfg, Clients(t, m)).collected == cfg.retention.ceiling
    decreases cfg.retention.ceiling - Run(cfg, Clients(t, n)).collected
  {
    if Run(cfg, Clients(t, n)).collected == cfg.retention.ceiling {
      m := n;
    } else {
      NextClient(cfg, t, n);
      m := ClientsReach(cfg, t, n + 1);
    }
  }

  /** The backstop is not hard in any live configuration: whatever the window, the ceiling and
      the other gates, clients opening at one moment fill the ceiling exactly, and then the next
      new client takes the count one past it. */
  lemma BackstopCanBePassed(cfg: Config, t: u64) returns (items: seq<Item>, seg: Segment)
    requires cfg.retention.Evict? && cfg.collectState
    ensures Run(cfg, items).collected == cfg.retention.ceiling
    ensures seg.Pair() !in Run(cfg, items).live
    ensures Run(cfg, items + [Seg(seg)]).collected == cfg.retention.ceiling + 1
  {
    assert Clients(t, 0) == [] && Run(cfg, []) == New(cfg);
    assert Clientele(cfg, t, 0);
    var m := ClientsReach(cfg, t, 0);
    NextClient(cfg, t, m);
    items, seg := Clients(t, m), Client(t, m);
  }
}
