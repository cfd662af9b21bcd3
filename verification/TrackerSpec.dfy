/** The tracker as a function on values: what every item does to the tracked connections,
    to the pair index, and to the retained samples. */
module TrackerSpec {
  import opened Core
  import opened MetricSpec
  import opened Unwrap
  import opened Srtt
  import opened Lifecycle

  // ----------------------------------------------------------------- data

  /** Derived state of an instance that no retention policy may touch. */
  datatype Deriv = Deriv(
    metrics: PerDir<DirState>, srtt: PerDir<Option<u64>>, unwrap: PerDir<Option<Frontier>>)

  const NO_DERIV: Deriv := Deriv(PerDir(FRESH, FRESH), PerDir(None, None), PerDir(None, None))

  // The six retained series of an instance, in the order the memory backstop ranks them.
  const STATES: int := 0
  const SERIES: int := 1
  const SEQPOINTS: int := 2
  const INFLIGHT: int := 3
  const RTTS: int := 4
  const THROUGHPUT: int := 5
  const KINDS: int := 6

  const NO_HIST: seq<seq<Sample>> := [[], [], [], [], [], []]

  type Kind = k: int | 0 <= k < KINDS
  type Hist = h: seq<seq<Sample>> | |h| == KINDS witness [[], [], [], [], [], []]

  datatype Conn = Conn(life: Life, deriv: Deriv, hist: Hist)

  datatype Tagged = Tagged(kind: Kind, sample: Sample)

  datatype TState = TState(
    cfg: Config, conns: seq<Conn>, live: map<EndpointPair, nat>, nextInstance: map<EndpointPair, nat>,
    collected: nat, overflowed: bool, now: u64)
  {
    predicate WF() { forall p | p in live :: live[p] < |conns| }
  }

  function New(cfg: Config): TState { TState(cfg, [], map[], map[], 0, false, 0) }

  function HistLen(h: Hist): nat { |h[0]| + |h[1]| + |h[2]| + |h[3]| + |h[4]| + |h[5]| }

  function TotalLen(conns: seq<Conn>): nat {
    if |conns| == 0 then 0 else TotalLen(conns[..|conns| - 1]) + HistLen(conns[|conns| - 1].hist)
  }

  /** Same in everything but the connections' contents and the sample accounting. */
  predicate SameFrame(a: TState, b: TState) {
    && a.cfg == b.cfg && |a.conns| == |b.conns| && a.live == b.live
    && a.nextInstance == b.nextInstance && a.now == b.now
  }

  /** Changes nothing but the derived state and the series of connection `idx`. */
  predicate Touches(a: TState, b: TState, idx: nat)
    requires idx < |a.conns|
  {
    && SameFrame(a, b)
    && b.conns == a.conns[idx := b.conns[idx]]
    && b.conns[idx].life == a.conns[idx].life
  }

  /** Changes nothing but the series of connection `idx`. */
  predicate Records(a: TState, b: TState, idx: nat)
    requires idx < |a.conns|
  {
    Touches(a, b, idx) && b.conns[idx].deriv == a.conns[idx].deriv
  }

  // ------------------------------------------------------------- retention

  /** How many samples of each series could be dropped; the last state is never dropped. */
  function Evictable(h: Hist, k: Kind): nat {
    if k == STATES then SatSub(|h[k]|, 1) else |h[k]|
  }

  /** The last of the longest evictable series among the first `n`. */
  function Longest(h: Hist, n: nat): (k: Kind)
    requires 0 < n <= KINDS
    ensures k < n && forall j: Kind | j < n :: Evictable(h, j) <= Evictable(h, k)
    ensures forall j: Kind | k < j < n :: Evictable(h, j) < Evictable(h, k)
  {
    if n == 1 then STATES
    else
      var b := Longest(h, n - 1);
      if Evictable(h, n - 1) >= Evictable(h, b) then n - 1 else b
  }

  predicate CanPop(h: Hist) { Evictable(h, Longest(h, KINDS)) > 0 }

  /** Drops the oldest sample of the longest series. */
  function PopLongest(h: Hist): Hist {
    var k := Longest(h, KINDS);
    if CanPop(h) then h[k := h[k][1..]] else h
  }

  function SetHist(s: TState, idx: nat, h: Hist): (r: TState)
    requires idx < |s.conns|
    ensures Records(s, r, idx)
  {
    s.(conns := s.conns[idx := s.conns[idx].(hist := h)])
  }

  function SetDeriv(s: TState, idx: nat, d: Deriv): (r: TState)
    requires idx < |s.conns|
    ensures Touches(s, r, idx)
  {
    s.(conns := s.conns[idx := s.conns[idx].(deriv := d)])
  }

  /** Asks for room for one sample on connection `idx`. */
  function Admit(s: TState, idx: nat): (r: (TState, bool))
    requires idx < |s.conns|
    ensures Records(s, r.0, idx)
  {
    if s.collected < s.cfg.retention.MaxSamples() then
      (s.(collected := s.collected + 1), true)
    else if s.cfg.retention.Evict? then
      var h := s.conns[idx].hist;
      var room := if CanPop(h) then SatSub(s.collected, 1) else s.collected;
      (SetHist(s, idx, PopLongest(h)).(collected := room + 1), true)
    else (s.(overflowed := true), false)
  }

  function Append(h: Hist, k: Kind, x: Sample): Hist { h[k := h[k] + [x]] }

  /** Records one sample, unless collection has already failed. */
  function Push(s: TState, idx: nat, x: Tagged): (r: TState)
    requires idx < |s.conns|
    ensures Records(s, r, idx)
  {
    if s.overflowed then s
    else
      var (s', admitted) := Admit(s, idx);
      if admitted then SetHist(s', idx, Append(s'.conns[idx].hist, x.kind, x.sample)) else s'
  }

  /** Whether recording on this tracker would fail, or has failed already. */
  predicate Refuses(s: TState) {
    s.overflowed || (s.collected >= s.cfg.retention.MaxSamples() && s.cfg.retention.FailFast?)
  }

  /** The series `h` once room has been made in it for one more sample. */
  function Room(s: TState, h: Hist): Hist {
    if s.collected < s.cfg.retention.MaxSamples() then h else PopLongest(h)
  }

  lemma PushEffect(s: TState, idx: nat, x: Tagged)
    requires idx < |s.conns|
    ensures var c := s.conns[idx];
            var popped := s.collected >= s.cfg.retention.MaxSamples() && CanPop(c.hist);
            Push(s, idx, x) ==
              if Refuses(s) then s.(overflowed := true)
              else s.(conns := s.conns[idx := c.(hist := Append(Room(s, c.hist), x.kind, x.sample))],
                      collected := (if popped then SatSub(s.collected, 1) else s.collected) + 1)
  {
    var c := s.conns[idx];
    if !Refuses(s) && s.collected >= s.cfg.retention.MaxSamples() {
      var popped := c.(hist := PopLongest(c.hist));
      var after := c.(hist := Append(popped.hist, x.kind, x.sample));
      assert s.conns[idx := popped][idx := after] == s.conns[idx := after];
    }
  }

  function PushAll(s: TState, idx: nat, xs: seq<Tagged>): (r: TState)
    requires idx < |s.conns|
    ensures Records(s, r, idx)
  {
    if |xs| == 0 then s else Push(PushAll(s, idx, xs[..|xs| - 1]), idx, xs[|xs| - 1])
  }

  /** Drops samples older than the horizon from the front, keeping at least `keepMin`. */
  function EvictFront(dq: seq<Sample>, horizon: u64, keepMin: nat): (r: seq<Sample>)
    ensures |r| <= |dq|
  {
    if |dq| > keepMin && dq[0].t < horizon then EvictFront(dq[1..], horizon, keepMin) else dq
  }

  function KeepMin(k: Kind): nat { if k == STATES then 1 else 0 }

  function AgeHist(h: Hist, horizon: u64): Hist {
    [EvictFront(h[0], horizon, 1), EvictFront(h[1], horizon, 0), EvictFront(h[2], horizon, 0),
     EvictFront(h[3], horizon, 0), EvictFront(h[4], horizon, 0), EvictFront(h[5], horizon, 0)]
  }

  function AgeAll(conns: seq<Conn>, horizon: u64): (r: seq<Conn>)
    ensures |r| == |conns|
  {
    seq(|conns|, i requires 0 <= i < |conns| => conns[i].(hist := AgeHist(conns[i].hist, horizon)))
  }

  function Horizon(now: u64, window: u64): u64 { SatSub(now, window) }

  function EvictSamples(s: TState): (r: TState)
    ensures SameFrame(s, r)
  {
    if s.cfg.retention.FailFast? then s
    else
      var aged := AgeAll(s.conns, Horizon(s.now, s.cfg.retention.horizon));
      s.(conns := aged, collected := SatSub(s.collected, TotalLen(s.conns) - TotalLen(aged)))
  }

  // ------------------------------------------------------- derived series

  function SackPoints(f: Option<Frontier>, lefts: seq<u32>, t: u64, acked: Direction)
    : (Option<Frontier>, seq<Sample>)
  {
    if |lefts| == 0 then (f, [])
    else
      var (g, points) := SackPoints(f, lefts[..|lefts| - 1], t, acked);
      var (g', rel) := Offset(g, lefts[|lefts| - 1]);
      (g', points + [SeqSample(t, acked, rel, 0, Sack)])
  }

  /** A data point in the segment's own direction, and one point for each SACK block in the
      direction it acknowledges. */
  function SeqPoints(u: PerDir<Option<Frontier>>, seg: Segment, d: Direction, retransmit: bool, outOfOrder: bool)
    : (PerDir<Option<Frontier>>, seq<Sample>)
  {
    var (own, rel) := Offset(u.Get(d), seg.seqNo);
    var u1 := if seg.IsData() then u.Set(d, own) else u;
    var data := if seg.IsData() then [SeqSample(seg.ts, d, rel, seg.payloadLen, Data(retransmit, outOfOrder))]
                else [];
    var acked := d.Opposite();
    var (other, sacks) := SackPoints(u1.Get(acked), seg.sackLefts, seg.ts, acked);
    (u1.Set(acked, other), data + sacks)
  }

  function InFlightPoint(m: PerDir<DirState>, d: Direction, t: u64): seq<Sample> {
    var b := InFlight(m.Get(d));
    if b.Some? then [InFlightSample(t, d, b.value)] else []
  }

  function InFlightPoints(m: PerDir<DirState>, t: u64): seq<Sample> {
    InFlightPoint(m, OriginToResponder, t) + InFlightPoint(m, ResponderToOrigin, t)
  }

  function ThroughputPoint(m: PerDir<DirState>, d: Direction, t: u64, window: u64): seq<Sample> {
    var r := MetricSpec.ThroughputAt(m.Get(d), t, window);
    if r.Some? then [ThroughputSample(t, d, r.value.total, r.value.good)] else []
  }

  function ThroughputPoints(m: PerDir<DirState>, t: u64, window: u64): seq<Sample> {
    ThroughputPoint(m, OriginToResponder, t, window) + ThroughputPoint(m, ResponderToOrigin, t, window)
  }

  function Tag(k: Kind, xs: seq<Sample>): (r: seq<Tagged>)
    ensures |r| == |xs| && forall i | 0 <= i < |xs| :: r[i] == Tagged(k, xs[i])
  {
    seq(|xs|, i requires 0 <= i < |xs| => Tagged(k, xs[i]))
  }

  function CollectSeq(s: TState, idx: nat, seg: Segment, d: Direction, sample: Sample): (r: TState)
    requires idx < |s.conns| && sample.MetricSample?
    ensures Touches(s, r, idx)
  {
    if s.overflowed || !s.cfg.collectSeq then s
    else
      var deriv := s.conns[idx].deriv;
      var (u, points) := SeqPoints(deriv.unwrap, seg, d, sample.retransmit, sample.outOfOrder);
      PushAll(SetDeriv(s, idx, deriv.(unwrap := u)), idx, Tag(SEQPOINTS, points))
  }

  function CollectInFlightAt(s: TState, idx: nat, t: u64): (r: TState)
    requires idx < |s.conns|
    ensures Records(s, r, idx)
  {
    if s.overflowed || !s.cfg.collectInFlight then s
    else PushAll(s, idx, Tag(INFLIGHT, InFlightPoints(s.conns[idx].deriv.metrics, t)))
  }

  function CollectRtt(s: TState, idx: nat, sample: Sample): (r: TState)
    requires idx < |s.conns| && sample.MetricSample?
    ensures Touches(s, r, idx)
  {
    if s.overflowed || !s.cfg.collectRtt || sample.rtt.None? then s
    else
      var deriv := s.conns[idx].deriv;
      var m := sample.dir.Opposite();
      var v := Smooth(deriv.srtt.Get(m), sample.rtt.value);
      Push(SetDeriv(s, idx, deriv.(srtt := deriv.srtt.Set(m, Some(v)))), idx,
           Tagged(RTTS, RttSample(sample.t, m, sample.rtt.value, v)))
  }

  function CollectThroughputAt(s: TState, idx: nat, t: u64): (r: TState)
    requires idx < |s.conns|
    ensures Records(s, r, idx)
  {
    if s.overflowed || !s.cfg.collectThroughput then s
    else
      PushAll(s, idx,
              Tag(THROUGHPUT, ThroughputPoints(s.conns[idx].deriv.metrics, t, s.cfg.throughputWindow)))
  }

  /** Records the four detail series of a segment. */
  function CollectDetail(s: TState, idx: nat, seg: Segment, d: Direction, sample: Sample): (r: TState)
    requires idx < |s.conns| && sample.MetricSample?
    ensures Touches(s, r, idx)
  {
    var s1 := CollectSeq(s, idx, seg, d, sample);
    var s2 := CollectInFlightAt(s1, idx, seg.ts);
    var s3 := CollectRtt(s2, idx, sample);
    CollectThroughputAt(s3, idx, seg.ts)
  }

  /** Takes on metric state `m` and records every series that is switched on. */
  function RecordDerived(s: TState, idx: nat, seg: Segment, d: Direction, sample: Sample, m: PerDir<DirState>)
    : (r: TState)
    requires idx < |s.conns| && sample.MetricSample?
    ensures Touches(s, r, idx)
  {
    var c := s.conns[idx];
    var s1 := SetDeriv(s, idx, c.deriv.(metrics := m));
    var s2 := if s.cfg.ShouldCollect(c.life.ident.id) then Push(s1, idx, Tagged(SERIES, sample)) else s1;
    CollectDetail(s2, idx, seg, d, sample)
  }

  /** Derives this segment's metrics and records them. */
  function Derive(s: TState, idx: nat, seg: Segment, d: Direction): (r: TState)
    requires idx < |s.conns|
    ensures Touches(s, r, idx)
  {
    var c := s.conns[idx];
    if s.overflowed || !s.cfg.WantsMetrics(c.life.ident.id) then s
    else
      RecordDerived(s, idx, seg, d, ObserveSample(c.deriv.metrics, seg, d, s.cfg),
                    ObserveState(c.deriv.metrics, seg, d, s.cfg))
  }

  function RecordState(s: TState, idx: nat, t: u64): (r: TState)
    requires idx < |s.conns|
    ensures Records(s, r, idx)
  {
    if s.cfg.collectState then Push(s, idx, Tagged(STATES, s.conns[idx].life.Snapshot(t))) else s
  }

  // ---------------------------------------------------------- segments

  predicate ShouldSplit(s: TState, idx: nat, seg: Segment)
    requires idx < |s.conns|
  {
    var l := s.conns[idx].life;
    if seg.flags.BareSyn() then
      l.phase.state.Terminal() || SatSub(seg.ts, l.traffic.lastAt) > s.cfg.deadAfter
    else if l.phase.state == Established then
      var base := l.traffic.Baseline(l.ident.DirectionOf(seg.src));
      base.Some? && IsBackwardReset(base.value, seg.seqNo, s.cfg.resetThreshold)
    else false
  }

  function SetLife(s: TState, idx: nat, l: Life): (r: TState)
    requires idx < |s.conns|
    ensures SameFrame(s, r)
  {
    s.(conns := s.conns[idx := s.conns[idx].(life := l)])
  }

  /** The segment continues the instance at `idx`. */
  function JoinInstance(s: TState, idx: nat, seg: Segment): (r: TState)
    requires idx < |s.conns|
    ensures SameFrame(s, r)
  {
    var l := s.conns[idx].life.Join(seg);
    Derive(RecordState(SetLife(s, idx, l), idx, seg.ts), idx, seg, l.ident.DirectionOf(seg.src))
  }

  function NextInstance(s: TState, pair: EndpointPair): nat {
    if pair in s.nextInstance then s.nextInstance[pair] else 0
  }

  /** The tracker with a fresh instance for `seg` appended and made the live one. */
  function Opened(s: TState, seg: Segment): (r: TState) {
    var pair := seg.Pair();
    var instance := NextInstance(s, pair);
    var l := Open(ConnId(pair, instance), seg);
    s.(conns := s.conns + [Conn(l, NO_DERIV, NO_HIST)],
       live := s.live[pair := |s.conns|],
       nextInstance := s.nextInstance[pair := instance + 1])
  }

  /** Records the opening segment of the instance at `idx`. */
  function RecordOpening(s: TState, idx: nat, seg: Segment): (r: TState)
    requires idx < |s.conns|
    ensures Touches(s, r, idx)
  {
    RecordState(Derive(s, idx, seg, s.conns[idx].life.ident.DirectionOf(seg.src)), idx, seg.ts)
  }

  function CreateInstance(s: TState, seg: Segment): (r: TState)
    ensures Touches(Opened(s, seg), r, |s.conns|)
  {
    RecordOpening(Opened(s, seg), |s.conns|, seg)
  }

  predicate Joins(s: TState, seg: Segment)
    requires s.WF()
  {
    seg.Pair() in s.live && !ShouldSplit(s, s.live[seg.Pair()], seg)
  }

  function ObserveSegment(s: TState, seg: Segment): (r: TState)
    requires s.WF()
    ensures r.WF()
  {
    if Joins(s, seg) then JoinInstance(s, s.live[seg.Pair()], seg) else CreateInstance(s, seg)
  }

  // -------------------------------------------------------------- ticks

  /** Decay samples for the first `n` connections that are not idle. */
  function DecayUpTo(s: TState, t: u64, n: nat): (r: TState)
    requires n <= |s.conns|
    ensures SameFrame(s, r)
  {
    if n == 0 then s
    else
      var p := DecayUpTo(s, t, n - 1);
      if SatSub(t, p.conns[n - 1].life.traffic.lastAt) > p.cfg.deadAfter then p
      else CollectInFlightAt(CollectThroughputAt(p, n - 1, t), n - 1, t)
  }

  /** `q` is `p` with decay samples of connection `i`, or `p` itself. */
  ghost predicate DecaysTo(p: TState, q: TState, i: nat, t: u64)
    requires i < |p.conns|
  {
    q == p || q == CollectInFlightAt(CollectThroughputAt(p, i, t), i, t)
  }

  lemma DecayStep(s: TState, t: u64, n: nat)
    requires 0 < n <= |s.conns|
    ensures DecaysTo(DecayUpTo(s, t, n - 1), DecayUpTo(s, t, n), n - 1, t)
  {}

  function EmitDecay(s: TState, t: u64): (r: TState)
    ensures SameFrame(s, r)
  {
    if s.overflowed then s else DecayUpTo(s, t, |s.conns|)
  }

  /** A connection survives collection unless it is finished or idle, and old. */
  predicate Survives(l: Life, now: u64, horizon: u64, deadAfter: u64) {
    !((l.phase.state.Terminal() || SatSub(now, l.traffic.lastAt) > deadAfter) && l.traffic.lastAt < horizon)
  }

  function Survivors(conns: seq<Conn>, now: u64, horizon: u64, deadAfter: u64): (r: seq<Conn>)
    ensures |r| <= |conns|
  {
    if |conns| == 0 then []
    else
      var n := |conns| - 1;
      var rest := Survivors(conns[..n], now, horizon, deadAfter);
      if Survives(conns[n].life, now, horizon, deadAfter) then rest + [conns[n]] else rest
  }

  /** The pair index rebuilt from the connections, later ones winning. */
  function Index(conns: seq<Conn>): (live: map<EndpointPair, nat>)
    ensures forall p | p in live :: live[p] < |conns|
  {
    if |conns| == 0 then map[]
    else
      var n := |conns| - 1;
      Index(conns[..n])[conns[n].life.ident.id.pair := n]
  }

  function EvictDead(s: TState): (r: TState)
    requires s.WF()
    ensures r.WF()
  {
    if s.cfg.retention.FailFast? then s
    else
      var horizon := Horizon(s.now, s.cfg.retention.horizon);
      var kept := Survivors(s.conns, s.now, horizon, s.cfg.deadAfter);
      if |kept| == |s.conns| then s
      else
        var live := Index(kept);
        s.(conns := kept, live := live,
           nextInstance := map p | p in s.nextInstance && p in live :: s.nextInstance[p],
           collected := TotalLen(kept))
  }

  function ObserveTick(s: TState, t: u64): (r: TState)
    requires s.WF()
    ensures r.WF()
  {
    if s.cfg.retention.FailFast? then s
    else
      var s1 := s.(now := Max(s.now, t));
      EvictDead(EvictSamples(EmitDecay(s1, s1.now)))
  }

  // --------------------------------------------------------------- runs

  function Step(s: TState, item: Item): (r: TState)
    requires s.WF()
    ensures r.WF()
  {
    match item
    case Seg(seg) => EvictSamples(ObserveSegment(s.(now := Max(s.now, seg.ts)), seg))
    case Tick(t) => ObserveTick(s, t)
  }

  /** The tracker after a stream of items. */
  function Run(cfg: Config, items: seq<Item>): (r: TState)
    ensures r.WF()
  {
    if |items| == 0 then New(cfg) else Step(Run(cfg, items[..|items| - 1]), items[|items| - 1])
  }
}
