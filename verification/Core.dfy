/** The vocabulary of the engine: machine integers, segments, samples and the
    configuration.  Times are nanoseconds; IP addresses are represented by their rank
    in address order. */
module Core {

  const TWO_32: int := 0x1_0000_0000
  const TWO_64: int := 0x1_0000_0000_0000_0000
  const U64_MAX: int := TWO_64 - 1

  type u16 = x: int | 0 <= x < 0x1_0000
  type u32 = x: int | 0 <= x < TWO_32
  type u64 = x: int | 0 <= x < TWO_64

  datatype Option<+T> = None | Some(value: T)

  function Max(a: int, b: int): (m: int)
    ensures m >= a && m >= b && (m == a || m == b)
  {
    if a >= b then a else b
  }

  /** Rust's `saturating_sub`. */
  function SatSub(a: int, b: int): int {
    if a > b then a - b else 0
  }

  /** A conversion to 64 bits that falls back to the maximum. */
  function NarrowU64(v: nat): u64 {
    if v > U64_MAX then U64_MAX else v
  }

  // ---------------------------------------------------------------- endpoints

  datatype Endpoint = Endpoint(ip: nat, port: nat) {
    predicate Le(that: Endpoint) {
      ip < that.ip || (ip == that.ip && port <= that.port)
    }
  }

  datatype EndpointPair = EndpointPair(low: Endpoint, high: Endpoint)

  /** The orientation-independent grouping key. */
  function Canonical(a: Endpoint, b: Endpoint): EndpointPair {
    if a.Le(b) then EndpointPair(a, b) else EndpointPair(b, a)
  }

  /** Two unordered endpoint pairs share a key exactly when they are the same pair. */
  lemma CanonicalIdentifiesUnorderedPairs(a: Endpoint, b: Endpoint, c: Endpoint, d: Endpoint)
    ensures Canonical(a, b) == Canonical(c, d) <==> (a == c && b == d) || (a == d && b == c)
  {
    assert a.Le(b) && b.Le(a) ==> a == b;
    assert c.Le(d) && d.Le(c) ==> c == d;
  }

  /** The key holds the two endpoints with the lower address first, or the lower port where the
      addresses are the same. */
  lemma CanonicalPutsLowerFirst(a: Endpoint, b: Endpoint)
    ensures var p := Canonical(a, b);
            && ((p.low == a && p.high == b) || (p.low == b && p.high == a))
            && (p.low.ip < p.high.ip || (p.low.ip == p.high.ip && p.low.port <= p.high.port))
  {}

  datatype ConnId = ConnId(pair: EndpointPair, instance: nat)

  // --------------------------------------------------------------- directions

  datatype Direction = OriginToResponder | ResponderToOrigin {
    function Opposite(): Direction {
      if this == OriginToResponder then ResponderToOrigin else OriginToResponder
    }
  }

  /** A two-slot array indexed by direction. */
  datatype PerDir<T> = PerDir(o2r: T, r2o: T) {
    function Get(d: Direction): T {
      if d == OriginToResponder then o2r else r2o
    }

    function Set(d: Direction, x: T): (r: PerDir<T>)
      ensures r.Get(d) == x && r.Get(d.Opposite()) == Get(d.Opposite())
    {
      if d == OriginToResponder then PerDir(x, r2o) else PerDir(o2r, x)
    }
  }

  // ----------------------------------------------------------------- segments

  datatype Flags = Flags(fin: bool, syn: bool, rst: bool, ack: bool) {
    predicate BareSyn() { syn && !ack }
    predicate SynAck() { syn && ack }
  }

  /** A decoded segment; of the TCP options only the left edges of the SACK blocks matter. */
  datatype Segment = Segment(
    ts: u64, src: Endpoint, dst: Endpoint, seqNo: u32, ackNo: u32,
    flags: Flags, sackLefts: seq<u32>, payloadLen: u32)
  {
    predicate IsData() { payloadLen > 0 }
    predicate ConsumesSeq(): (b: bool)
      ensures b <==> Span() > 0
    {
      IsData() || flags.syn || flags.fin
    }
    function Pair(): EndpointPair { Canonical(src, dst) }
    /** Sequence space the segment occupies: payload plus the SYN and FIN phantom bytes. */
    function Span(): nat {
      payloadLen + (if flags.syn then 1 else 0) + (if flags.fin then 1 else 0)
    }
  }

  datatype Item = Seg(seg: Segment) | Tick(t: u64)

  // ---------------------------------------------------------------- lifecycle

  datatype ConnState = SynSent | SynReceived | Established | FinWait | Closed | Reset {
    function Rank(): nat {
      match this
      case SynSent => 0
      case SynReceived => 1
      case Established => 2
      case FinWait => 3
      case Closed => 4
      case Reset => 5
    }

    function AdvanceTo(to: ConnState): ConnState {
      if to.Rank() > Rank() then to else this
    }

    predicate Terminal() { this == Closed || this == Reset }
  }

  // ------------------------------------------------------------------ samples

  datatype SeqKind = Data(retransmit: bool, outOfOrder: bool) | Sack

  /** One retained sample of any of the six series; every kind carries its time `t`. */
  datatype Sample =
    | StateSample(t: u64, state: ConnState, bytesO2R: nat, bytesR2O: nat)
    | MetricSample(t: u64, dir: Direction, inFlightBytes: nat, throughputBps: u64,
                   rtt: Option<u64>, retransmit: bool, outOfOrder: bool, sack: bool)
    | SeqSample(t: u64, dir: Direction, rel: int, len: u32, kind: SeqKind)
    | InFlightSample(t: u64, dir: Direction, bytes: nat)
    | RttSample(t: u64, dir: Direction, measured: u64, srtt: u64)
    | ThroughputSample(t: u64, dir: Direction, throughput: u64, goodput: u64)

  ghost predicate Sorted(xs: seq<Sample>) {
    forall i, j | 0 <= i < j < |xs| :: xs[i].t <= xs[j].t
  }

  ghost predicate NoLaterThan(xs: seq<Sample>, t: u64) {
    forall i | 0 <= i < |xs| :: xs[i].t <= t
  }

  // ------------------------------------------------------------ configuration

  datatype SeriesCollection = NoSeries | AllSeries | OnlySeries(id: ConnId)

  datatype Retention = FailFast(ceiling: nat) | Evict(horizon: u64, ceiling: nat) {
    function MaxSamples(): nat { ceiling }
    function Window(): Option<u64> {
      if Evict? then Some(horizon) else None
    }
  }

  datatype Config = Config(
    deadAfter: u64, resetThreshold: u32, seriesCollection: SeriesCollection,
    throughputWindow: u64, reorderWindow: u64, retention: Retention,
    collectState: bool, collectSeq: bool, collectInFlight: bool,
    collectRtt: bool, collectThroughput: bool)
  {
    predicate ShouldCollect(id: ConnId) {
      match seriesCollection
      case NoSeries => false
      case AllSeries => true
      case OnlySeries(target) => target == id
    }

    /** Metrics are derived for an instance when any consumer of them is switched on. */
    predicate WantsMetrics(id: ConnId) {
      ShouldCollect(id) || collectSeq || collectInFlight || collectRtt || collectThroughput
    }
  }
}
