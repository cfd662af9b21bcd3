/** What one observed segment does to the derived metrics of a connection, as functions
    on values.  A direction is a small machine of its own: it is moved by the segments it
    sends and by the acknowledgements the other side sends back. */
module MetricSpec {
  import opened Core
  import opened Serial

  const NANOS_PER_SEC: int := 1_000_000_000
  const U128_MAX: int := TWO_64 * TWO_64 - 1

  datatype Pending = Pending(end: u32, ts: u64)
  datatype Chunk = Chunk(ts: u64, len: u32, retransmit: bool)
  datatype Verdict = InOrder | Reordered | Retransmitted
  datatype Rates = Rates(total: u64, good: u64)

  datatype DirState = DirState(
    sndNxt: Option<u32>, acked: Option<u32>, frontier: Option<u32>,
    lastDataTs: Option<u64>, pendingRtt: seq<Pending>,
    tput: seq<Chunk>, tputMaxTs: Option<u64>)

  const FRESH: DirState := DirState(None, None, None, None, [], [], None)

  /** One past the last sequence number the segment occupies. */
  function SeqEnd(seg: Segment): u32 { WrappingAdd(seg.seqNo, seg.Span()) }

  // ------------------------------------------------------------ the sender side

  function Gap(s: DirState, ts: u64): u64 {
    if s.lastDataTs.Some? then SatSub(ts, s.lastDataTs.value) else U64_MAX
  }

  function Classify(s: DirState, seg: Segment, reorderWindow: u64): Verdict {
    if seg.IsData() && s.frontier.Some? && SerialLt(seg.seqNo, s.frontier.value) then
      if Gap(s, seg.ts) < reorderWindow then Reordered else Retransmitted
    else InOrder
  }

  /** Drops from the front the chunks that no later window can contain. */
  function DropExpired(tput: seq<Chunk>, window: u64, maxTs: Option<u64>): seq<Chunk> {
    if window != 0 && maxTs.Some? && |tput| > 0 && tput[0].ts + window <= maxTs.value
    then DropExpired(tput[1..], window, maxTs)
    else tput
  }

  function MaxTs(current: Option<u64>, ts: u64): Option<u64> {
    Some(if current.Some? then Max(current.value, ts) else ts)
  }

  function PushChunk(s: DirState, seg: Segment, retransmit: bool, window: u64): DirState {
    var maxTs := if seg.IsData() then MaxTs(s.tputMaxTs, seg.ts) else s.tputMaxTs;
    var tput := if seg.IsData() then s.tput + [Chunk(seg.ts, seg.payloadLen, retransmit)] else s.tput;
    s.(tput := DropExpired(tput, window, maxTs), tputMaxTs := maxTs)
  }

  function Queued(pending: seq<Pending>, seg: Segment, retransmit: bool): seq<Pending> {
    if retransmit then []
    else if seg.ConsumesSeq() then pending + [Pending(SeqEnd(seg), seg.ts)]
    else pending
  }

  /** The sender after the segment has taken its place in sequence space. */
  function Sequenced(s: DirState, seg: Segment, retransmit: bool): DirState {
    s.(acked := if s.acked.Some? then s.acked else Some(seg.seqNo),
       sndNxt := Some(SerialMax(s.sndNxt, SeqEnd(seg))),
       frontier := if seg.IsData() then Some(SerialMax(s.frontier, SeqEnd(seg))) else s.frontier,
       lastDataTs := if seg.IsData() then Some(seg.ts) else s.lastDataTs,
       pendingRtt := Queued(s.pendingRtt, seg, retransmit))
  }

  function Sent(s: DirState, seg: Segment, cfg: Config): DirState {
    var retransmit := Classify(s, seg, cfg.reorderWindow) == Retransmitted;
    PushChunk(Sequenced(s, seg, retransmit), seg, retransmit, cfg.throughputWindow)
  }

  // ------------------------------------------------- the acknowledged side

  predicate AckAdvances(s: DirState, seg: Segment) {
    seg.flags.ack && s.sndNxt.Some? && (s.acked.None? || SerialGt(seg.ackNo, s.acked.value))
  }

  /** How many queued sends, from the oldest, the acknowledgement covers. */
  function Covered(pending: seq<Pending>, ack: u32): (n: nat)
    ensures n <= |pending|
  {
    if |pending| > 0 && SerialLe(pending[0].end, ack) then 1 + Covered(pending[1..], ack) else 0
  }

  function AckedBy(s: DirState, seg: Segment): DirState {
    if AckAdvances(s, seg) then
      s.(acked := Some(seg.ackNo), pendingRtt := s.pendingRtt[Covered(s.pendingRtt, seg.ackNo)..])
    else s
  }

  function RttOf(s: DirState, seg: Segment): Option<u64> {
    if AckAdvances(s, seg) && Covered(s.pendingRtt, seg.ackNo) > 0
    then Some(SatSub(seg.ts, s.pendingRtt[0].ts))
    else None
  }

  // ------------------------------------------------------------------ readings

  function InFlight(s: DirState): Option<nat> {
    if s.sndNxt.Some? && s.acked.Some? then
      Some(if SerialLe(s.acked.value, s.sndNxt.value) then SerialDiff(s.sndNxt.value, s.acked.value) else 0)
    else None
  }

  predicate InWindow(c: Chunk, t: u64, window: u64) { c.ts + window > t && c.ts <= t }

  /** Bytes of the chunks sent in `(t - window, t]`; with `goodOnly`, of those that were
      not retransmissions. */
  function Bytes(chunks: seq<Chunk>, t: u64, window: u64, goodOnly: bool): nat {
    if |chunks| == 0 then 0 else
      var c := chunks[|chunks| - 1];
      Bytes(chunks[..|chunks| - 1], t, window, goodOnly) +
      if InWindow(c, t, window) && !(goodOnly && c.retransmit) then c.len else 0
  }

  function SatMul128(a: nat, b: nat): nat {
    if a * b > U128_MAX then U128_MAX else a * b
  }

  function ScaleBps(bytes: nat, window: u64): u64
    requires window > 0
  {
    NarrowU64(SatMul128(SatMul128(bytes, 8), NANOS_PER_SEC) / window)
  }

  function ThroughputAt(s: DirState, t: u64, window: u64): Option<Rates> {
    if s.tputMaxTs.None? then None
    else if window == 0 then Some(Rates(0, 0))
    else Some(Rates(ScaleBps(Bytes(s.tput, t, window, false), window),
                    ScaleBps(Bytes(s.tput, t, window, true), window)))
  }

  // --------------------------------------------------- one segment, both sides

  function ObserveState(m: PerDir<DirState>, seg: Segment, d: Direction, cfg: Config): PerDir<DirState> {
    var o := d.Opposite();
    m.Set(d, Sent(m.Get(d), seg, cfg)).Set(o, AckedBy(m.Get(o), seg))
  }

  function ObserveSample(m: PerDir<DirState>, seg: Segment, d: Direction, cfg: Config): Sample {
    var sender := Sent(m.Get(d), seg, cfg);
    var verdict := Classify(m.Get(d), seg, cfg.reorderWindow);
    var rates := ThroughputAt(sender, seg.ts, cfg.throughputWindow);
    MetricSample(
      seg.ts, d, InFlight(sender).value,
      if rates.Some? then rates.value.total else 0,
      RttOf(m.Get(d.Opposite()), seg),
      verdict == Retransmitted, verdict == Reordered, |seg.sackLefts| > 0)
  }

  // ----------------------------------------------------------------------- runs

  /** A segment together with the direction the tracker gave it. */
  datatype Obs = Obs(seg: Segment, dir: Direction)

  function DirStep(x: Direction, s: DirState, o: Obs, cfg: Config): DirState {
    if o.dir == x then Sent(s, o.seg, cfg) else AckedBy(s, o.seg)
  }

  /** The state of direction `x` after the observations `obs`. */
  function DirRun(x: Direction, obs: seq<Obs>, cfg: Config): DirState {
    if |obs| == 0 then FRESH
    else DirStep(x, DirRun(x, obs[..|obs| - 1], cfg), obs[|obs| - 1], cfg)
  }

  function MetricRun(obs: seq<Obs>, cfg: Config): PerDir<DirState> {
    if |obs| == 0 then PerDir(FRESH, FRESH)
    else
      var o := obs[|obs| - 1];
      ObserveState(MetricRun(obs[..|obs| - 1], cfg), o.seg, o.dir, cfg)
  }

  /** The two directions never interfere: the pair machine is the two direction machines. */
  lemma {:induction false} DirectionsAreIndependent(obs: seq<Obs>, cfg: Config)
    ensures forall x :: MetricRun(obs, cfg).Get(x) == DirRun(x, obs, cfg)
  {
    if |obs| > 0 {
      DirectionsAreIndependent(obs[..|obs| - 1], cfg);
    }
  }

  /** `sndNxt` and `acked` are set together, by the first send, so the "nothing acked
      yet" arm of the advance test is never the one that decides. */
  lemma {:induction false} AckedWithFirstSend(x: Direction, obs: seq<Obs>, cfg: Config)
    ensures var s := DirRun(x, obs, cfg);
            s.sndNxt.Some? == s.acked.Some? == exists i :: 0 <= i < |obs| && obs[i].dir == x
  {
    if |obs| > 0 {
      var pre := obs[..|obs| - 1];
      AckedWithFirstSend(x, pre, cfg);
      if exists i :: 0 <= i < |pre| && pre[i].dir == x {
        var i :| 0 <= i < |pre| && pre[i].dir == x;
        assert obs[i].dir == x;
      }
      assert forall i :: 0 <= i < |pre| ==> pre[i] == obs[i];
    }
  }
}
