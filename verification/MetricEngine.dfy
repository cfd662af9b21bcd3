/** The metric state of one connection, updated in place segment by segment. */
module MetricEngine {
  import opened Core
  import opened Serial
  import opened MetricSpec

  class MetricState {
    var dir: PerDir<DirState>

    constructor ()
      ensures dir == PerDir(FRESH, FRESH)
    {
      dir := PerDir(FRESH, FRESH);
    }

    /** Folds one segment in and produces its sample. */
    method Observe(seg: Segment, d: Direction, cfg: Config) returns (sample: Sample)
      modifies this
      ensures dir == ObserveState(old(dir), seg, d, cfg)
      ensures sample == ObserveSample(old(dir), seg, d, cfg)
    {
      ghost var m := dir;
      var inFlight, retransmit, outOfOrder, rtt := ObserveSequence(d, seg, cfg.reorderWindow);
      WindowPushAndEvict(d, seg, retransmit, cfg.throughputWindow);
      assert dir.Get(d) == Sent(m.Get(d), seg, cfg) && dir.Get(d.Opposite()) == AckedBy(m.Get(d.Opposite()), seg);
      var rates := ReadThroughput(d, seg.ts, cfg.throughputWindow);
      sample := MetricSample(
        seg.ts, d, inFlight, if rates.Some? then rates.value.total else 0,
        rtt, retransmit, outOfOrder, |seg.sackLefts| > 0);
    }

    /** Everything but throughput: bytes in flight, the verdict on the data, and the
        round-trip time the acknowledgement closes. */
    method ObserveSequence(d: Direction, seg: Segment, reorderWindow: u64)
      returns (inFlight: nat, retransmit: bool, outOfOrder: bool, rtt: Option<u64>)
      modifies this
      ensures var s, sendee := old(dir.Get(d)), old(dir.Get(d.Opposite()));
              var verdict := Classify(s, seg, reorderWindow);
              && retransmit == (verdict == Retransmitted) && outOfOrder == (verdict == Reordered)
              && dir.Get(d) == Sequenced(s, seg, retransmit)
              && dir.Get(d.Opposite()) == AckedBy(sendee, seg)
              && rtt == RttOf(sendee, seg)
              && InFlight(dir.Get(d)) == Some(inFlight)
    {
      var o := d.Opposite();
      var ackAdvances := AckAdvances(dir.Get(o), seg);
      var frontier := dir.Get(d).frontier;
      var lastDataTs := dir.Get(d).lastDataTs;
      inFlight := AdvanceInFlight(d, seg);
      if ackAdvances {
        dir := dir.Set(o, dir.Get(o).(acked := Some(seg.ackNo)));
      }
      retransmit, outOfOrder := ClassifyData(d, seg, frontier, lastDataTs, reorderWindow);
      QueueForRtt(d, seg, retransmit);
      rtt := None;
      if ackAdvances {
        rtt := PopCovered(o, seg);
      }
    }

    /** Advances the send frontier over the segment and reads the bytes outstanding. */
    method AdvanceInFlight(d: Direction, seg: Segment) returns (inFlight: nat)
      modifies this
      ensures var s := old(dir.Get(d));
              dir == old(dir).Set(d, s.(acked := if s.acked.Some? then s.acked else Some(seg.seqNo),
                                        sndNxt := Some(SerialMax(s.sndNxt, SeqEnd(seg)))))
      ensures InFlight(dir.Get(d)) == Some(inFlight)
    {
      var ackedD := if dir.Get(d).acked.Some? then dir.Get(d).acked.value else seg.seqNo;
      var sndD := SerialMax(dir.Get(d).sndNxt, SeqEnd(seg));
      dir := dir.Set(d, dir.Get(d).(acked := Some(ackedD), sndNxt := Some(sndD)));
      inFlight := if SerialLe(ackedD, sndD) then SerialDiff(sndD, ackedD) else 0;
    }

    /** Decides whether a data segment behind the frontier is a retransmission or merely
        reordered, and moves the data frontier. */
    method ClassifyData(d: Direction, seg: Segment, frontier: Option<u32>, lastDataTs: Option<u64>,
                        reorderWindow: u64)
      returns (retransmit: bool, outOfOrder: bool)
      requires frontier == dir.Get(d).frontier && lastDataTs == dir.Get(d).lastDataTs
      modifies this
      ensures var s := old(dir.Get(d));
              var verdict := Classify(s, seg, reorderWindow);
              && retransmit == (verdict == Retransmitted) && outOfOrder == (verdict == Reordered)
              && dir == old(dir).Set(d, s.(
                          frontier := if seg.IsData() then Some(SerialMax(s.frontier, SeqEnd(seg))) else s.frontier,
                          lastDataTs := if seg.IsData() then Some(seg.ts) else s.lastDataTs))
    {
      retransmit, outOfOrder := false, false;
      if seg.IsData() {
        if frontier.Some? && SerialLt(seg.seqNo, frontier.value) {
          var gap := if lastDataTs.Some? then SatSub(seg.ts, lastDataTs.value) else U64_MAX;
          if gap < reorderWindow {
            outOfOrder := true;
          } else {
            retransmit := true;
          }
        }
        dir := dir.Set(d, dir.Get(d).(frontier := Some(SerialMax(frontier, SeqEnd(seg))),
                                      lastDataTs := Some(seg.ts)));
      }
    }

    /** Queues a send for timing; a retransmission makes every queued send ambiguous. */
    method QueueForRtt(d: Direction, seg: Segment, retransmit: bool)
      modifies this
      ensures dir == old(dir).Set(d, old(dir.Get(d)).(
                      pendingRtt := Queued(old(dir.Get(d)).pendingRtt, seg, retransmit)))
    {
      if retransmit {
        dir := dir.Set(d, dir.Get(d).(pendingRtt := []));
      } else if seg.ConsumesSeq() {
        dir := dir.Set(d, dir.Get(d).(pendingRtt := dir.Get(d).pendingRtt + [Pending(SeqEnd(seg), seg.ts)]));
      }
    }

    /** Pops every queued send the acknowledgement covers, from the oldest, and times the
        first of them. */
    method PopCovered(o: Direction, seg: Segment) returns (rtt: Option<u64>)
      modifies this
      ensures var was := old(dir.Get(o)).pendingRtt;
              var n := Covered(was, seg.ackNo);
              && dir == old(dir).Set(o, old(dir.Get(o)).(pendingRtt := was[n..]))
              && rtt == if n > 0 then Some(SatSub(seg.ts, was[0].ts)) else None
    {
      ghost var was := dir.Get(o).pendingRtt;
      ghost var popped := 0;
      var pend := dir.Get(o).pendingRtt;
      var oldest: Option<u64> := None;
      while |pend| > 0 && SerialLe(pend[0].end, seg.ackNo)
        invariant popped <= |was| && pend == was[popped..]
        invariant Covered(was, seg.ackNo) == popped + Covered(pend, seg.ackNo)
        invariant oldest == if popped > 0 then Some(was[0].ts) else None
      {
        if oldest.None? {
          oldest := Some(pend[0].ts);
        }
        pend := pend[1..];
        popped := popped + 1;
      }
      dir := dir.Set(o, dir.Get(o).(pendingRtt := pend));
      rtt := if oldest.Some? then Some(SatSub(seg.ts, oldest.value)) else None;
    }

    method WindowPushAndEvict(d: Direction, seg: Segment, retransmit: bool, window: u64)
      modifies this
      ensures dir == old(dir).Set(d, PushChunk(old(dir.Get(d)), seg, retransmit, window))
    {
      if seg.IsData() {
        var s := dir.Get(d);
        dir := dir.Set(d, s.(tput := s.tput + [Chunk(seg.ts, seg.payloadLen, retransmit)],
                             tputMaxTs := MaxTs(s.tputMaxTs, seg.ts)));
      }
      if window == 0 || dir.Get(d).tputMaxTs.None? {
        return;
      }
      var maxTs := dir.Get(d).tputMaxTs.value;
      var tput := dir.Get(d).tput;
      while |tput| > 0 && tput[0].ts + window <= maxTs
        invariant DropExpired(dir.Get(d).tput, window, Some(maxTs)) == DropExpired(tput, window, Some(maxTs))
        decreases |tput|
      {
        tput := tput[1..];
      }
      dir := dir.Set(d, dir.Get(d).(tput := tput));
    }

    /** The trailing-window rates of direction `d` as of time `t`. */
    method ReadThroughput(d: Direction, t: u64, window: u64) returns (rates: Option<Rates>)
      ensures rates == ThroughputAt(dir.Get(d), t, window)
    {
      if dir.Get(d).tputMaxTs.None? {
        return None;
      }
      if window == 0 {
        return Some(Rates(0, 0));
      }
      var tput := dir.Get(d).tput;
      var total, good := 0, 0;
      for i := 0 to |tput|
        invariant total == Bytes(tput[..i], t, window, false)
        invariant good == Bytes(tput[..i], t, window, true)
      {
        assert tput[..i + 1][..i] == tput[..i];
        if InWindow(tput[i], t, window) {
          total := total + tput[i].len;
          if !tput[i].retransmit {
            good := good + tput[i].len;
          }
        }
      }
      assert tput[..|tput|] == tput;
      rates := Some(Rates(ScaleBps(total, window), ScaleBps(good, window)));
    }

    function ReadInFlight(d: Direction): Option<nat>
      reads this
    {
      InFlight(dir.Get(d))
    }
  }
}
