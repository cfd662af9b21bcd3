/** One tracked instance, updated in place: its fields, and the value they stand for. */
module Connection {
  import opened Core
  import opened Serial
  import opened MetricEngine
  import opened Unwrap
  import opened Lifecycle
  import opened TrackerSpec

  class ConnTrack {
    const id: ConnId
    const origin: Endpoint
    const responder: Endpoint
    const originInferred: bool
    const openedAt: u64
    var lastAt: u64
    var bytesO2R: nat
    var bytesR2O: nat
    var segments: nat
    var baseO2R: Option<u32>
    var baseR2O: Option<u32>
    var state: ConnState
    var finO2R: bool
    var finR2O: bool
    const metrics: MetricState
    var srtt: PerDir<Option<u64>>
    var unwrap: PerDir<Option<Frontier>>
    var states: seq<Sample>
    var series: seq<Sample>
    var seqPoints: seq<Sample>
    var inFlight: seq<Sample>
    var rtts: seq<Sample>
    var throughput: seq<Sample>

    ghost function TheLife(): Life
      reads this
    {
      Life(Identity(id, origin, responder, originInferred, openedAt),
           Traffic(lastAt, bytesO2R, bytesR2O, segments, baseO2R, baseR2O),
           Phase(state, finO2R, finR2O))
    }

    ghost function TheDeriv(): Deriv
      reads this, metrics
    {
      Deriv(metrics.dir, srtt, unwrap)
    }

    ghost function TheHist(): Hist
      reads this
    {
      var h := [states, series, seqPoints, inFlight, rtts, throughput];
      assert |h| == KINDS;
      h
    }

    /** The value these fields stand for. */
    ghost function View(): Conn
      reads this, metrics
    {
      Conn(TheLife(), TheDeriv(), TheHist())
    }

    constructor (id: ConnId, origin: Endpoint, responder: Endpoint, originInferred: bool, state: ConnState, ts: u64)
      ensures fresh(metrics)
      ensures View() == Conn(Life(Identity(id, origin, responder, originInferred, ts), NoTraffic(ts),
                                  Phase(state, false, false)), NO_DERIV, NO_HIST)
    {
      this.id, this.origin, this.responder := id, origin, responder;
      this.originInferred, this.openedAt := originInferred, ts;
      lastAt, bytesO2R, bytesR2O, segments := ts, 0, 0, 0;
      baseO2R, baseR2O := None, None;
      this.state, finO2R, finR2O := state, false, false;
      metrics := new MetricState();
      srtt, unwrap := PerDir(None, None), PerDir(None, None);
      states, series, seqPoints, inFlight, rtts, throughput := [], [], [], [], [], [];
    }

    function DirectionOf(src: Endpoint): (d: Direction)
      reads this
      ensures d == TheLife().ident.DirectionOf(src)
    {
      if src == origin then OriginToResponder else ResponderToOrigin
    }

    function Baseline(d: Direction): (b: Option<u32>)
      reads this
      ensures b == TheLife().traffic.Baseline(d)
    {
      if d == OriginToResponder then baseO2R else baseR2O
    }

    method Account(seg: Segment, d: Direction)
      modifies this
      ensures TheLife() == old(TheLife()).(traffic := old(TheLife()).traffic.Account(seg, d))
      ensures TheDeriv() == old(TheDeriv()) && TheHist() == old(TheHist())
    {
      lastAt := Max(lastAt, seg.ts);
      segments := segments + 1;
      if d == OriginToResponder {
        bytesO2R := bytesO2R + seg.payloadLen;
        baseO2R := Some(SerialMax(baseO2R, seg.seqNo));
      } else {
        bytesR2O := bytesR2O + seg.payloadLen;
        baseR2O := Some(SerialMax(baseR2O, seg.seqNo));
      }
    }

    method ApplyState(seg: Segment, d: Direction)
      modifies this
      ensures TheLife() == old(TheLife()).(phase := old(TheLife()).phase.Apply(seg, d))
      ensures TheDeriv() == old(TheDeriv()) && TheHist() == old(TheHist())
    {
      if seg.flags.rst {
        state := Reset;
        return;
      }
      if state == Reset {
        return;
      }
      if seg.flags.SynAck() {
        if state == SynSent {
          state := state.AdvanceTo(SynReceived);
        }
      } else if seg.flags.BareSyn() {
        if state == SynSent && d == ResponderToOrigin {
          state := state.AdvanceTo(SynReceived);
        }
      }
      if state == SynReceived && (seg.flags.ack || seg.IsData()) {
        state := state.AdvanceTo(Established);
      }
      if seg.flags.fin {
        SetFin(d);
        state := state.AdvanceTo(if finO2R && finR2O then Closed else FinWait);
      }
    }

    method SetFin(d: Direction)
      modifies this`finO2R, this`finR2O
      ensures TheLife() == old(TheLife()).(phase := old(TheLife()).phase.SetFin(d))
      ensures TheDeriv() == old(TheDeriv()) && TheHist() == old(TheHist())
      ensures finO2R == (old(finO2R) || d == OriginToResponder) && finR2O == (old(finR2O) || d == ResponderToOrigin)
    {
      if d == OriginToResponder {
        finO2R := true;
      } else {
        finR2O := true;
      }
    }

    /** This segment's Time/Sequence points; moves the unwrapping frontiers. */
    method PushSeqPoints(seg: Segment, d: Direction, sample: Sample) returns (out: seq<Sample>)
      requires sample.MetricSample?
      modifies this`unwrap
      ensures var (u, points) := SeqPoints(old(unwrap), seg, d, sample.retransmit, sample.outOfOrder);
              out == points && unwrap == u
    {
      out := [];
      if seg.IsData() {
        var (f, rel) := Offset(unwrap.Get(d), seg.seqNo);
        unwrap := unwrap.Set(d, f);
        out := [SeqSample(seg.ts, d, rel, seg.payloadLen, Data(sample.retransmit, sample.outOfOrder))];
      }
      var acked := d.Opposite();
      ghost var u1, data := unwrap, out;
      assert u1 == u1.Set(acked, u1.Get(acked));
      for i := 0 to |seg.sackLefts|
        invariant unwrap == u1.Set(acked, SackPoints(u1.Get(acked), seg.sackLefts[..i], seg.ts, acked).0)
        invariant out == data + SackPoints(u1.Get(acked), seg.sackLefts[..i], seg.ts, acked).1
      {
        assert seg.sackLefts[..i + 1][..i] == seg.sackLefts[..i];
        var (f, rel) := Offset(unwrap.Get(acked), seg.sackLefts[i]);
        unwrap := unwrap.Set(acked, f);
        out := out + [SeqSample(seg.ts, acked, rel, 0, Sack)];
      }
      assert seg.sackLefts[..|seg.sackLefts|] == seg.sackLefts;
    }

    method PushBack(k: Kind, x: Sample)
      modifies this`states, this`series, this`seqPoints, this`inFlight, this`rtts, this`throughput
      ensures TheHist() == Append(old(TheHist()), k, x)
    {
      match k {
        case 0 => states := states + [x];
        case 1 => series := series + [x];
        case 2 => seqPoints := seqPoints + [x];
        case 3 => inFlight := inFlight + [x];
        case 4 => rtts := rtts + [x];
        case _ => throughput := throughput + [x];
      }
    }

    /** Whether this instance is finished or idle, and old. */
    function Dead(now: u64, horizon: u64, deadAfter: u64): (b: bool)
      reads this
      ensures b == !Survives(TheLife(), now, horizon, deadAfter)
    {
      (state.Terminal() || SatSub(now, lastAt) > deadAfter) && lastAt < horizon
    }

    /** How many samples this instance holds. */
    function Retained(): (n: nat)
      reads this
      ensures n == HistLen(TheHist())
    {
      |states| + |series| + |seqPoints| + |inFlight| + |rtts| + |throughput|
    }

    /** The last of the longest evictable series, and its evictable length. */
    method LongestSeries() returns (which: Kind, max: nat)
      ensures which == Longest(TheHist(), KINDS) && max == Evictable(TheHist(), which)
    {
      var lens := [SatSub(|states|, 1), |series|, |seqPoints|, |inFlight|, |rtts|, |throughput|];
      ghost var h := TheHist();
      assert forall k: Kind :: lens[k] == Evictable(h, k);
      which := 0;
      for k := 1 to KINDS
        invariant which < k && which == Longest(h, k)
      {
        if lens[k] >= lens[which] {
          which := k;
        }
      }
      max := lens[which];
    }

    method PopFront(k: Kind)
      requires |TheHist()[k]| > 0
      modifies this`states, this`series, this`seqPoints, this`inFlight, this`rtts, this`throughput
      ensures TheHist() == old(TheHist())[k := old(TheHist())[k][1..]]
    {
      match k {
        case 0 => states := states[1..];
        case 1 => series := series[1..];
        case 2 => seqPoints := seqPoints[1..];
        case 3 => inFlight := inFlight[1..];
        case 4 => rtts := rtts[1..];
        case _ => throughput := throughput[1..];
      }
    }

    /** Drops the oldest sample of the longest series, never the last state. */
    method PopLongestFront() returns (popped: bool)
      modifies this`states, this`series, this`seqPoints, this`inFlight, this`rtts, this`throughput
      ensures popped == CanPop(old(TheHist())) && TheHist() == PopLongest(old(TheHist()))
    {
      var which, max := LongestSeries();
      popped := max > 0;
      if popped {
        PopFront(which);
      }
    }

    /** Ages every series, counting what is dropped. */
    method Age(horizon: u64, count: nat) returns (left: nat)
      modifies this`states, this`series, this`seqPoints, this`inFlight, this`rtts, this`throughput
      ensures TheHist() == AgeHist(old(TheHist()), horizon)
      ensures left == SatSub(count, HistLen(old(TheHist())) - HistLen(TheHist()))
    {
      left := count;
      states, left := DropOld(states, horizon, 1, left);
      series, left := DropOld(series, horizon, 0, left);
      seqPoints, left := DropOld(seqPoints, horizon, 0, left);
      inFlight, left := DropOld(inFlight, horizon, 0, left);
      rtts, left := DropOld(rtts, horizon, 0, left);
      throughput, left := DropOld(throughput, horizon, 0, left);
    }
  }

  /** Drops samples older than the horizon from the front, never below `keepMin`. */
  method DropOld(dq: seq<Sample>, horizon: u64, keepMin: nat, count: nat) returns (r: seq<Sample>, left: nat)
    ensures r == EvictFront(dq, horizon, keepMin)
    ensures left == SatSub(count, |dq| - |r|)
  {
    r, left := dq, count;
    while |r| > keepMin && r[0].t < horizon
      invariant |r| <= |dq|
      invariant EvictFront(dq, horizon, keepMin) == EvictFront(r, horizon, keepMin)
      invariant left == SatSub(count, |dq| - |r|)
      decreases |r|
    {
      r := r[1..];
      left := SatSub(left, 1);
    }
  }
}
