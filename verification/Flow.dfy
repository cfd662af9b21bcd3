/** What the bytes in flight are: of an unbroken flow of segments in one direction, everything it
    has sent (payload, and one for each SYN and each FIN) less what has been acknowledged. */
module Flow {
  import opened Core
  import opened MetricSpec
  import opened Serial

  /** Sequence space direction `x` has used: its payload bytes, its SYNs and its FINs. */
  function Volume(x: Direction, obs: seq<Obs>): nat {
    if |obs| == 0 then 0
    else
      var o := obs[|obs| - 1];
      Volume(x, obs[..|obs| - 1]) +
      if o.dir == x
      then o.seg.payloadLen + (if o.seg.flags.syn then 1 else 0) + (if o.seg.flags.fin then 1 else 0) else 0
  }

  /** The furthest that has been acknowledged of it. */
  function Acknowledged(x: Direction, obs: seq<Obs>, amounts: seq<nat>): nat
    requires |amounts| == |obs|
  {
    if |obs| == 0 then 0
    else
      var n := |obs| - 1;
      var before := Acknowledged(x, obs[..n], amounts[..n]);
      if obs[n].dir != x && obs[n].seg.flags.ack then Max(before, amounts[n]) else before
  }

  /** Direction `x` sends without gap or overlap from number `start` on, and whatever the other
      side acknowledges, `amounts[n]` at observation `n`, has been sent by then. */
  ghost predicate Unbroken(x: Direction, obs: seq<Obs>, amounts: seq<nat>, start: u32)
    requires |amounts| == |obs|
  {
    |obs| > 0 ==>
      var n := |obs| - 1;
      var o, sent := obs[n], Volume(x, obs[..n]);
      && Unbroken(x, obs[..n], amounts[..n], start)
      && (o.dir == x ==> o.seg.seqNo == (start + sent) % 0x1_0000_0000)
      && (o.dir != x && o.seg.flags.ack ==>
            amounts[n] <= sent && o.seg.ackNo == (start + amounts[n]) % 0x1_0000_0000)
  }

  ghost predicate HasSent(x: Direction, obs: seq<Obs>) {
    exists i :: 0 <= i < |obs| && obs[i].dir == x
  }

  /** How far into the flow its last data segment reaches, if there was one. */
  function DataReach(x: Direction, obs: seq<Obs>): Option<nat> {
    if |obs| == 0 then None
    else
      var o := obs[|obs| - 1];
      if o.dir == x && o.seg.payloadLen > 0 then Some(Volume(x, obs)) else DataReach(x, obs[..|obs| - 1])
  }

  /** The state of the direction, in terms of the flow. */
  ghost predicate Tracks(s: DirState, x: Direction, obs: seq<Obs>, amounts: seq<nat>, start: u32)
    requires |amounts| == |obs|
  {
    && s.frontier == WrapOpt(Reached(x, obs, start))
    && if HasSent(x, obs)
       then s.sndNxt == Some(Wrap(start + Volume(x, obs)))
            && s.acked == Some(Wrap(start + Acknowledged(x, obs, amounts)))
       else s.sndNxt.None? && s.acked.None?
  }

  function Reached(x: Direction, obs: seq<Obs>, start: u32): Option<int> {
    var reach := DataReach(x, obs);
    if reach.Some? then Some(start + reach.value) else None
  }

  lemma {:induction false} FlowBounds(x: Direction, obs: seq<Obs>, amounts: seq<nat>, start: u32)
    requires |amounts| == |obs| && Unbroken(x, obs, amounts, start)
    ensures Acknowledged(x, obs, amounts) <= Volume(x, obs)
    ensures DataReach(x, obs).Some? ==> DataReach(x, obs).value <= Volume(x, obs)
    ensures !HasSent(x, obs) ==> Volume(x, obs) == 0 && DataReach(x, obs).None?
  {
    if |obs| > 0 {
      var n := |obs| - 1;
      FlowBounds(x, obs[..n], amounts[..n], start);
      SentBefore(x, obs);
    }
  }

  lemma SentBefore(x: Direction, obs: seq<Obs>)
    requires |obs| > 0
    ensures HasSent(x, obs) <==> HasSent(x, obs[..|obs| - 1]) || obs[|obs| - 1].dir == x
  {
    var n := |obs| - 1;
    if HasSent(x, obs[..n]) {
      var i :| 0 <= i < n && obs[..n][i].dir == x;
      assert obs[i].dir == x;
    }
    assert forall i | 0 <= i < n :: obs[i] == obs[..n][i];
  }

  /** Sending from position `from` up to `to`. */
  lemma SendMoves(s: DirState, seg: Segment, sent: Option<int>, reached: Option<int>, from: int, to: int, cfg: Config)
    requires s.sndNxt == WrapOpt(sent) && s.frontier == WrapOpt(reached) && seg.seqNo == Wrap(from)
    requires to == from + seg.Span()
    requires (sent.Some? ==> to - HALF < sent.value <= to) && (reached.Some? ==> to - HALF < reached.value <= to)
    ensures var r := Sent(s, seg, cfg);
            && r.sndNxt == Some(Wrap(to)) && r.acked == (if s.acked.Some? then s.acked else Some(Wrap(from)))
            && r.frontier == if seg.payloadLen > 0 then Some(Wrap(to)) else s.frontier
  {
    WrapAdd(from, seg.Span());
    SerialMaxIsMax(sent, to);
    SerialMaxIsMax(reached, to);
  }

  lemma InFlightAt(s: DirState, acked: int, sent: int)
    requires s.sndNxt == Some(Wrap(sent)) && s.acked == Some(Wrap(acked)) && acked <= sent < acked + HALF
    ensures InFlight(s) == Some(sent - acked)
  {
    SerialIsPositional(acked, sent);
  }

  lemma LateAt(s: DirState, seg: Segment, q: int, reached: Option<int>, w: u64)
    requires s.frontier == WrapOpt(reached) && seg.payloadLen > 0 && seg.seqNo == Wrap(q)
    requires reached.Some? ==> Near(q, reached.value)
    ensures Classify(s, seg, w) != InOrder <==> reached.Some? && q < reached.value
  {
    if reached.Some? {
      SerialIsPositional(q, reached.value);
    }
  }

  lemma SendTracks(s: DirState, x: Direction, obs: seq<Obs>, amounts: seq<nat>, start: u32, cfg: Config)
    requires |amounts| == |obs| > 0 && Unbroken(x, obs, amounts, start) && Volume(x, obs) < HALF
    requires obs[|obs| - 1].dir == x && Tracks(s, x, obs[..|obs| - 1], amounts[..|obs| - 1], start)
    ensures Tracks(Sent(s, obs[|obs| - 1].seg, cfg), x, obs, amounts, start)
  {
    var n := |obs| - 1;
    var seg, sent := obs[n].seg, Volume(x, obs[..n]);
    SentBefore(x, obs);
    FlowBounds(x, obs[..n], amounts[..n], start);
    SendMoves(s, seg, if HasSent(x, obs[..n]) then Some(start + sent) else None, Reached(x, obs[..n], start),
              start + sent, start + Volume(x, obs), cfg);
    assert obs[n].dir == x && HasSent(x, obs);
  }

  /** Acknowledging up to position `to` what was acknowledged up to `acked`. */
  lemma AckMoves(s: DirState, seg: Segment, acked: int, to: int)
    requires s.sndNxt.Some? && s.acked == Some(Wrap(acked)) && Near(acked, to)
    requires seg.flags.ack && seg.ackNo == Wrap(to)
    ensures var r := AckedBy(s, seg);
            r.acked == Some(Wrap(Max(acked, to))) && r.sndNxt == s.sndNxt && r.frontier == s.frontier
  {
    SerialIsPositional(acked, to);
  }

  /** What the other side sends moves nothing but what is acknowledged. */
  lemma AckFacts(x: Direction, obs: seq<Obs>, amounts: seq<nat>, start: u32)
    requires |amounts| == |obs| > 0 && obs[|obs| - 1].dir != x
    ensures var n := |obs| - 1;
            && Volume(x, obs) == Volume(x, obs[..n]) && Reached(x, obs, start) == Reached(x, obs[..n], start)
            && (HasSent(x, obs) <==> HasSent(x, obs[..n]))
  {
    SentBefore(x, obs);
  }

  lemma AckTracks(s: DirState, x: Direction, obs: seq<Obs>, amounts: seq<nat>, start: u32)
    requires |amounts| == |obs| > 0 && Unbroken(x, obs, amounts, start) && Volume(x, obs) < HALF
    requires obs[|obs| - 1].dir != x && Tracks(s, x, obs[..|obs| - 1], amounts[..|obs| - 1], start)
    ensures Tracks(AckedBy(s, obs[|obs| - 1].seg), x, obs, amounts, start)
  {
    var n := |obs| - 1;
    AckFacts(x, obs, amounts, start);
    if obs[n].seg.flags.ack && HasSent(x, obs[..n]) {
      FlowBounds(x, obs[..n], amounts[..n], start);
      AckMoves(s, obs[n].seg, start + Acknowledged(x, obs[..n], amounts[..n]), start + amounts[n]);
    }
  }

  lemma {:induction false} FlowTracks(x: Direction, obs: seq<Obs>, amounts: seq<nat>, start: u32, cfg: Config)
    requires |amounts| == |obs| && Unbroken(x, obs, amounts, start) && Volume(x, obs) < HALF
    ensures Tracks(DirRun(x, obs, cfg), x, obs, amounts, start)
  {
    if |obs| > 0 {
      var n := |obs| - 1;
      FlowTracks(x, obs[..n], amounts[..n], start, cfg);
      if obs[n].dir == x {
        SendTracks(DirRun(x, obs[..n], cfg), x, obs, amounts, start, cfg);
      } else {
        AckTracks(DirRun(x, obs[..n], cfg), x, obs, amounts, start);
      }
    }
  }

  /** Of an unbroken flow of less than half the number space, what is in flight is the payload,
      the SYNs and the FINs sent, less what has been acknowledged of them. */
  lemma InFlightIsVolume(x: Direction, obs: seq<Obs>, amounts: seq<nat>, start: u32, cfg: Config)
    requires |amounts| == |obs| && Unbroken(x, obs, amounts, start)
    requires Volume(x, obs) < 0x8000_0000 && HasSent(x, obs)
    ensures Acknowledged(x, obs, amounts) <= Volume(x, obs)
    ensures InFlight(MetricRun(obs, cfg).Get(x)) == Some(Volume(x, obs) - Acknowledged(x, obs, amounts))
  {
    DirectionsAreIndependent(obs, cfg);
    FlowTracks(x, obs, amounts, start, cfg);
    TrackedInFlight(DirRun(x, obs, cfg), x, obs, amounts, start);
  }

  lemma TrackedInFlight(s: DirState, x: Direction, obs: seq<Obs>, amounts: seq<nat>, start: u32)
    requires |amounts| == |obs| && Unbroken(x, obs, amounts, start) && Tracks(s, x, obs, amounts, start)
    requires Volume(x, obs) < HALF && HasSent(x, obs)
    ensures Acknowledged(x, obs, amounts) <= Volume(x, obs)
    ensures InFlight(s) == Some(Volume(x, obs) - Acknowledged(x, obs, amounts))
  {
    FlowBounds(x, obs, amounts, start);
    InFlightAt(s, start + Acknowledged(x, obs, amounts), start + Volume(x, obs));
  }

  /** And without any acknowledgement it is all of that. */
  lemma {:induction false} NothingAcknowledged(x: Direction, obs: seq<Obs>, amounts: seq<nat>)
    requires |amounts| == |obs| && forall i | 0 <= i < |obs| && obs[i].dir != x :: !obs[i].seg.flags.ack
    ensures Acknowledged(x, obs, amounts) == 0
  {
    if |obs| > 0 {
      NothingAcknowledged(x, obs[..|obs| - 1], amounts[..|obs| - 1]);
    }
  }

  /** Data at `q` into such a flow is late exactly when the last data segment reaches beyond it. */
  lemma LateExactly(x: Direction, obs: seq<Obs>, amounts: seq<nat>, start: u32, seg: Segment, q: nat, cfg: Config)
    requires |amounts| == |obs| && Unbroken(x, obs, amounts, start) && Volume(x, obs) < 0x8000_0000
    requires seg.payloadLen > 0 && q < 0x8000_0000 && seg.seqNo == (start + q) % 0x1_0000_0000
    ensures Classify(MetricRun(obs, cfg).Get(x), seg, cfg.reorderWindow) != InOrder <==>
            DataReach(x, obs).Some? && q < DataReach(x, obs).value
  {
    FlowTracks(x, obs, amounts, start, cfg);
    FlowBounds(x, obs, amounts, start);
    DirectionsAreIndependent(obs, cfg);
    LateAt(DirRun(x, obs, cfg), seg, start + q, Reached(x, obs, start), cfg.reorderWindow);
  }
}
