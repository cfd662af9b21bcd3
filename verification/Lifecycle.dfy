/** The scalar life of one tracked instance: orientation, lifecycle state, byte and segment
    counts, and the per-direction sequence baselines. */
module Lifecycle {
  import opened Core
  import opened Serial

  /** Fixed when the instance opens. */
  datatype Identity = Identity(
    id: ConnId, origin: Endpoint, responder: Endpoint, originInferred: bool, openedAt: u64)
  {
    function DirectionOf(src: Endpoint): Direction {
      if src == origin then OriginToResponder else ResponderToOrigin
    }
  }

  /** Counters and sequence baselines. */
  datatype Traffic = Traffic(
    lastAt: u64, bytesO2R: nat, bytesR2O: nat, segments: nat,
    baseO2R: Option<u32>, baseR2O: Option<u32>)
  {
    function Baseline(d: Direction): Option<u32> {
      if d == OriginToResponder then baseO2R else baseR2O
    }

    function Bytes(): nat { bytesO2R + bytesR2O }

    function Account(seg: Segment, d: Direction): Traffic {
      var t := this.(lastAt := Max(lastAt, seg.ts), segments := segments + 1);
      if d == OriginToResponder then
        t.(bytesO2R := bytesO2R + seg.payloadLen, baseO2R := Some(SerialMax(baseO2R, seg.seqNo)))
      else
        t.(bytesR2O := bytesR2O + seg.payloadLen, baseR2O := Some(SerialMax(baseR2O, seg.seqNo)))
    }
  }

  /** The observed lifecycle point and the FINs seen. */
  datatype Phase = Phase(state: ConnState, finO2R: bool, finR2O: bool) {
    predicate Fin(d: Direction) {
      if d == OriginToResponder then finO2R else finR2O
    }

    function SetFin(d: Direction): Phase {
      if d == OriginToResponder then this.(finO2R := true) else this.(finR2O := true)
    }

    function Handshake(seg: Segment, d: Direction): ConnState {
      var s1 := if state == SynSent && (seg.flags.SynAck() || (seg.flags.BareSyn() && d == ResponderToOrigin))
                then state.AdvanceTo(SynReceived) else state;
      if s1 == SynReceived && (seg.flags.ack || seg.IsData()) then s1.AdvanceTo(Established) else s1
    }

    function Apply(seg: Segment, d: Direction): Phase {
      if seg.flags.rst then this.(state := Reset)
      else if state == Reset then this
      else
        var t := this.(state := Handshake(seg, d));
        if seg.flags.fin then
          var u := t.SetFin(d);
          u.(state := u.state.AdvanceTo(if u.finO2R && u.finR2O then Closed else FinWait))
        else t
    }
  }

  datatype Life = Life(ident: Identity, traffic: Traffic, phase: Phase) {
    /** Takes one further segment. */
    function Join(seg: Segment): Life {
      var d := ident.DirectionOf(seg.src);
      Life(ident, traffic.Account(seg, d), phase.Apply(seg, d))
    }

    function Snapshot(t: u64): Sample {
      StateSample(t, phase.state, traffic.bytesO2R, traffic.bytesR2O)
    }
  }

  function OpeningState(f: Flags): ConnState {
    if f.BareSyn() then SynSent
    else if f.SynAck() then SynReceived
    else if f.rst then Reset
    else if f.fin then FinWait
    else Established
  }

  function OpeningIdentity(id: ConnId, seg: Segment): Identity {
    if seg.flags.SynAck() then Identity(id, seg.dst, seg.src, false, seg.ts)
    else Identity(id, seg.src, seg.dst, !seg.flags.syn, seg.ts)
  }

  function NoTraffic(t: u64): Traffic { Traffic(t, 0, 0, 0, None, None) }

  /** The instance a first segment opens. */
  function Open(id: ConnId, seg: Segment): Life {
    var ident := OpeningIdentity(id, seg);
    var d := ident.DirectionOf(seg.src);
    var phase := Phase(OpeningState(seg.flags), false, false);
    Life(ident, NoTraffic(seg.ts).Account(seg, d), if seg.flags.fin then phase.SetFin(d) else phase)
  }

  /** The life of an instance after the segments attributed to it. */
  function LifeRun(id: ConnId, segs: seq<Segment>): Life
    requires |segs| > 0
  {
    var n := |segs| - 1;
    if n == 0 then Open(id, segs[0]) else LifeRun(id, segs[..n]).Join(segs[n])
  }

  // ------------------------------------------------------------- what never changes

  lemma {:induction false} IdentityIsFixed(id: ConnId, segs: seq<Segment>)
    requires |segs| > 0
    ensures LifeRun(id, segs).ident == OpeningIdentity(id, segs[0])
  {
    var n := |segs| - 1;
    if n > 0 {
      IdentityIsFixed(id, segs[..n]);
    }
  }

  lemma IdentityKeepsPair(id: ConnId, seg: Segment)
    ensures var ident := OpeningIdentity(id, seg);
            Canonical(ident.origin, ident.responder) == seg.Pair()
  {
    CanonicalIdentifiesUnorderedPairs(seg.src, seg.dst, seg.dst, seg.src);
  }

  // ------------------------------------------------------------------- the lifecycle

  lemma ApplyNeverFalls(p: Phase, seg: Segment, d: Direction)
    ensures p.Apply(seg, d).state.Rank() >= p.state.Rank()
  {
  }

  lemma LastNeverFalls(id: ConnId, segs: seq<Segment>)
    requires |segs| > 1
    ensures LifeRun(id, segs[..|segs| - 1]).phase.state.Rank() <= LifeRun(id, segs).phase.state.Rank()
  {
    var l, seg := LifeRun(id, segs[..|segs| - 1]), segs[|segs| - 1];
    ApplyNeverFalls(l.phase, seg, l.ident.DirectionOf(seg.src));
  }

  /** The rank never falls over the run of an instance. */
  lemma {:induction false} RankNeverFalls(id: ConnId, segs: seq<Segment>, k: nat)
    requires 0 < k <= |segs|
    ensures LifeRun(id, segs[..k]).phase.state.Rank() <= LifeRun(id, segs).phase.state.Rank()
  {
    if k == |segs| {
      assert segs[..k] == segs;
    } else {
      var init := segs[..|segs| - 1];
      assert init[..k] == segs[..k];
      RankNeverFalls(id, init, k);
      LastNeverFalls(id, segs);
    }
  }

  /** A reset instance stays reset. */
  lemma ResetIsAbsorbing(id: ConnId, segs: seq<Segment>, k: nat)
    requires 0 < k <= |segs| && LifeRun(id, segs[..k]).phase.state == Reset
    ensures LifeRun(id, segs).phase.state == Reset
  {
    RankNeverFalls(id, segs, k);
  }

  /** A reset was seen: on a first segment only when it did not carry SYN. */
  predicate ResetSeen(segs: seq<Segment>) {
    exists i :: 0 <= i < |segs| && segs[i].flags.rst && (i == 0 ==> !segs[i].flags.syn)
  }

  /** A FIN was seen from the given side. */
  predicate FinSeen(ident: Identity, segs: seq<Segment>, d: Direction) {
    exists i :: 0 <= i < |segs| && segs[i].flags.fin && ident.DirectionOf(segs[i].src) == d
  }

  /** A FIN was seen on anything but an opening SYN. */
  predicate ProperFinSeen(segs: seq<Segment>) {
    exists i :: 0 <= i < |segs| && segs[i].flags.fin && (i == 0 ==> !segs[i].flags.syn)
  }

  ghost predicate PhaseReads(p: Phase, ident: Identity, segs: seq<Segment>) {
    && (p.state == Reset <==> ResetSeen(segs))
    && (!ResetSeen(segs) ==> forall d :: p.Fin(d) <==> FinSeen(ident, segs, d))
    && (p.state == Closed <==> !ResetSeen(segs) && p.finO2R && p.finR2O)
    && (p.state == FinWait <==> !ResetSeen(segs) && p.finO2R != p.finR2O && ProperFinSeen(segs))
  }

  /** The lifecycle state read off the segments themselves: Reset exactly when a reset was
      seen; otherwise Closed exactly when both sides have sent FIN, and FinWait exactly when
      one side has, by more than an opening SYN. */
  lemma {:induction false} StateReadsTheSegments(id: ConnId, segs: seq<Segment>)
    requires |segs| > 0
    ensures var l := LifeRun(id, segs);
            PhaseReads(l.phase, l.ident, segs)
  {
    var n := |segs| - 1;
    var l := LifeRun(id, segs);
    if n > 0 {
      StateReadsTheSegments(id, segs[..n]);
      PhaseStep(LifeRun(id, segs[..n]).phase, l.ident, segs);
    } else {
      var d := l.ident.DirectionOf(segs[0].src);
      assert segs[0].flags.fin ==> FinSeen(l.ident, segs, d);
      assert segs[0].flags.fin && !segs[0].flags.syn ==> ProperFinSeen(segs);
    }
  }

  lemma PhaseStep(p: Phase, ident: Identity, segs: seq<Segment>)
    requires |segs| > 1
    requires PhaseReads(p, ident, segs[..|segs| - 1])
    ensures var s := segs[|segs| - 1];
            PhaseReads(p.Apply(s, ident.DirectionOf(s.src)), ident, segs)
  {
    var n := |segs| - 1;
    var s := segs[n];
    var d := ident.DirectionOf(s.src);
    SeenStep(ident, segs);
    if FinSeen(ident, segs, OriginToResponder) && FinSeen(ident, segs, ResponderToOrigin) {
      FinNeedsProper(ident, segs);
    }
    assert p.Apply(s, d).state == Reset <==> p.state == Reset || s.flags.rst;
    if !ResetSeen(segs) {
      assert p.Fin(OriginToResponder) == p.finO2R && p.Fin(ResponderToOrigin) == p.finR2O;
      assert p.Apply(s, d).finO2R == (p.finO2R || (s.flags.fin && d == OriginToResponder));
      assert p.Apply(s, d).finR2O == (p.finR2O || (s.flags.fin && d == ResponderToOrigin));
    }
  }

  /** What one further segment adds to what has been seen. */
  lemma SeenStep(ident: Identity, segs: seq<Segment>)
    requires |segs| > 1
    ensures var n := |segs| - 1;
            var pre, s := segs[..n], segs[n];
            && (ResetSeen(segs) <==> ResetSeen(pre) || s.flags.rst)
            && (ProperFinSeen(segs) <==> ProperFinSeen(pre) || s.flags.fin)
            && (forall d :: FinSeen(ident, segs, d) <==>
                            FinSeen(ident, pre, d) || (s.flags.fin && ident.DirectionOf(s.src) == d))
  {
    var n := |segs| - 1;
    var pre, s := segs[..n], segs[n];
    if ResetSeen(pre) {
      var i :| 0 <= i < n && pre[i].flags.rst && (i == 0 ==> !pre[i].flags.syn);
      assert segs[i].flags.rst;
    }
    if ProperFinSeen(pre) {
      var i :| 0 <= i < n && pre[i].flags.fin && (i == 0 ==> !pre[i].flags.syn);
      assert segs[i].flags.fin;
    }
    forall d | FinSeen(ident, pre, d)
      ensures FinSeen(ident, segs, d)
    {
      var i :| 0 <= i < n && pre[i].flags.fin && ident.DirectionOf(pre[i].src) == d;
      assert segs[i].flags.fin;
    }
    assert forall i | 0 <= i < n :: segs[i] == pre[i];
  }

  /** FINs from both sides cannot all sit on the one opening segment. */
  lemma FinNeedsProper(ident: Identity, segs: seq<Segment>)
    requires |segs| > 1
    requires FinSeen(ident, segs, OriginToResponder) && FinSeen(ident, segs, ResponderToOrigin)
    ensures ProperFinSeen(segs)
  {
    var i :| 0 <= i < |segs| && segs[i].flags.fin && ident.DirectionOf(segs[i].src) == OriginToResponder;
    var j :| 0 <= j < |segs| && segs[j].flags.fin && ident.DirectionOf(segs[j].src) == ResponderToOrigin;
    assert i != j;
  }

  // --------------------------------------------------------------------- accounting

  function Payload(segs: seq<Segment>): nat {
    if |segs| == 0 then 0 else Payload(segs[..|segs| - 1]) + segs[|segs| - 1].payloadLen
  }

  predicate IsLatest(t: u64, segs: seq<Segment>) {
    && (forall i | 0 <= i < |segs| :: segs[i].ts <= t)
    && (exists i :: 0 <= i < |segs| && segs[i].ts == t)
  }

  lemma LatestStep(t: u64, segs: seq<Segment>)
    requires |segs| > 1 && IsLatest(t, segs[..|segs| - 1])
    ensures IsLatest(Max(t, segs[|segs| - 1].ts), segs)
  {
    var n := |segs| - 1;
    var i :| 0 <= i < n && segs[..n][i].ts == t;
    assert segs[i].ts == t;
    forall j | 0 <= j < n ensures segs[j].ts <= t { assert segs[j] == segs[..n][j]; }
  }

  /** Every attributed segment and every payload byte is counted once, and the last
      activity is the latest timestamp, in whatever order timestamps came. */
  lemma {:induction false} CountsAreExact(id: ConnId, segs: seq<Segment>)
    requires |segs| > 0
    ensures var t := LifeRun(id, segs).traffic;
            t.segments == |segs| && t.Bytes() == Payload(segs) && IsLatest(t.lastAt, segs)
  {
    var n := |segs| - 1;
    var t := LifeRun(id, segs).traffic;
    if n > 0 {
      CountsAreExact(id, segs[..n]);
      LatestStep(LifeRun(id, segs[..n]).traffic.lastAt, segs);
    } else {
      assert segs[..0] == [];
      assert segs[0].ts == t.lastAt;
    }
  }

  // ---------------------------------------------------------------- wrap or reset

  /** `seqNo` sits behind the baseline by more than the threshold. */
  predicate IsBackwardReset(baseline: u32, seqNo: u32, threshold: u32) {
    SerialLt(seqNo, baseline) && SerialDiff(baseline, seqNo) > threshold
  }

  /** For a segment less than half the space from the running maximum, the reset test holds
      exactly when it is behind by more than the threshold; a forward wrap never resets. */
  lemma BackwardResetExactly(top: int, p: int, threshold: u32)
    requires Near(top, p)
    ensures IsBackwardReset(Wrap(top), Wrap(p), threshold) <==> top - p > threshold
  {
    SerialIsPositional(p, top);
  }
}
