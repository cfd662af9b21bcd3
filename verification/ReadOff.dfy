/** A connection's life read off its segments, flag by flag: who opened it, what each side has
    sent, and how far the handshake has come. */
module ReadOff {
  import opened Core
  import opened Lifecycle

  // -------------------------------------------------------------------- orientation

  /** The side that opened: the receiver of an opening SYN-ACK, else the first sender. */
  function Opener(segs: seq<Segment>): Endpoint
    requires |segs| > 0
  {
    if segs[0].flags.syn && segs[0].flags.ack then segs[0].dst else segs[0].src
  }

  function Other(segs: seq<Segment>): Endpoint
    requires |segs| > 0
  {
    if segs[0].flags.syn && segs[0].flags.ack then segs[0].src else segs[0].dst
  }

  /** The origin is the opener, inferred when the first segment carries no SYN; the connection
      opens with its first segment. */
  lemma OriginIsOpener(id: ConnId, segs: seq<Segment>)
    requires |segs| > 0
    ensures var ident := LifeRun(id, segs).ident;
            && ident.id == id && ident.origin == Opener(segs) && ident.responder == Other(segs)
            && ident.originInferred == !segs[0].flags.syn && ident.openedAt == segs[0].ts
  {
    IdentityIsFixed(id, segs);
  }

  // ------------------------------------------------------------------ bytes by side

  /** Payload of the segments `src` sent. */
  function PayloadFrom(segs: seq<Segment>, src: Endpoint): nat {
    if |segs| == 0 then 0
    else
      var last := segs[|segs| - 1];
      PayloadFrom(segs[..|segs| - 1], src) + if last.src == src then last.payloadLen else 0
  }

  /** Payload of the segments others than `src` sent. */
  function PayloadNotFrom(segs: seq<Segment>, src: Endpoint): nat {
    if |segs| == 0 then 0
    else
      var last := segs[|segs| - 1];
      PayloadNotFrom(segs[..|segs| - 1], src) + if last.src == src then 0 else last.payloadLen
  }

  /** Each byte counter is what its side has sent. */
  lemma {:induction false} BytesAreBySide(id: ConnId, segs: seq<Segment>)
    requires |segs| > 0
    ensures var t := LifeRun(id, segs).traffic;
            t.bytesO2R == PayloadFrom(segs, Opener(segs)) && t.bytesR2O == PayloadNotFrom(segs, Opener(segs))
  {
    var n := |segs| - 1;
    OriginIsOpener(id, segs);
    if n > 0 {
      BytesAreBySide(id, segs[..n]);
      OriginIsOpener(id, segs[..n]);
    } else {
      assert segs[..0] == [];
    }
  }

  // ------------------------------------------------------------------- the handshake

  /** The segment answers an opening SYN: a SYN-ACK, or later a bare SYN of the other side. */
  predicate Answers(segs: seq<Segment>, i: nat)
    requires i < |segs|
  {
    segs[i].flags.syn && (segs[i].flags.ack || (i > 0 && segs[i].src != Opener(segs)))
  }

  predicate Answered(segs: seq<Segment>) {
    exists i: nat :: i < |segs| && Answers(segs, i)
  }

  /** An answer, and at it or after it, but after the first segment, an ACK or data. */
  predicate Completed(segs: seq<Segment>) {
    exists i: nat, j: nat ::
      i <= j < |segs| && 0 < j && Answers(segs, i) && (segs[j].flags.ack || segs[j].payloadLen > 0)
  }

  /** The state by the segments alone, where no reset and no FIN has been seen. */
  ghost predicate ReadsHandshake(state: ConnState, segs: seq<Segment>)
    requires |segs| > 0
  {
    && (state == Established <==> !segs[0].flags.syn || Completed(segs))
    && (state == SynReceived <==> segs[0].flags.syn && Answered(segs) && !Completed(segs))
    && (state == SynSent <==> segs[0].flags.syn && !segs[0].flags.ack && !Answered(segs))
  }

  lemma AnswersInPrefix(segs: seq<Segment>, i: nat)
    requires 0 < |segs| - 1 && i < |segs| - 1
    ensures Answers(segs[..|segs| - 1], i) <==> Answers(segs, i)
  {}

  /** What one further segment adds. */
  lemma HandshakeSeen(segs: seq<Segment>)
    requires |segs| > 1
    ensures var n := |segs| - 1;
            && (Answered(segs) <==> Answered(segs[..n]) || Answers(segs, n))
            && (Completed(segs) <==>
                  Completed(segs[..n]) || (Answered(segs) && (segs[n].flags.ack || segs[n].payloadLen > 0)))
  {
    var n := |segs| - 1;
    forall i: nat | i < n
      ensures Answers(segs[..n], i) <==> Answers(segs, i)
    {
      AnswersInPrefix(segs, i);
    }
    if Completed(segs[..n]) {
      var i: nat, j: nat :|
        i <= j < n && 0 < j && Answers(segs[..n], i) && (segs[..n][j].flags.ack || segs[..n][j].payloadLen > 0);
      assert Answers(segs, i) && segs[j] == segs[..n][j];
    }
    if Completed(segs) {
      var i: nat, j: nat :|
        i <= j < |segs| && 0 < j && Answers(segs, i) && (segs[j].flags.ack || segs[j].payloadLen > 0);
      assert j < n ==> Answers(segs[..n], i) && segs[..n][j] == segs[j];
    }
  }

  lemma HandshakeStep(p: Phase, seg: Segment, d: Direction)
    requires !seg.flags.rst && !seg.flags.fin && p.state.Rank() <= Established.Rank()
    ensures var answers := seg.flags.syn && (seg.flags.ack || d == ResponderToOrigin);
            var reached := if p.state == SynSent && answers then SynReceived else p.state;
            p.Apply(seg, d).state ==
              if reached == SynReceived && (seg.flags.ack || seg.payloadLen > 0) then Established else reached
  {}

  lemma SeenEarlier(segs: seq<Segment>)
    requires |segs| > 1 && !ResetSeen(segs) && !ProperFinSeen(segs)
    ensures var n := |segs| - 1;
            !ResetSeen(segs[..n]) && !ProperFinSeen(segs[..n]) && !segs[n].flags.rst && !segs[n].flags.fin
  {
    SeenStep(OpeningIdentity(ConnId(segs[0].Pair(), 0), segs[0]), segs);
  }

  /** While no reset and no FIN but an opening SYN's has been seen, the state is SynSent exactly
      when a bare SYN has not been answered, SynReceived exactly when it has but nothing
      completes the handshake, and Established exactly when something does, or when the
      connection was first seen without a SYN. */
  lemma {:induction false} StateReadsTheHandshake(id: ConnId, segs: seq<Segment>)
    requires |segs| > 0 && !ResetSeen(segs) && !ProperFinSeen(segs)
    ensures ReadsHandshake(LifeRun(id, segs).phase.state, segs)
  {
    var n := |segs| - 1;
    if n > 0 {
      SeenEarlier(segs);
      StateReadsTheHandshake(id, segs[..n]);
      OriginIsOpener(id, segs[..n]);
      NextReadsHandshake(LifeRun(id, segs[..n]), segs);
    } else {
      OpeningReadsHandshake(segs);
    }
  }

  lemma OpeningReadsHandshake(segs: seq<Segment>)
    requires |segs| == 1 && !ResetSeen(segs) && !ProperFinSeen(segs)
    ensures ReadsHandshake(OpeningState(segs[0].flags), segs)
  {
    assert segs[0].flags.syn || (!segs[0].flags.rst && !segs[0].flags.fin);
    assert Answered(segs) <==> Answers(segs, 0);
  }

  lemma NextReadsHandshake(l: Life, segs: seq<Segment>)
    requires |segs| > 1 && l.ident.origin == Opener(segs) && ReadsHandshake(l.phase.state, segs[..|segs| - 1])
    requires !segs[|segs| - 1].flags.rst && !segs[|segs| - 1].flags.fin
    ensures ReadsHandshake(l.Join(segs[|segs| - 1]).phase.state, segs)
  {
    var n := |segs| - 1;
    HandshakeSeen(segs);
    AnswersInPrefix(segs, 0);
    assert segs[0].flags.syn && segs[0].flags.ack ==> Answers(segs[..n], 0);
    HandshakeStep(l.phase, segs[n], l.ident.DirectionOf(segs[n].src));
  }
}
