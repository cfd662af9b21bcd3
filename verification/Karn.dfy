/** Karn's rule over whole runs (section 3 of RFC 6298): which send every reported
    round-trip time measures, and which sends are waiting to be measured. */
module Karn {
  import opened Core
  import opened Serial
  import opened MetricSpec
  import opened IdealMetrics

  // --------------------------------------------------- the queue, by observation

  /** The observations whose sends wait in `pendingRtt`, oldest first. */
  ghost function Queue(x: Direction, obs: seq<Obs>, cfg: Config): (q: seq<nat>)
    ensures |q| == |DirRun(x, obs, cfg).pendingRtt|
  {
    if |obs| == 0 then [] else
      var pre, o := obs[..|obs| - 1], obs[|obs| - 1];
      var q, s := Queue(x, pre, cfg), DirRun(x, pre, cfg);
      if o.dir == x then
        if Classify(s, o.seg, cfg.reorderWindow) == Retransmitted then []
        else if o.seg.ConsumesSeq() then q + [|obs| - 1]
        else q
      else if AckAdvances(s, o.seg) then q[Covered(s.pendingRtt, o.seg.ackNo)..]
      else q
  }

  /** Observation `i` is a send of direction `x` judged a retransmission. */
  ghost predicate RetransmittedAt(x: Direction, obs: seq<Obs>, i: int, cfg: Config) {
    && 0 <= i < |obs| && obs[i].dir == x
    && Classify(DirRun(x, obs[..i], cfg), obs[i].seg, cfg.reorderWindow) == Retransmitted
  }

  /** Observation `i` is a first transmission occupying sequence space, and nothing in the
      direction has been retransmitted since. */
  ghost predicate Unambiguous(x: Direction, obs: seq<Obs>, i: int, cfg: Config) {
    && 0 <= i < |obs| && obs[i].dir == x && obs[i].seg.ConsumesSeq()
    && forall j | i <= j < |obs| :: !RetransmittedAt(x, obs, j, cfg)
  }

  lemma RetransmittedInPrefix(x: Direction, obs: seq<Obs>, n: nat, i: int, cfg: Config)
    requires n <= |obs| && i < n
    ensures RetransmittedAt(x, obs[..n], i, cfg) == RetransmittedAt(x, obs, i, cfg)
  {
    if 0 <= i {
      assert obs[..n][..i] == obs[..i];
    }
  }

  lemma UnambiguousStep(x: Direction, obs: seq<Obs>, i: int, cfg: Config)
    requires |obs| > 0 && i < |obs| - 1
    ensures Unambiguous(x, obs, i, cfg) <==>
            Unambiguous(x, obs[..|obs| - 1], i, cfg) && !RetransmittedAt(x, obs, |obs| - 1, cfg)
  {
    var n := |obs| - 1;
    forall j | i <= j < n
      ensures RetransmittedAt(x, obs[..n], j, cfg) == RetransmittedAt(x, obs, j, cfg)
    {
      RetransmittedInPrefix(x, obs, n, j, cfg);
    }
    if Unambiguous(x, obs[..n], i, cfg) && !RetransmittedAt(x, obs, n, cfg) {
      forall j | i <= j < |obs|
        ensures !RetransmittedAt(x, obs, j, cfg)
      {
        if j < n {
          assert !RetransmittedAt(x, obs[..n], j, cfg);
        }
      }
    }
  }

  ghost predicate Ascending(q: seq<nat>) {
    forall j, k | 0 <= j < k < |q| :: q[j] < q[k]
  }

  ghost predicate QueueEntryAt(x: Direction, obs: seq<Obs>, j: int, cfg: Config)
    requires 0 <= j < |Queue(x, obs, cfg)|
  {
    var i := Queue(x, obs, cfg)[j];
    && Unambiguous(x, obs, i, cfg)
    && DirRun(x, obs, cfg).pendingRtt[j] == Pending(SeqEnd(obs[i].seg), obs[i].seg.ts)
  }

  /** How one observation moves the queue: a retransmission empties it, otherwise covered
      entries leave at the front and the observation itself may join at the back. */
  lemma QueueStep(x: Direction, obs: seq<Obs>, cfg: Config) returns (cut: nat, joins: bool)
    requires |obs| > 0
    ensures var n := |obs| - 1;
            var q, q' := Queue(x, obs[..n], cfg), Queue(x, obs, cfg);
            var pending, pending' := DirRun(x, obs[..n], cfg).pendingRtt, DirRun(x, obs, cfg).pendingRtt;
            var mine := Pending(SeqEnd(obs[n].seg), obs[n].seg.ts);
            && cut <= |q|
            && (joins ==> obs[n].dir == x && obs[n].seg.ConsumesSeq())
            && if RetransmittedAt(x, obs, n, cfg) then q' == []
               else q' == q[cut..] + (if joins then [n] else []) &&
                    pending' == pending[cut..] + (if joins then [mine] else [])
  {
    var n := |obs| - 1;
    var s, o := DirRun(x, obs[..n], cfg), obs[n];
    joins := o.dir == x && o.seg.ConsumesSeq();
    cut := if o.dir != x && AckAdvances(s, o.seg) then Covered(s.pendingRtt, o.seg.ackNo) else 0;
  }

  lemma QueueEntryStep(x: Direction, obs: seq<Obs>, cut: nat, joins: bool, j: nat, cfg: Config)
    requires |obs| > 0 && !RetransmittedAt(x, obs, |obs| - 1, cfg)
    requires var n := |obs| - 1;
             var q, q' := Queue(x, obs[..n], cfg), Queue(x, obs, cfg);
             var pending, pending' := DirRun(x, obs[..n], cfg).pendingRtt, DirRun(x, obs, cfg).pendingRtt;
             && cut <= |q| && j < |q'|
             && (joins ==> obs[n].dir == x && obs[n].seg.ConsumesSeq())
             && q' == q[cut..] + (if joins then [n] else [])
             && pending' == pending[cut..] + (if joins then [Pending(SeqEnd(obs[n].seg), obs[n].seg.ts)] else [])
             && (j + cut < |q| ==> QueueEntryAt(x, obs[..n], j + cut, cfg))
    ensures QueueEntryAt(x, obs, j, cfg)
    ensures Queue(x, obs, cfg)[j] ==
            if j + cut < |Queue(x, obs[..|obs| - 1], cfg)| then Queue(x, obs[..|obs| - 1], cfg)[j + cut] else |obs| - 1
    ensures j + cut < |Queue(x, obs[..|obs| - 1], cfg)| ==> Queue(x, obs, cfg)[j] < |obs| - 1
  {
    var n := |obs| - 1;
    var q := Queue(x, obs[..n], cfg);
    if j + cut < |q| {
      UnambiguousStep(x, obs, q[j + cut], cfg);
    }
  }

  /** Every waiting entry is an unambiguous send, and the entries are in sending order. */
  lemma {:induction false} QueueIsUnambiguous(x: Direction, obs: seq<Obs>, cfg: Config)
    ensures Ascending(Queue(x, obs, cfg))
    ensures forall j | 0 <= j < |Queue(x, obs, cfg)| :: QueueEntryAt(x, obs, j, cfg)
  {
    if |obs| > 0 {
      var n := |obs| - 1;
      QueueIsUnambiguous(x, obs[..n], cfg);
      var cut, joins := QueueStep(x, obs, cfg);
      if !RetransmittedAt(x, obs, n, cfg) {
        var q, q' := Queue(x, obs[..n], cfg), Queue(x, obs, cfg);
        forall j | 0 <= j < |q'|
          ensures QueueEntryAt(x, obs, j, cfg)
          ensures q'[j] == if j + cut < |q| then q[j + cut] else n
          ensures j + cut < |q| ==> q'[j] < n
        {
          QueueEntryStep(x, obs, cut, joins, j, cfg);
        }
      }
    }
  }

  // --------------------------------------------------------- where RTTs come from

  /** Observation `n` reports a round-trip time for direction `x`. */
  ghost predicate Reports(x: Direction, obs: seq<Obs>, n: int, cfg: Config) {
    0 <= n < |obs| && obs[n].dir != x && RttOf(DirRun(x, obs[..n], cfg), obs[n].seg).Some?
  }

  /** The send that the round-trip time reported at `n` measures. */
  ghost function Source(x: Direction, obs: seq<Obs>, n: int, cfg: Config): nat
    requires Reports(x, obs, n, cfg)
  {
    Queue(x, obs[..n], cfg)[0]
  }

  /** Every reported round-trip time is the (saturating) time from an earlier send of the
      other side that this acknowledgement covers, with nothing in that direction judged a
      retransmission at or after that send. */
  lemma RttMeasuresUnambiguousSend(x: Direction, obs: seq<Obs>, n: nat, cfg: Config)
    requires Reports(x, obs, n, cfg)
    ensures var i := Source(x, obs, n, cfg);
            && i < n && obs[i].dir == x && obs[i].seg.ConsumesSeq()
            && (forall j | i <= j < n :: !RetransmittedAt(x, obs, j, cfg))
            && SerialLe(SeqEnd(obs[i].seg), obs[n].seg.ackNo)
            && RttOf(DirRun(x, obs[..n], cfg), obs[n].seg) == Some(SatSub(obs[n].seg.ts, obs[i].seg.ts))
  {
    var pre := obs[..n];
    QueueIsUnambiguous(x, pre, cfg);
    assert QueueEntryAt(x, pre, 0, cfg);
    var i := Source(x, obs, n, cfg);
    forall j | i <= j < n
      ensures !RetransmittedAt(x, obs, j, cfg)
    {
      RetransmittedInPrefix(x, obs, n, j, cfg);
    }
  }

  /** Everything waiting was sent after observation `i`. */
  ghost predicate AllAfter(q: seq<nat>, i: nat) {
    forall j | 0 <= j < |q| :: i < q[j]
  }

  lemma PopMovesPast(x: Direction, obs: seq<Obs>, n: nat, cfg: Config)
    requires Reports(x, obs, n, cfg)
    ensures AllAfter(Queue(x, obs[..n + 1], cfg), Source(x, obs, n, cfg))
  {
    assert obs[..n + 1][..n] == obs[..n];
    QueueIsUnambiguous(x, obs[..n], cfg);
    var q := Queue(x, obs[..n], cfg);
    var c := Covered(DirRun(x, obs[..n], cfg).pendingRtt, obs[n].seg.ackNo);
    assert c > 0 && Queue(x, obs[..n + 1], cfg) == q[c..];
  }

  lemma StepStaysPast(x: Direction, obs: seq<Obs>, i: nat, cfg: Config)
    requires |obs| > 0 && i < |obs| - 1 && AllAfter(Queue(x, obs[..|obs| - 1], cfg), i)
    ensures AllAfter(Queue(x, obs, cfg), i)
  {
    var cut, joins := QueueStep(x, obs, cfg);
  }

  /** After observation `n` has reported, everything waiting was sent after its source. */
  lemma {:induction false} QueueMovesPastSource(x: Direction, obs: seq<Obs>, n: nat, m: nat, cfg: Config)
    requires Reports(x, obs, n, cfg) && n < m <= |obs|
    ensures AllAfter(Queue(x, obs[..m], cfg), Source(x, obs, n, cfg))
  {
    if n == m - 1 {
      PopMovesPast(x, obs, n, cfg);
    } else {
      QueueMovesPastSource(x, obs, n, m - 1, cfg);
      RttMeasuresUnambiguousSend(x, obs, n, cfg);
      assert obs[..m][..m - 1] == obs[..m - 1];
      StepStaysPast(x, obs[..m], Source(x, obs, n, cfg), cfg);
    }
  }

  /** No send is ever measured twice: later reports measure strictly later sends. */
  lemma NoSendMeasuredTwice(x: Direction, obs: seq<Obs>, n: nat, m: nat, cfg: Config)
    requires n < m && Reports(x, obs, n, cfg) && Reports(x, obs, m, cfg)
    ensures Source(x, obs, n, cfg) < Source(x, obs, m, cfg)
  {
    QueueMovesPastSource(x, obs, n, m, cfg);
  }

  // ------------------------------------------------- the queue on orderly streams

  /** The observation is a first transmission of direction `x`. */
  ghost predicate SendsNew(x: Direction, s: IdealDir, e: Located, cfg: Config) {
    e.obs.dir == x && e.obs.seg.ConsumesSeq() && IdealVerdict(s, e, cfg.reorderWindow) != Retransmitted
  }

  /** The run sends strictly past its frontier except for retransmissions, and nothing is
      acknowledged that was not sent. */
  ghost predicate Orderly(x: Direction, es: seq<Located>, cfg: Config) {
    |es| > 0 ==>
      var pre, e := es[..|es| - 1], es[|es| - 1];
      var s := IdealRun(x, pre, cfg);
      && Orderly(x, pre, cfg)
      && (SendsNew(x, s, e, cfg) && s.sndNxt.Some? ==> e.EndPos() > s.sndNxt.value)
      && (e.obs.dir != x && e.obs.seg.flags.ack && s.sndNxt.Some? ==> e.ackPos <= s.sndNxt.value)
  }

  ghost predicate IdealRetransmittedAt(x: Direction, es: seq<Located>, i: int, cfg: Config) {
    && 0 <= i < |es| && es[i].obs.dir == x
    && IdealVerdict(IdealRun(x, es[..i], cfg), es[i], cfg.reorderWindow) == Retransmitted
  }

  /** The sends since the last retransmission that no acknowledgement has reached: the
      declarative content of the queue. */
  ghost function Unacknowledged(x: Direction, es: seq<Located>, n: nat, acked: Option<int>, cfg: Config): seq<Waiting>
    requires n <= |es|
  {
    if n == 0 then [] else
      var e := es[n - 1];
      if IdealRetransmittedAt(x, es, n - 1, cfg) then []
      else
        Unacknowledged(x, es, n - 1, acked, cfg) +
        if e.obs.dir == x && e.obs.seg.ConsumesSeq() && (acked.None? || e.EndPos() > acked.value)
        then [Waiting(e.EndPos(), e.obs.seg.ts)] else []
  }

  lemma {:induction false} UnacknowledgedOfPrefix(
    x: Direction, es: seq<Located>, m: nat, n: nat, acked: Option<int>, cfg: Config)
    requires n <= m <= |es|
    ensures Unacknowledged(x, es[..m], n, acked, cfg) == Unacknowledged(x, es, n, acked, cfg)
  {
    if n > 0 {
      assert es[..m][..n - 1] == es[..n - 1];
      UnacknowledgedOfPrefix(x, es, m, n - 1, acked, cfg);
    }
  }

  /** Sends still above a later acknowledgement. */
  ghost function Above(q: seq<Waiting>, ack: int): seq<Waiting> {
    if |q| == 0 then [] else
      var w := q[|q| - 1];
      Above(q[..|q| - 1], ack) + if w.end > ack then [w] else []
  }

  lemma {:induction false} UnacknowledgedAbove(
    x: Direction, es: seq<Located>, n: nat, acked: Option<int>, ack: int, cfg: Config)
    requires n <= |es| && (acked.Some? ==> acked.value <= ack)
    ensures Unacknowledged(x, es, n, Some(ack), cfg) == Above(Unacknowledged(x, es, n, acked, cfg), ack)
  {
    if n > 0 && !IdealRetransmittedAt(x, es, n - 1, cfg) {
      UnacknowledgedAbove(x, es, n - 1, acked, ack, cfg);
      var e := es[n - 1];
      if e.obs.dir == x && e.obs.seg.ConsumesSeq() && (acked.None? || e.EndPos() > acked.value) {
        var q := Unacknowledged(x, es, n - 1, acked, cfg);
        var w := Waiting(e.EndPos(), e.obs.seg.ts);
        assert (q + [w])[..|q|] == q;
      } else {
        assert Unacknowledged(x, es, n, acked, cfg) == Unacknowledged(x, es, n - 1, acked, cfg);
      }
    }
  }

  ghost predicate Rising(q: seq<Waiting>) {
    forall j, k | 0 <= j < k < |q| :: q[j].end < q[k].end
  }

  lemma {:induction false} AllAbove(q: seq<Waiting>, ack: int)
    requires forall j | 0 <= j < |q| :: q[j].end > ack
    ensures Above(q, ack) == q
  {
    if |q| > 0 {
      var init, last := q[..|q| - 1], q[|q| - 1];
      assert q == init + [last];
      assert last.end > ack;
      AllAbove(init, ack);
    }
  }

  lemma {:induction false} AboveTail(q: seq<Waiting>, ack: int)
    requires |q| > 0 && q[0].end <= ack
    ensures Above(q, ack) == Above(q[1..], ack)
  {
    if |q| > 1 {
      AboveTail(q[..|q| - 1], ack);
      assert q[..|q| - 1][1..] == q[1..][..|q| - 2];
    } else {
      assert q[..0] == [] && q[1..] == [];
    }
  }

  /** On a rising queue, popping covered sends from the front removes exactly the covered
      sends. */
  lemma {:induction false} PopIsFilter(q: seq<Waiting>, ack: int)
    requires Rising(q)
    ensures q[IdealCovered(q, ack)..] == Above(q, ack)
  {
    if |q| > 0 && q[0].end <= ack {
      AboveTail(q, ack);
      PopIsFilter(q[1..], ack);
      assert q[1..][IdealCovered(q[1..], ack)..] == q[IdealCovered(q, ack)..];
    } else {
      AllAbove(q, ack);
    }
  }

  lemma {:induction false} PoppedAreAbove(q: seq<Waiting>, ack: int)
    requires Rising(q)
    ensures var c := IdealCovered(q, ack);
            forall j | c <= j < |q| :: q[j].end > ack
  {
    if |q| > 0 && q[0].end <= ack {
      PoppedAreAbove(q[1..], ack);
    }
  }

  /** What every state of an orderly run looks like: the queue rises strictly between
      what is acknowledged and what is sent. */
  ghost predicate WellQueued(s: IdealDir) {
    && s.sndNxt.Some? == s.acked.Some?
    && (s.acked.None? ==> s.waiting == [] && s.frontier.None?)
    && (s.acked.Some? ==> s.acked.value <= s.sndNxt.value)
    && Rising(s.waiting)
    && forall j | 0 <= j < |s.waiting| :: s.acked.value < s.waiting[j].end <= s.sndNxt.value
  }

  lemma SendKeepsQueue(x: Direction, s: IdealDir, e: Located, cfg: Config)
    requires WellQueued(s) && e.obs.dir == x
    requires SendsNew(x, s, e, cfg) && s.sndNxt.Some? ==> e.EndPos() > s.sndNxt.value
    ensures WellQueued(IdealSend(s, e, cfg.reorderWindow))
  {
  }

  lemma AckKeepsQueue(s: IdealDir, e: Located)
    requires WellQueued(s)
    requires e.obs.seg.flags.ack && s.sndNxt.Some? ==> e.ackPos <= s.sndNxt.value
    ensures WellQueued(IdealAck(s, e))
  {
    PoppedAreAbove(s.waiting, e.ackPos);
  }

  lemma {:induction false} OrderlyRunIsWellQueued(x: Direction, es: seq<Located>, cfg: Config)
    requires Orderly(x, es, cfg)
    ensures WellQueued(IdealRun(x, es, cfg))
  {
    if |es| > 0 {
      var pre, e := es[..|es| - 1], es[|es| - 1];
      OrderlyRunIsWellQueued(x, pre, cfg);
      var s := IdealRun(x, pre, cfg);
      if e.obs.dir == x {
        SendKeepsQueue(x, s, e, cfg);
      } else {
        AckKeepsQueue(s, e);
      }
    }
  }

  /** On an orderly stream the queue is exactly the unacknowledged sends since the last
      retransmission, in sending order. */
  lemma {:induction false} QueueIsUnacknowledged(x: Direction, es: seq<Located>, cfg: Config)
    requires Orderly(x, es, cfg)
    ensures var s := IdealRun(x, es, cfg);
            s.waiting == Unacknowledged(x, es, |es|, s.acked, cfg)
  {
    if |es| > 0 {
      var n := |es| - 1;
      var pre, e := es[..n], es[n];
      QueueIsUnacknowledged(x, pre, cfg);
      OrderlyRunIsWellQueued(x, pre, cfg);
      UnacknowledgedOfPrefix(x, es, n, n, IdealRun(x, pre, cfg).acked, cfg);
      if e.obs.dir == x {
        QueueIsUnacknowledgedSend(x, es, cfg);
      } else {
        QueueIsUnacknowledgedAck(x, es, cfg);
      }
    }
  }

  lemma QueueIsUnacknowledgedAck(x: Direction, es: seq<Located>, cfg: Config)
    requires |es| > 0 && es[|es| - 1].obs.dir != x
    requires var n := |es| - 1;
             var s := IdealRun(x, es[..n], cfg);
             WellQueued(s) && s.waiting == Unacknowledged(x, es, n, s.acked, cfg)
    ensures var s := IdealRun(x, es, cfg);
            s.waiting == Unacknowledged(x, es, |es|, s.acked, cfg)
  {
    var n := |es| - 1;
    var s, e := IdealRun(x, es[..n], cfg), es[n];
    if IdealAdvances(s, e) {
      UnacknowledgedAbove(x, es, n, s.acked, e.ackPos, cfg);
      PopIsFilter(s.waiting, e.ackPos);
    }
  }

  lemma QueueIsUnacknowledgedSend(x: Direction, es: seq<Located>, cfg: Config)
    requires |es| > 0 && es[|es| - 1].obs.dir == x
    requires var n := |es| - 1;
             var s := IdealRun(x, es[..n], cfg);
             && WellQueued(s) && s.waiting == Unacknowledged(x, es, n, s.acked, cfg)
             && (SendsNew(x, s, es[n], cfg) && s.sndNxt.Some? ==> es[n].EndPos() > s.sndNxt.value)
    ensures var s := IdealRun(x, es, cfg);
            s.waiting == Unacknowledged(x, es, |es|, s.acked, cfg)
  {
    var n := |es| - 1;
    var s, e := IdealRun(x, es[..n], cfg), es[n];
    if s.acked.None? {
      UnacknowledgedAbove(x, es, n, None, e.seqPos, cfg);
    }
  }

  /** The same for the wrapping engine: on an orderly, coherent stream the queue it keeps
      is the unacknowledged sends since the last retransmission, numbers reduced. */
  lemma EngineQueueIsUnacknowledged(x: Direction, es: seq<Located>, cfg: Config)
    requires Orderly(x, es, cfg) && CoherentRun(x, es, cfg)
    ensures SameQueue(DirRun(x, Plain(es), cfg).pendingRtt,
                      Unacknowledged(x, es, |es|, IdealRun(x, es, cfg).acked, cfg))
  {
    RunRefinesIdeal(x, es, cfg);
    QueueIsUnacknowledged(x, es, cfg);
  }
}
