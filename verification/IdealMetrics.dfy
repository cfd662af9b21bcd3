/** The metric derivation over unbounded stream positions, where "before" is `<` and
    distance is subtraction, and the proof that the 32-bit engine refines it. */
module IdealMetrics {
  import opened Core
  import opened Serial
  import opened MetricSpec

  /** An observation whose sequence and acknowledgement numbers are known as positions. */
  datatype Located = Located(obs: Obs, seqPos: int, ackPos: int) {
    predicate Faithful() {
      obs.seg.seqNo == Wrap(seqPos) && obs.seg.ackNo == Wrap(ackPos)
    }
    function EndPos(): int { seqPos + obs.seg.Span() }
  }

  datatype Waiting = Waiting(end: int, ts: u64)

  datatype IdealDir = IdealDir(
    sndNxt: Option<int>, acked: Option<int>, frontier: Option<int>,
    lastDataTs: Option<u64>, waiting: seq<Waiting>)

  const IDEAL_FRESH: IdealDir := IdealDir(None, None, None, None, [])

  function MaxOpt(current: Option<int>, p: int): Option<int> {
    Some(if current.Some? then Max(current.value, p) else p)
  }

  function IdealGap(s: IdealDir, ts: u64): int {
    if s.lastDataTs.Some? then SatSub(ts, s.lastDataTs.value) else U64_MAX
  }

  /** Data that starts before the highest data byte seen is late: reordered if it follows
      the previous data closely, else a retransmission. */
  function IdealVerdict(s: IdealDir, e: Located, reorderWindow: u64): Verdict {
    if e.obs.seg.IsData() && s.frontier.Some? && e.seqPos < s.frontier.value then
      if IdealGap(s, e.obs.seg.ts) < reorderWindow then Reordered else Retransmitted
    else InOrder
  }

  predicate IdealAdvances(s: IdealDir, e: Located) {
    e.obs.seg.flags.ack && s.sndNxt.Some? && (s.acked.None? || e.ackPos > s.acked.value)
  }

  function IdealCovered(waiting: seq<Waiting>, ack: int): (n: nat)
    ensures n <= |waiting|
  {
    if |waiting| > 0 && waiting[0].end <= ack then 1 + IdealCovered(waiting[1..], ack) else 0
  }

  function IdealSend(s: IdealDir, e: Located, reorderWindow: u64): IdealDir {
    var seg := e.obs.seg;
    IdealDir(
      MaxOpt(s.sndNxt, e.EndPos()),
      if s.acked.Some? then s.acked else Some(e.seqPos),
      if seg.IsData() then MaxOpt(s.frontier, e.EndPos()) else s.frontier,
      if seg.IsData() then Some(seg.ts) else s.lastDataTs,
      if IdealVerdict(s, e, reorderWindow) == Retransmitted then []
      else if seg.ConsumesSeq() then s.waiting + [Waiting(e.EndPos(), seg.ts)]
      else s.waiting)
  }

  function IdealAck(s: IdealDir, e: Located): IdealDir {
    if IdealAdvances(s, e) then
      s.(acked := Some(e.ackPos), waiting := s.waiting[IdealCovered(s.waiting, e.ackPos)..])
    else s
  }

  function IdealRtt(s: IdealDir, e: Located): Option<u64> {
    if IdealAdvances(s, e) && IdealCovered(s.waiting, e.ackPos) > 0
    then Some(SatSub(e.obs.seg.ts, s.waiting[0].ts))
    else None
  }

  /** Bytes outstanding: highest byte sent less highest byte acknowledged, and nothing
      when the acknowledgement is ahead of the data seen. */
  function IdealInFlight(s: IdealDir): nat
    requires s.sndNxt.Some? && s.acked.Some?
  {
    SatSub(s.sndNxt.value, s.acked.value)
  }

  function IdealRun(x: Direction, es: seq<Located>, cfg: Config): IdealDir {
    if |es| == 0 then IDEAL_FRESH
    else
      var s := IdealRun(x, es[..|es| - 1], cfg);
      var e := es[|es| - 1];
      if e.obs.dir == x then IdealSend(s, e, cfg.reorderWindow) else IdealAck(s, e)
  }

  // ------------------------------------------------------ the coherence condition

  function OptSet(p: Option<int>): set<int> {
    if p.Some? then {p.value} else {}
  }

  function HeldPositions(s: IdealDir): set<int> {
    OptSet(s.sndNxt) + OptSet(s.acked) + OptSet(s.frontier) +
    (set k | 0 <= k < |s.waiting| :: s.waiting[k].end)
  }

  function Arriving(e: Located, own: bool): set<int> {
    if own then {e.seqPos, e.EndPos()} else if e.obs.seg.flags.ack then {e.ackPos} else {}
  }

  /** All positions held for the direction and brought by the segment lie within less
      than half the number space of each other. */
  ghost predicate Coherent(s: IdealDir, e: Located, own: bool) {
    var ps := HeldPositions(s) + Arriving(e, own);
    forall p, q | p in ps && q in ps :: Near(p, q)
  }

  ghost predicate CoherentRun(x: Direction, es: seq<Located>, cfg: Config) {
    |es| > 0 ==>
      var pre, e := es[..|es| - 1], es[|es| - 1];
      && CoherentRun(x, pre, cfg)
      && e.Faithful()
      && Coherent(IdealRun(x, pre, cfg), e, e.obs.dir == x)
  }

  // ----------------------------------------------------------------- refinement

  ghost predicate Represents(c: DirState, s: IdealDir) {
    && c.sndNxt == WrapOpt(s.sndNxt)
    && c.acked == WrapOpt(s.acked)
    && c.frontier == WrapOpt(s.frontier)
    && c.lastDataTs == s.lastDataTs
    && SameQueue(c.pendingRtt, s.waiting)
  }

  ghost predicate SameQueue(pending: seq<Pending>, waiting: seq<Waiting>) {
    && |pending| == |waiting|
    && forall k | 0 <= k < |waiting| :: pending[k] == Pending(Wrap(waiting[k].end), waiting[k].ts)
  }

  lemma {:induction false} CoveredAgrees(pending: seq<Pending>, waiting: seq<Waiting>, ack: int)
    requires SameQueue(pending, waiting)
    requires forall k | 0 <= k < |waiting| :: Near(waiting[k].end, ack)
    ensures Covered(pending, Wrap(ack)) == IdealCovered(waiting, ack)
  {
    if |waiting| > 0 {
      SerialIsPositional(waiting[0].end, ack);
      CoveredAgrees(pending[1..], waiting[1..], ack);
    }
  }

  lemma SendRefines(c: DirState, s: IdealDir, e: Located, cfg: Config)
    requires Represents(c, s) && e.Faithful() && Coherent(s, e, true)
    ensures Represents(Sent(c, e.obs.seg, cfg), IdealSend(s, e, cfg.reorderWindow))
    ensures Classify(c, e.obs.seg, cfg.reorderWindow) == IdealVerdict(s, e, cfg.reorderWindow)
  {
    var seg := e.obs.seg;
    WrapAdd(e.seqPos, seg.Span());
    assert e.seqPos in Arriving(e, true) && e.EndPos() in Arriving(e, true);
    assert s.frontier.Some? ==> s.frontier.value in HeldPositions(s);
    assert s.sndNxt.Some? ==> s.sndNxt.value in HeldPositions(s);
    if s.frontier.Some? {
      SerialIsPositional(e.seqPos, s.frontier.value);
    }
    SerialMaxIsMax(s.sndNxt, e.EndPos());
    SerialMaxIsMax(s.frontier, e.EndPos());
  }

  lemma AckRefines(c: DirState, s: IdealDir, e: Located)
    requires Represents(c, s) && e.Faithful() && Coherent(s, e, false)
    ensures Represents(AckedBy(c, e.obs.seg), IdealAck(s, e))
    ensures RttOf(c, e.obs.seg) == IdealRtt(s, e)
  {
    if e.obs.seg.flags.ack {
      assert e.ackPos in Arriving(e, false);
      if s.acked.Some? {
        assert s.acked.value in HeldPositions(s);
        SerialIsPositional(s.acked.value, e.ackPos);
      }
      forall k | 0 <= k < |s.waiting|
        ensures Near(s.waiting[k].end, e.ackPos)
      {
        assert s.waiting[k].end in HeldPositions(s);
      }
      CoveredAgrees(c.pendingRtt, s.waiting, e.ackPos);
    }
  }

  function Plain(es: seq<Located>): seq<Obs> {
    seq(|es|, i requires 0 <= i < |es| => es[i].obs)
  }

  /** The wrapping engine holds, at every moment of a coherent run, the residues of what
      the unbounded engine holds, however many times the numbers have wrapped. */
  lemma {:induction false} RunRefinesIdeal(x: Direction, es: seq<Located>, cfg: Config)
    requires CoherentRun(x, es, cfg)
    ensures Represents(DirRun(x, Plain(es), cfg), IdealRun(x, es, cfg))
  {
    if |es| > 0 {
      var pre, e := es[..|es| - 1], es[|es| - 1];
      RunRefinesIdeal(x, pre, cfg);
      assert Plain(es)[..|es| - 1] == Plain(pre);
      var c, s := DirRun(x, Plain(pre), cfg), IdealRun(x, pre, cfg);
      if e.obs.dir == x {
        SendRefines(c, s, e, cfg);
      } else {
        AckRefines(c, s, e);
      }
    }
  }

  lemma InFlightRefines(c: DirState, s: IdealDir)
    requires Represents(c, s) && s.sndNxt.Some? && s.acked.Some?
    requires Near(s.acked.value, s.sndNxt.value)
    ensures InFlight(c) == Some(IdealInFlight(s))
  {
    SerialIsPositional(s.acked.value, s.sndNxt.value);
  }

  /** The last sample of every coherent run carries the unbounded engine's bytes in flight,
      its verdict and its round-trip time. */
  lemma SamplesRefineIdeal(es: seq<Located>, cfg: Config)
    requires |es| > 0
    requires forall x :: CoherentRun(x, es, cfg)
    ensures var pre, e := es[..|es| - 1], es[|es| - 1];
            var d := e.obs.dir;
            var sample := ObserveSample(MetricRun(Plain(pre), cfg), e.obs.seg, d, cfg);
            var sender, sendee := IdealRun(d, pre, cfg), IdealRun(d.Opposite(), pre, cfg);
            var after := IdealSend(sender, e, cfg.reorderWindow);
            && sample.inFlightBytes == IdealInFlight(after)
            && sample.retransmit == (IdealVerdict(sender, e, cfg.reorderWindow) == Retransmitted)
            && sample.outOfOrder == (IdealVerdict(sender, e, cfg.reorderWindow) == Reordered)
            && sample.rtt == IdealRtt(sendee, e)
  {
    var pre, e := es[..|es| - 1], es[|es| - 1];
    var d := e.obs.dir;
    var m := MetricRun(Plain(pre), cfg);
    var sender, sendee := IdealRun(d, pre, cfg), IdealRun(d.Opposite(), pre, cfg);
    DirectionsAreIndependent(Plain(pre), cfg);
    assert CoherentRun(d, es, cfg) && CoherentRun(d.Opposite(), es, cfg);
    RunRefinesIdeal(d, pre, cfg);
    RunRefinesIdeal(d.Opposite(), pre, cfg);
    SendRefines(m.Get(d), sender, e, cfg);
    AckRefines(m.Get(d.Opposite()), sendee, e);
    var ps := HeldPositions(sender) + Arriving(e, true);
    assert e.seqPos in ps && e.EndPos() in ps;
    assert sender.sndNxt.Some? ==> sender.sndNxt.value in ps;
    assert sender.acked.Some? ==> sender.acked.value in ps;
    InFlightRefines(Sent(m.Get(d), e.obs.seg, cfg), IdealSend(sender, e, cfg.reorderWindow));
  }

  /** After every coherent step the acknowledged position is near the send frontier. */
  lemma FrontierIsNear(x: Direction, es: seq<Located>, cfg: Config)
    requires CoherentRun(x, es, cfg)
    ensures var s := IdealRun(x, es, cfg);
            s.sndNxt.Some? && s.acked.Some? ==> Near(s.acked.value, s.sndNxt.value)
  {
    if |es| > 0 {
      var pre, e := es[..|es| - 1], es[|es| - 1];
      var was := IdealRun(x, pre, cfg);
      var ps := HeldPositions(was) + Arriving(e, e.obs.dir == x);
      assert was.sndNxt.Some? ==> was.sndNxt.value in ps;
      assert was.acked.Some? ==> was.acked.value in ps;
      if e.obs.dir == x {
        assert e.seqPos in ps && e.EndPos() in ps;
      } else if e.obs.seg.flags.ack {
        assert e.ackPos in ps;
      }
    }
  }

  /** The engine's reading is the unbounded engine's. */
  lemma ReadingRefines(x: Direction, es: seq<Located>, cfg: Config)
    requires CoherentRun(x, es, cfg)
    ensures var c, s := DirRun(x, Plain(es), cfg), IdealRun(x, es, cfg);
            InFlight(c) == if s.sndNxt.Some? && s.acked.Some? then Some(IdealInFlight(s)) else None
  {
    RunRefinesIdeal(x, es, cfg);
    FrontierIsNear(x, es, cfg);
    var c, s := DirRun(x, Plain(es), cfg), IdealRun(x, es, cfg);
    if s.sndNxt.Some? && s.acked.Some? {
      InFlightRefines(c, s);
    }
  }

  // ------------------------------------------- what the unbounded engine means

  predicate Sends(x: Direction, es: seq<Located>, i: int, dataOnly: bool) {
    0 <= i < |es| && es[i].obs.dir == x && (dataOnly ==> es[i].obs.seg.IsData())
  }

  /** `m` is the furthest end of the (data) segments sent in direction `x`, if any. */
  ghost predicate IsFurthestSent(m: Option<int>, x: Direction, es: seq<Located>, dataOnly: bool) {
    if m.Some? then
      && (exists i :: Sends(x, es, i, dataOnly) && es[i].EndPos() == m.value)
      && (forall i | Sends(x, es, i, dataOnly) :: es[i].EndPos() <= m.value)
    else
      forall i :: !Sends(x, es, i, dataOnly)
  }

  lemma FurthestStep(m: Option<int>, x: Direction, es: seq<Located>, dataOnly: bool)
    requires |es| > 0 && IsFurthestSent(m, x, es[..|es| - 1], dataOnly)
    ensures var n := |es| - 1;
            IsFurthestSent(if Sends(x, es, n, dataOnly) then MaxOpt(m, es[n].EndPos()) else m, x, es, dataOnly)
  {
    var n := |es| - 1;
    var pre := es[..n];
    assert forall i | Sends(x, pre, i, dataOnly) :: Sends(x, es, i, dataOnly);
    assert forall i | Sends(x, es, i, dataOnly) :: i == n || Sends(x, pre, i, dataOnly);
    if m.Some? {
      var i :| Sends(x, pre, i, dataOnly) && pre[i].EndPos() == m.value;
      assert Sends(x, es, i, dataOnly) && es[i].EndPos() == m.value;
    }
  }

  /** The send frontier is the furthest end of anything sent, and the data frontier the
      furthest end of any data. */
  lemma {:induction false} FrontiersAreMaxima(x: Direction, es: seq<Located>, cfg: Config)
    ensures IsFurthestSent(IdealRun(x, es, cfg).sndNxt, x, es, false)
    ensures IsFurthestSent(IdealRun(x, es, cfg).frontier, x, es, true)
  {
    if |es| > 0 {
      FrontiersAreMaxima(x, es[..|es| - 1], cfg);
      var s := IdealRun(x, es[..|es| - 1], cfg);
      FurthestStep(s.sndNxt, x, es, false);
      FurthestStep(s.frontier, x, es, true);
    }
  }

  ghost predicate FirstSend(x: Direction, es: seq<Located>, f: int) {
    Sends(x, es, f, false) && forall j | 0 <= j < f :: !Sends(x, es, j, false)
  }

  predicate Acknowledges(x: Direction, es: seq<Located>, f: int, i: int) {
    0 <= f < i < |es| && es[i].obs.dir != x && es[i].obs.seg.flags.ack
  }

  /** The acknowledged position is the furthest acknowledgement seen since the direction
      first sent, and never before the position that first send started at. */
  lemma {:induction false} AckedIsFurthest(x: Direction, es: seq<Located>, f: nat, cfg: Config)
    requires FirstSend(x, es, f)
    ensures var a := IdealRun(x, es, cfg).acked;
            && a.Some? && es[f].seqPos <= a.value
            && (forall i | Acknowledges(x, es, f, i) :: es[i].ackPos <= a.value)
            && (a.value == es[f].seqPos || exists i :: Acknowledges(x, es, f, i) && es[i].ackPos == a.value)
  {
    var n := |es| - 1;
    var pre := es[..n];
    FrontiersAreMaxima(x, pre, cfg);
    assert forall j | 0 <= j < n :: Sends(x, pre, j, false) == Sends(x, es, j, false);
    if f == n {
      NothingAckedBeforeSending(x, pre, cfg);
    } else {
      AckedIsFurthest(x, pre, f, cfg);
      var a := IdealRun(x, pre, cfg).acked.value;
      assert forall i | Acknowledges(x, es, f, i) :: i == n || Acknowledges(x, pre, f, i);
      assert Sends(x, pre, f, false);
      if a != es[f].seqPos {
        var i :| Acknowledges(x, pre, f, i) && pre[i].ackPos == a;
        assert Acknowledges(x, es, f, i) && es[i].ackPos == a;
      }
      assert Acknowledges(x, es, f, n) <==> es[n].obs.dir != x && es[n].obs.seg.flags.ack;
    }
  }

  lemma {:induction false} NothingAckedBeforeSending(x: Direction, es: seq<Located>, cfg: Config)
    requires forall j | 0 <= j < |es| :: !Sends(x, es, j, false)
    ensures IdealRun(x, es, cfg) == IDEAL_FRESH
  {
    if |es| > 0 {
      var n := |es| - 1;
      assert forall j | 0 <= j < n :: Sends(x, es[..n], j, false) == Sends(x, es, j, false);
      assert !Sends(x, es, n, false);
      NothingAckedBeforeSending(x, es[..n], cfg);
    }
  }
}
