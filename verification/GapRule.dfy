/** Reordered or retransmitted: the documents time late data against the previous segment of
    its direction, the engine against the previous data segment.  Here is when the two rules
    agree whatever the timing, and a run on which they do not. */
module GapRule {
  import opened Core
  import opened Serial
  import opened MetricSpec

  // ------------------------------------------------------------------- the two rules

  /** When direction `x` last sent anything. */
  function LastSent(x: Direction, obs: seq<Obs>): Option<u64> {
    if |obs| == 0 then None
    else
      var o := obs[|obs| - 1];
      if o.dir == x then Some(o.seg.ts) else LastSent(x, obs[..|obs| - 1])
  }

  /** When direction `x` last sent data. */
  function LastDataSent(x: Direction, obs: seq<Obs>): Option<u64> {
    if |obs| == 0 then None
    else
      var o := obs[|obs| - 1];
      if o.dir == x && o.seg.IsData() then Some(o.seg.ts) else LastDataSent(x, obs[..|obs| - 1])
  }

  /** Data that starts before the data frontier of its direction. */
  predicate Late(x: Direction, obs: seq<Obs>, seg: Segment, cfg: Config) {
    var frontier := DirRun(x, obs, cfg).frontier;
    seg.IsData() && frontier.Some? && SerialLt(seg.seqNo, frontier.value)
  }

  function Timed(last: Option<u64>, ts: u64, window: u64): Verdict {
    if (if last.Some? then SatSub(ts, last.value) else U64_MAX) < window then Reordered else Retransmitted
  }

  /** The verdict as documented: the gap is from the previous segment of the direction. */
  function Documented(x: Direction, obs: seq<Obs>, seg: Segment, cfg: Config): Verdict {
    if Late(x, obs, seg, cfg) then Timed(LastSent(x, obs), seg.ts, cfg.reorderWindow) else InOrder
  }

  /** The engine's verdict. */
  function Engine(x: Direction, obs: seq<Obs>, seg: Segment, cfg: Config): Verdict {
    Classify(DirRun(x, obs, cfg), seg, cfg.reorderWindow)
  }

  /** The engine's verdict is the documented one with "data segment" for "segment". */
  lemma {:induction false} LastDataIsTracked(x: Direction, obs: seq<Obs>, cfg: Config)
    ensures DirRun(x, obs, cfg).lastDataTs == LastDataSent(x, obs)
    ensures DirRun(x, obs, cfg).frontier.Some? <==> LastDataSent(x, obs).Some?
  {
    if |obs| > 0 {
      LastDataIsTracked(x, obs[..|obs| - 1], cfg);
    }
  }

  lemma EngineTimesData(x: Direction, obs: seq<Obs>, seg: Segment, cfg: Config)
    ensures Engine(x, obs, seg, cfg) ==
            if Late(x, obs, seg, cfg) then Timed(LastDataSent(x, obs), seg.ts, cfg.reorderWindow) else InOrder
  {
    LastDataIsTracked(x, obs, cfg);
  }

  // ------------------------------------------------------------------------- timings

  /** The same segments at other times. */
  function Retimed(obs: seq<Obs>, ts: seq<u64>): (r: seq<Obs>)
    requires |ts| == |obs|
    ensures |r| == |obs|
  {
    seq(|obs|, i requires 0 <= i < |obs| => obs[i].(seg := obs[i].seg.(ts := ts[i])))
  }

  lemma RetimedPrefix(obs: seq<Obs>, ts: seq<u64>, k: nat)
    requires |ts| == |obs| && k <= |obs|
    ensures Retimed(obs, ts)[..k] == Retimed(obs[..k], ts[..k])
  {}

  lemma FrontierStep(x: Direction, s: DirState, o: Obs, cfg: Config)
    ensures DirStep(x, s, o, cfg).frontier ==
            if o.dir == x && o.seg.IsData() then Some(SerialMax(s.frontier, SeqEnd(o.seg))) else s.frontier
  {}

  /** Lateness is a matter of sequence numbers, not of time nor of earlier verdicts. */
  lemma {:induction false} FrontierIgnoresTimes(x: Direction, obs: seq<Obs>, ts: seq<u64>, cfg: Config)
    requires |ts| == |obs|
    ensures DirRun(x, Retimed(obs, ts), cfg).frontier == DirRun(x, obs, cfg).frontier
  {
    if |obs| > 0 {
      var n := |obs| - 1;
      FrontierIgnoresTimes(x, obs[..n], ts[..n], cfg);
      RetimedPrefix(obs, ts, n);
      FrontierStep(x, DirRun(x, obs[..n], cfg), obs[n], cfg);
      FrontierStep(x, DirRun(x, Retimed(obs[..n], ts[..n]), cfg), Retimed(obs, ts)[n], cfg);
    }
  }

  /** The last segment of direction `x` carried data. */
  predicate LastCarriesData(x: Direction, obs: seq<Obs>) {
    |obs| > 0 &&
    var o := obs[|obs| - 1];
    if o.dir == x then o.seg.IsData() else LastCarriesData(x, obs[..|obs| - 1])
  }

  lemma {:induction false} LastIsLastData(x: Direction, obs: seq<Obs>, ts: seq<u64>)
    requires |ts| == |obs| && LastCarriesData(x, obs)
    ensures LastSent(x, Retimed(obs, ts)) == LastDataSent(x, Retimed(obs, ts))
  {
    var n := |obs| - 1;
    RetimedPrefix(obs, ts, n);
    if obs[n].dir != x {
      LastIsLastData(x, obs[..n], ts[..n]);
    }
  }

  ghost predicate InTimeOrder(ts: seq<u64>) {
    forall i, j | 0 <= i < j < |ts| :: ts[i] <= ts[j]
  }

  /** Time 0 up to the last data of the direction, and `w` from then on. */
  function Delayed(x: Direction, obs: seq<Obs>, w: u64): (ts: seq<u64>)
    ensures |ts| == |obs| && InTimeOrder(ts) && forall i | 0 <= i < |ts| :: ts[i] <= w
  {
    if |obs| == 0 then []
    else
      var n := |obs| - 1;
      if obs[n].dir == x && obs[n].seg.IsData() then seq(|obs|, i => 0) else Delayed(x, obs[..n], w) + [w]
  }

  lemma {:induction false} DelayedSplits(x: Direction, obs: seq<Obs>, w: u64)
    requires LastDataSent(x, obs).Some?
    ensures LastDataSent(x, Retimed(obs, Delayed(x, obs, w))) == Some(0)
    ensures !LastCarriesData(x, obs) ==> LastSent(x, Retimed(obs, Delayed(x, obs, w))) == Some(w)
  {
    var n := |obs| - 1;
    var ts := Delayed(x, obs, w);
    if !(obs[n].dir == x && obs[n].seg.IsData()) {
      RetimedPrefix(obs, ts, n);
      assert ts[..n] == Delayed(x, obs[..n], w);
      DelayedSplits(x, obs[..n], w);
    }
  }

  // -------------------------------------------------------------------- the theorem

  /** The rules give observation `k` the same verdict, at these times. */
  ghost predicate SameVerdictAt(x: Direction, obs: seq<Obs>, ts: seq<u64>, k: nat, cfg: Config)
    requires k < |obs| == |ts|
  {
    var timed := Retimed(obs, ts);
    Engine(x, timed[..k], timed[k].seg, cfg) == Documented(x, timed[..k], timed[k].seg, cfg)
  }

  /** Observation `k` is late data whose direction had last sent something else than data. */
  predicate Contested(x: Direction, obs: seq<Obs>, k: nat, cfg: Config)
    requires k < |obs|
  {
    obs[k].dir == x && Late(x, obs[..k], obs[k].seg, cfg) && !LastCarriesData(x, obs[..k])
  }

  lemma LateIgnoresTimes(x: Direction, obs: seq<Obs>, ts: seq<u64>, k: nat, cfg: Config)
    requires k < |obs| == |ts|
    ensures Late(x, Retimed(obs, ts)[..k], Retimed(obs, ts)[k].seg, cfg) <==> Late(x, obs[..k], obs[k].seg, cfg)
  {
    RetimedPrefix(obs, ts, k);
    FrontierIgnoresTimes(x, obs[..k], ts[..k], cfg);
  }

  lemma UncontestedAgree(x: Direction, obs: seq<Obs>, ts: seq<u64>, k: nat, cfg: Config)
    requires k < |obs| == |ts| && obs[k].dir == x && !Contested(x, obs, k, cfg)
    ensures SameVerdictAt(x, obs, ts, k, cfg)
  {
    var timed := Retimed(obs, ts);
    LateIgnoresTimes(x, obs, ts, k, cfg);
    EngineTimesData(x, timed[..k], timed[k].seg, cfg);
    if Late(x, obs[..k], obs[k].seg, cfg) {
      RetimedPrefix(obs, ts, k);
      LastIsLastData(x, obs[..k], ts[..k]);
    }
  }

  /** The times that tell the rules apart at observation `k`. */
  function Telling(x: Direction, obs: seq<Obs>, k: nat, w: u64): (ts: seq<u64>)
    requires k < |obs|
    ensures |ts| == |obs| && InTimeOrder(ts)
  {
    Delayed(x, obs[..k], w) + seq(|obs| - k, i => w)
  }

  lemma ContestedDiffer(x: Direction, obs: seq<Obs>, k: nat, cfg: Config)
    requires k < |obs| && Contested(x, obs, k, cfg) && cfg.reorderWindow > 0
    ensures var timed := Retimed(obs, Telling(x, obs, k, cfg.reorderWindow));
            && Engine(x, timed[..k], timed[k].seg, cfg) == Retransmitted
            && Documented(x, timed[..k], timed[k].seg, cfg) == Reordered
  {
    var w := cfg.reorderWindow;
    var ts := Telling(x, obs, k, w);
    var timed := Retimed(obs, ts);
    RetimedPrefix(obs, ts, k);
    assert ts[..k] == Delayed(x, obs[..k], w);
    LastDataIsTracked(x, obs[..k], cfg);
    DelayedSplits(x, obs[..k], w);
    LateIgnoresTimes(x, obs, ts, k, cfg);
    EngineTimesData(x, timed[..k], timed[k].seg, cfg);
  }

  /** For a given arrangement of segments, the documented rule and the engine's give every
      segment of the direction the same verdict at all timings exactly when the window is
      empty or no late data follows, in its direction, on a segment without data; and if not,
      timings in order already tell them apart. */
  lemma RulesAgreeExactly(x: Direction, obs: seq<Obs>, cfg: Config)
    ensures (forall ts: seq<u64>, k: nat | |ts| == |obs| && k < |obs| && obs[k].dir == x ::
               SameVerdictAt(x, obs, ts, k, cfg))
       <==> cfg.reorderWindow == 0 || forall k: nat | k < |obs| :: !Contested(x, obs, k, cfg)
    ensures (forall ts: seq<u64>, k: nat | |ts| == |obs| && InTimeOrder(ts) && k < |obs| && obs[k].dir == x ::
               SameVerdictAt(x, obs, ts, k, cfg))
       <==> cfg.reorderWindow == 0 || forall k: nat | k < |obs| :: !Contested(x, obs, k, cfg)
  {
    forall ts: seq<u64>, k: nat | |ts| == |obs| && k < |obs| && obs[k].dir == x &&
                                  (cfg.reorderWindow == 0 || !Contested(x, obs, k, cfg))
      ensures SameVerdictAt(x, obs, ts, k, cfg)
    {
      if Contested(x, obs, k, cfg) {
        EmptyWindowAgrees(x, obs, ts, k, cfg);
      } else {
        UncontestedAgree(x, obs, ts, k, cfg);
      }
    }
    forall k: nat | k < |obs| && Contested(x, obs, k, cfg) && cfg.reorderWindow > 0
      ensures !SameVerdictAt(x, obs, Telling(x, obs, k, cfg.reorderWindow), k, cfg)
    {
      ContestedDiffer(x, obs, k, cfg);
    }
  }

  lemma EmptyWindowAgrees(x: Direction, obs: seq<Obs>, ts: seq<u64>, k: nat, cfg: Config)
    requires k < |obs| == |ts| && cfg.reorderWindow == 0
    ensures SameVerdictAt(x, obs, ts, k, cfg)
  {
    var timed := Retimed(obs, ts);
    EngineTimesData(x, timed[..k], timed[k].seg, cfg);
  }

  // --------------------------------------------------------------------- the witness

  function Piece(ts: u64, len: u32): Segment {
    Segment(ts, Endpoint(0, 0), Endpoint(0, 1), 0, 0, Flags(false, false, false, true), [], len)
  }

  /** Data, a pure acknowledgement one window later, and at once the same data again: the
      documents call it reordered, the engine a retransmission. */
  lemma RulesCanDiffer(x: Direction, len: u32, cfg: Config)
    requires 0 < len < HALF && cfg.reorderWindow > 0
    ensures var w := cfg.reorderWindow;
            var before := [Obs(Piece(0, len), x), Obs(Piece(w, 0), x)];
            && Engine(x, before, Piece(w, len), cfg) == Retransmitted
            && Documented(x, before, Piece(w, len), cfg) == Reordered
  {
    var w := cfg.reorderWindow;
    var a, b := Obs(Piece(0, len), x), Obs(Piece(w, 0), x);
    var before := [a, b];
    assert before[..1] == [a] && [a][..0] == [];
    assert DirRun(x, [], cfg) == FRESH;
    assert DirRun(x, [a], cfg) == Sent(FRESH, a.seg, cfg);
    assert DirRun(x, before, cfg) == Sent(DirRun(x, [a], cfg), b.seg, cfg);
    assert DirRun(x, before, cfg).frontier == Some(len);
    assert LastDataSent(x, [a]) == Some(0) && LastDataSent(x, before) == Some(0) && LastSent(x, before) == Some(w);
    EngineTimesData(x, before, Piece(w, len), cfg);
  }
}
