/** What each item does to the lives of the tracked connections: recording, aging and decay
    sampling leave them alone, a segment joins or opens one, a tick may collect some. */
module TrackerLives {
  import opened Core
  import opened Lifecycle
  import opened TrackerSpec

  function Lives(conns: seq<Conn>): (lives: seq<Life>)
    ensures |lives| == |conns| && forall i | 0 <= i < |conns| :: lives[i] == conns[i].life
  {
    seq(|conns|, i requires 0 <= i < |conns| => conns[i].life)
  }

  lemma TouchKeepsLives(a: TState, b: TState, idx: nat)
    requires idx < |a.conns| && Touches(a, b, idx)
    ensures Lives(b.conns) == Lives(a.conns)
  {
  }

  lemma JoinMovesOneLife(s: TState, idx: nat, seg: Segment)
    requires idx < |s.conns|
    ensures Lives(JoinInstance(s, idx, seg).conns) == Lives(s.conns)[idx := s.conns[idx].life.Join(seg)]
  {
    var l := s.conns[idx].life.Join(seg);
    var s1 := SetLife(s, idx, l);
    assert Lives(s1.conns) == Lives(s.conns)[idx := l];
    var s2 := RecordState(s1, idx, seg.ts);
    TouchKeepsLives(s1, s2, idx);
    TouchKeepsLives(s2, Derive(s2, idx, seg, l.ident.DirectionOf(seg.src)), idx);
  }

  /** The life a segment opens when it does not join. */
  function Opening(s: TState, seg: Segment): Life {
    Open(ConnId(seg.Pair(), NextInstance(s, seg.Pair())), seg)
  }

  lemma CreateAddsOneLife(s: TState, seg: Segment)
    ensures Lives(CreateInstance(s, seg).conns) == Lives(s.conns) + [Opening(s, seg)]
  {
    TouchKeepsLives(Opened(s, seg), CreateInstance(s, seg), |s.conns|);
    assert Lives(Opened(s, seg).conns) == Lives(s.conns) + [Opening(s, seg)];
  }

  lemma EvictSamplesKeepsLives(s: TState)
    ensures Lives(EvictSamples(s).conns) == Lives(s.conns)
  {
  }

  /** One segment joins the live instance of its pair or opens a new last one. */
  lemma SegmentLives(s: TState, seg: Segment)
    requires s.WF()
    ensures var r := EvictSamples(ObserveSegment(s, seg));
            && SameButConns(s, seg, r)
            && Lives(r.conns) ==
               if Joins(s, seg) then Lives(s.conns)[s.live[seg.Pair()] := s.conns[s.live[seg.Pair()]].life.Join(seg)]
               else Lives(s.conns) + [Opening(s, seg)]
  {
    EvictSamplesKeepsLives(ObserveSegment(s, seg));
    if Joins(s, seg) {
      JoinMovesOneLife(s, s.live[seg.Pair()], seg);
    } else {
      CreateAddsOneLife(s, seg);
    }
  }

  /** The index after a segment. */
  predicate SameButConns(s: TState, seg: Segment, r: TState)
    requires s.WF()
  {
    && r.cfg == s.cfg && r.now == s.now
    && r.live == (if Joins(s, seg) then s.live else s.live[seg.Pair() := |s.conns|])
    && r.nextInstance == (if Joins(s, seg) then s.nextInstance
                          else s.nextInstance[seg.Pair() := NextInstance(s, seg.Pair()) + 1])
  }

  lemma {:induction false} DecayKeepsLives(s: TState, t: u64, n: nat)
    requires n <= |s.conns|
    ensures Lives(DecayUpTo(s, t, n).conns) == Lives(s.conns)
  {
    if n > 0 {
      DecayKeepsLives(s, t, n - 1);
      DecayStep(s, t, n);
      DecayOneKeepsLives(Lives(s.conns), DecayUpTo(s, t, n - 1), DecayUpTo(s, t, n), n - 1, t);
    }
  }

  lemma DecayOneKeepsLives(lives: seq<Life>, p: TState, q: TState, i: nat, t: u64)
    requires i < |p.conns| && Lives(p.conns) == lives && DecaysTo(p, q, i, t)
    ensures Lives(q.conns) == lives
  {
    var mid := CollectThroughputAt(p, i, t);
    TouchKeepsLives(p, mid, i);
    TouchKeepsLives(mid, CollectInFlightAt(mid, i, t), i);
  }

  /** The tracker on a tick just before dead connections are collected. */
  function BeforeCollection(s: TState, t: u64): (r: TState)
    requires s.WF()
    ensures r.WF() && SameFrame(s.(now := Max(s.now, t)), r)
  {
    var s1 := s.(now := Max(s.now, t));
    EvictSamples(EmitDecay(s1, s1.now))
  }

  /** Until collection a tick changes no life. */
  lemma TickLives(s: TState, t: u64)
    requires s.WF() && s.cfg.retention.Evict?
    ensures Lives(BeforeCollection(s, t).conns) == Lives(s.conns)
    ensures ObserveTick(s, t) == EvictDead(BeforeCollection(s, t))
  {
    var s1 := s.(now := Max(s.now, t));
    DecayKeepsLives(s1, s1.now, |s1.conns|);
    EvictSamplesKeepsLives(EmitDecay(s1, s1.now));
  }

  /** Where each survivor of a collection came from. */
  ghost function Origins(conns: seq<Conn>, now: u64, horizon: u64, deadAfter: u64): (from: seq<nat>)
  {
    if |conns| == 0 then []
    else
      var n := |conns| - 1;
      Origins(conns[..n], now, horizon, deadAfter) +
      if Survives(conns[n].life, now, horizon, deadAfter) then [n] else []
  }

  lemma {:induction false} SurvivorsAreSubsequence(conns: seq<Conn>, now: u64, horizon: u64, deadAfter: u64)
    ensures var from, kept := Origins(conns, now, horizon, deadAfter), Survivors(conns, now, horizon, deadAfter);
            && |from| == |kept|
            && (forall i | 0 <= i < |from| :: from[i] < |conns| && kept[i] == conns[from[i]])
            && (forall i | 0 <= i < |from| :: Survives(kept[i].life, now, horizon, deadAfter))
            && (forall i, j | 0 <= i < j < |from| :: from[i] < from[j])
  {
    if |conns| > 0 {
      SurvivorsAreSubsequence(conns[..|conns| - 1], now, horizon, deadAfter);
    }
  }

  lemma {:induction false} AllSurvive(conns: seq<Conn>, now: u64, horizon: u64, deadAfter: u64)
    requires |Survivors(conns, now, horizon, deadAfter)| == |conns|
    ensures Survivors(conns, now, horizon, deadAfter) == conns
    ensures forall i | 0 <= i < |conns| :: Survives(conns[i].life, now, horizon, deadAfter)
  {
    if |conns| > 0 {
      AllSurvive(conns[..|conns| - 1], now, horizon, deadAfter);
    }
  }
}
