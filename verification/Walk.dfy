/** One walk over the recorders.  Whatever a segment or a tick makes the tracker record on a
    connection comes down to moves: sound samples noted, derived state learned.  What moves
    keep, every recorder keeps. */
module Walk {
  import opened Core
  import opened MetricSpec
  import opened TrackerSpec
  import opened Recording
  import Unwrap
  import Srtt
  import Window

  // ---------------------------------------------------------------------- moves

  datatype Move = Note(x: Tagged) | Learn(d: Deriv)

  /** The tracker after some moves on connection `idx`. */
  function Play(s: TState, idx: nat, moves: seq<Move>): (r: TState)
    requires idx < |s.conns|
    ensures Touches(s, r, idx)
  {
    if |moves| == 0 then s
    else
      var p := Play(s, idx, moves[..|moves| - 1]);
      match moves[|moves| - 1]
      case Note(x) => Push(p, idx, x)
      case Learn(d) => SetDeriv(p, idx, d)
  }

  function Notes(moves: seq<Move>): nat {
    if |moves| == 0 then 0 else Notes(moves[..|moves| - 1]) + if moves[|moves| - 1].Note? then 1 else 0
  }

  /** A sample of the series' own kind; a rate sample's goodput is at most its throughput. */
  predicate Fits(k: Kind, x: Sample) {
    match k
    case 0 => x.StateSample?
    case 1 => x.MetricSample?
    case 2 => x.SeqSample?
    case 3 => x.InFlightSample?
    case 4 => x.RttSample?
    case _ => x.ThroughputSample? && x.goodput <= x.throughput
  }

  /** A sample for its series, stamped `t`. */
  predicate Sound(x: Tagged, t: u64) { Fits(x.kind, x.sample) && x.sample.t == t }

  ghost predicate AllSound(moves: seq<Move>, t: u64) {
    forall i | 0 <= i < |moves| && moves[i].Note? :: Sound(moves[i].x, t)
  }

  /** `b` is `a` after moves on connection `idx`, noting at most `most` samples, sound and
      stamped `t`. */
  ghost predicate Walks(a: TState, b: TState, idx: nat, t: u64, most: nat)
    requires idx < |a.conns|
  {
    exists moves :: b == Play(a, idx, moves) && AllSound(moves, t) && Notes(moves) <= most
  }

  lemma {:induction false} PlayConcat(s: TState, idx: nat, x: seq<Move>, y: seq<Move>)
    requires idx < |s.conns|
    ensures Play(s, idx, x + y) == Play(Play(s, idx, x), idx, y) && Notes(x + y) == Notes(x) + Notes(y)
  {
    if |y| == 0 {
      assert x + y == x;
    } else {
      assert (x + y)[..|x + y| - 1] == x + y[..|y| - 1];
      PlayConcat(s, idx, x, y[..|y| - 1]);
    }
  }

  lemma SoundConcat(x: seq<Move>, y: seq<Move>, t: u64)
    requires AllSound(x, t) && AllSound(y, t)
    ensures AllSound(x + y, t)
  {}

  lemma Onward(a: TState, b: TState, c: TState, idx: nat, t: u64, m: nat, n: nat)
    requires idx < |a.conns| == |b.conns| && Walks(a, b, idx, t, m) && Walks(b, c, idx, t, n)
    ensures Walks(a, c, idx, t, m + n)
  {
    var x :| b == Play(a, idx, x) && AllSound(x, t) && Notes(x) <= m;
    var y :| c == Play(b, idx, y) && AllSound(y, t) && Notes(y) <= n;
    PlayConcat(a, idx, x, y);
    SoundConcat(x, y, t);
    assert c == Play(a, idx, x + y);
  }

  lemma Stays(s: TState, idx: nat, t: u64, most: nat)
    requires idx < |s.conns|
    ensures Walks(s, s, idx, t, most)
  {
    assert s == Play(s, idx, []) && AllSound([], t) && Notes([]) == 0;
  }

  lemma NoteWalks(s: TState, idx: nat, x: Tagged, t: u64)
    requires idx < |s.conns| && Sound(x, t)
    ensures Walks(s, Push(s, idx, x), idx, t, 1)
  {
    var moves := [Note(x)];
    assert moves[..0] == [] && Notes(moves) == Notes(moves[..0]) + 1;
    assert Push(s, idx, x) == Play(s, idx, moves) && AllSound(moves, t);
  }

  lemma LearnWalks(s: TState, idx: nat, d: Deriv, t: u64)
    requires idx < |s.conns|
    ensures Walks(s, SetDeriv(s, idx, d), idx, t, 0)
  {
    var moves := [Learn(d)];
    assert moves[..0] == [] && Notes(moves) == Notes(moves[..0]);
    assert SetDeriv(s, idx, d) == Play(s, idx, moves) && AllSound(moves, t);
  }

  ghost predicate AllFitAt(k: Kind, xs: seq<Sample>, t: u64) {
    forall i | 0 <= i < |xs| :: Sound(Tagged(k, xs[i]), t)
  }

  lemma {:induction false} NotesWalk(s: TState, idx: nat, k: Kind, xs: seq<Sample>, t: u64)
    requires idx < |s.conns| && AllFitAt(k, xs, t)
    ensures Walks(s, PushAll(s, idx, Tag(k, xs)), idx, t, |xs|)
  {
    if |xs| == 0 {
      Stays(s, idx, t, 0);
    } else {
      var pre, x := xs[..|xs| - 1], xs[|xs| - 1];
      NotesWalk(s, idx, k, pre, t);
      assert Tag(k, xs)[..|pre|] == Tag(k, pre);
      var p := PushAll(s, idx, Tag(k, pre));
      NoteWalks(p, idx, Tagged(k, x), t);
      Onward(s, p, Push(p, idx, Tagged(k, x)), idx, t, |pre|, 1);
    }
  }

  // ------------------------------------------------------- every recorder is a walk

  lemma {:induction false} SackPointsSound(f: Option<Unwrap.Frontier>, lefts: seq<u32>, t: u64, acked: Direction)
    ensures var points := SackPoints(f, lefts, t, acked).1; |points| == |lefts| && AllFitAt(SEQPOINTS, points, t)
  {
    if |lefts| > 0 {
      SackPointsSound(f, lefts[..|lefts| - 1], t, acked);
    }
  }

  lemma SeqPointsSound(u: PerDir<Option<Unwrap.Frontier>>, seg: Segment, d: Direction,
                       retransmit: bool, outOfOrder: bool)
    ensures var points := SeqPoints(u, seg, d, retransmit, outOfOrder).1;
            |points| <= 1 + |seg.sackLefts| && AllFitAt(SEQPOINTS, points, seg.ts)
  {
    var u1 := if seg.IsData() then u.Set(d, Unwrap.Offset(u.Get(d), seg.seqNo).0) else u;
    SackPointsSound(u1.Get(d.Opposite()), seg.sackLefts, seg.ts, d.Opposite());
  }

  lemma RatesSound(m: PerDir<DirState>, t: u64, window: u64)
    ensures |ThroughputPoints(m, t, window)| <= 2 && AllFitAt(THROUGHPUT, ThroughputPoints(m, t, window), t)
    ensures |InFlightPoints(m, t)| <= 2 && AllFitAt(INFLIGHT, InFlightPoints(m, t), t)
  {
    Window.GoodputAtMostThroughput(m.o2r, t, window);
    Window.GoodputAtMostThroughput(m.r2o, t, window);
  }

  lemma CollectSeqWalks(s: TState, idx: nat, seg: Segment, d: Direction, sample: Sample)
    requires idx < |s.conns| && sample.MetricSample?
    ensures Walks(s, CollectSeq(s, idx, seg, d, sample), idx, seg.ts, 1 + |seg.sackLefts|)
  {
    if s.overflowed || !s.cfg.collectSeq {
      Stays(s, idx, seg.ts, 1 + |seg.sackLefts|);
    } else {
      var deriv := s.conns[idx].deriv;
      var (u, points) := SeqPoints(deriv.unwrap, seg, d, sample.retransmit, sample.outOfOrder);
      SeqPointsSound(deriv.unwrap, seg, d, sample.retransmit, sample.outOfOrder);
      LearnThenNote(s, idx, deriv.(unwrap := u), SEQPOINTS, points, seg.ts);
    }
  }

  lemma LearnThenNote(s: TState, idx: nat, d: Deriv, k: Kind, xs: seq<Sample>, t: u64)
    requires idx < |s.conns| && AllFitAt(k, xs, t)
    ensures forall most | most >= |xs| :: Walks(s, PushAll(SetDeriv(s, idx, d), idx, Tag(k, xs)), idx, t, most)
  {
    var p := SetDeriv(s, idx, d);
    LearnWalks(s, idx, d, t);
    NotesWalk(p, idx, k, xs, t);
    Onward(s, p, PushAll(p, idx, Tag(k, xs)), idx, t, 0, |xs|);
  }

  lemma CollectAtWalks(s: TState, idx: nat, t: u64)
    requires idx < |s.conns|
    ensures Walks(s, CollectInFlightAt(s, idx, t), idx, t, 2) && Walks(s, CollectThroughputAt(s, idx, t), idx, t, 2)
  {
    var m := s.conns[idx].deriv.metrics;
    Stays(s, idx, t, 2);
    RatesSound(m, t, s.cfg.throughputWindow);
    NotesWalk(s, idx, INFLIGHT, InFlightPoints(m, t), t);
    NotesWalk(s, idx, THROUGHPUT, ThroughputPoints(m, t, s.cfg.throughputWindow), t);
  }

  lemma CollectRttWalks(s: TState, idx: nat, sample: Sample)
    requires idx < |s.conns| && sample.MetricSample?
    ensures Walks(s, CollectRtt(s, idx, sample), idx, sample.t, 1)
  {
    if s.overflowed || !s.cfg.collectRtt || sample.rtt.None? {
      Stays(s, idx, sample.t, 1);
    } else {
      var m := sample.dir.Opposite();
      var deriv := s.conns[idx].deriv;
      var v := Srtt.Smooth(deriv.srtt.Get(m), sample.rtt.value);
      var d := deriv.(srtt := deriv.srtt.Set(m, Some(v)));
      var x := Tagged(RTTS, RttSample(sample.t, m, sample.rtt.value, v));
      LearnWalks(s, idx, d, sample.t);
      NoteWalks(SetDeriv(s, idx, d), idx, x, sample.t);
      Onward(s, SetDeriv(s, idx, d), Push(SetDeriv(s, idx, d), idx, x), idx, sample.t, 0, 1);
    }
  }

  lemma CollectDetailWalks(s: TState, idx: nat, seg: Segment, d: Direction, sample: Sample)
    requires idx < |s.conns| && sample.MetricSample? && sample.t == seg.ts
    ensures Walks(s, CollectDetail(s, idx, seg, d, sample), idx, seg.ts, 6 + |seg.sackLefts|)
  {
    var n, t := 1 + |seg.sackLefts|, seg.ts;
    var s1 := CollectSeq(s, idx, seg, d, sample);
    var s2 := CollectInFlightAt(s1, idx, t);
    var s3 := CollectRtt(s2, idx, sample);
    var s4 := CollectThroughputAt(s3, idx, t);
    CollectSeqWalks(s, idx, seg, d, sample);
    CollectAtWalks(s1, idx, t);
    Onward(s, s1, s2, idx, t, n, 2);
    CollectRttWalks(s2, idx, sample);
    Onward(s, s2, s3, idx, t, n + 2, 1);
    CollectAtWalks(s3, idx, t);
    Onward(s, s3, s4, idx, t, n + 3, 2);
  }

  lemma RecordDerivedWalks(s: TState, idx: nat, seg: Segment, d: Direction, sample: Sample, m: PerDir<DirState>)
    requires idx < |s.conns| && sample.MetricSample? && sample.t == seg.ts
    ensures Walks(s, RecordDerived(s, idx, seg, d, sample, m), idx, seg.ts, 7 + |seg.sackLefts|)
  {
    var c, t := s.conns[idx], seg.ts;
    var s1 := SetDeriv(s, idx, c.deriv.(metrics := m));
    var s2 := if s.cfg.ShouldCollect(c.life.ident.id) then Push(s1, idx, Tagged(SERIES, sample)) else s1;
    LearnWalks(s, idx, c.deriv.(metrics := m), t);
    NoteWalks(s1, idx, Tagged(SERIES, sample), t);
    Stays(s1, idx, t, 1);
    Onward(s, s1, s2, idx, t, 0, 1);
    CollectDetailWalks(s2, idx, seg, d, sample);
    Onward(s, s2, CollectDetail(s2, idx, seg, d, sample), idx, t, 1, 6 + |seg.sackLefts|);
  }

  lemma DeriveWalks(s: TState, idx: nat, seg: Segment, d: Direction)
    requires idx < |s.conns|
    ensures Walks(s, Derive(s, idx, seg, d), idx, seg.ts, 7 + |seg.sackLefts|)
  {
    var m := s.conns[idx].deriv.metrics;
    Stays(s, idx, seg.ts, 7 + |seg.sackLefts|);
    RecordDerivedWalks(s, idx, seg, d, ObserveSample(m, seg, d, s.cfg), ObserveState(m, seg, d, s.cfg));
  }

  lemma RecordStateWalks(s: TState, idx: nat, t: u64)
    requires idx < |s.conns|
    ensures Walks(s, RecordState(s, idx, t), idx, t, 1)
  {
    Stays(s, idx, t, 1);
    NoteWalks(s, idx, Tagged(STATES, s.conns[idx].life.Snapshot(t)), t);
  }

  /** At most a state, a series sample, a data point and the SACK points, a round-trip point,
      and an in-flight and a rate point for each direction. */
  function MostSamples(seg: Segment): nat { 8 + |seg.sackLefts| }

  lemma JoinWalks(s: TState, idx: nat, seg: Segment)
    requires idx < |s.conns|
    ensures Walks(SetLife(s, idx, s.conns[idx].life.Join(seg)), JoinInstance(s, idx, seg), idx, seg.ts,
                  MostSamples(seg))
  {
    var l := s.conns[idx].life.Join(seg);
    var s1 := SetLife(s, idx, l);
    var s2 := RecordState(s1, idx, seg.ts);
    RecordStateWalks(s1, idx, seg.ts);
    DeriveWalks(s2, idx, seg, l.ident.DirectionOf(seg.src));
    Onward(s1, s2, JoinInstance(s, idx, seg), idx, seg.ts, 1, 7 + |seg.sackLefts|);
  }

  lemma OpeningWalks(s: TState, idx: nat, seg: Segment)
    requires idx < |s.conns|
    ensures Walks(s, RecordOpening(s, idx, seg), idx, seg.ts, MostSamples(seg))
  {
    var d := s.conns[idx].life.ident.DirectionOf(seg.src);
    var s1 := Derive(s, idx, seg, d);
    DeriveWalks(s, idx, seg, d);
    RecordStateWalks(s1, idx, seg.ts);
    Onward(s, s1, RecordOpening(s, idx, seg), idx, seg.ts, 7 + |seg.sackLefts|, 1);
  }

  /** The tracker once the segment has joined or opened its connection, before anything is
      derived or recorded. */
  function Begun(s: TState, seg: Segment): (r: TState)
    requires s.WF()
    ensures |r.conns| == Max(|s.conns|, Target(s, seg) + 1) && Target(s, seg) < |r.conns|
  {
    if Joins(s, seg) then
      var idx := s.live[seg.Pair()];
      SetLife(s, idx, s.conns[idx].life.Join(seg))
    else Opened(s, seg)
  }

  /** A segment, whether or not collection fails, is a walk on its connection. */
  lemma SegmentWalks(s: TState, seg: Segment)
    requires s.WF()
    ensures Walks(Begun(s, seg), ObserveSegment(s, seg), Target(s, seg), seg.ts, MostSamples(seg))
  {
    if Joins(s, seg) {
      JoinWalks(s, s.live[seg.Pair()], seg);
    } else {
      OpeningWalks(Opened(s, seg), |s.conns|, seg);
    }
  }

  /** And so are one connection's decay samples. */
  lemma DecayWalks(p: TState, q: TState, i: nat, t: u64)
    requires i < |p.conns| && DecaysTo(p, q, i, t)
    ensures Walks(p, q, i, t, 4)
  {
    var mid := CollectThroughputAt(p, i, t);
    Stays(p, i, t, 4);
    CollectAtWalks(p, i, t);
    CollectAtWalks(mid, i, t);
    Onward(p, mid, CollectInFlightAt(mid, i, t), i, t, 2, 2);
  }

  // ----------------------------------------------------- the recordings, one by one

  ghost predicate AreSound(xs: seq<Tagged>, t: u64) {
    forall i | 0 <= i < |xs| :: Sound(xs[i], t)
  }

  lemma DetailSound(d: Deriv, seg: Segment, dir: Direction, sample: Sample, cfg: Config)
    requires sample.MetricSample? && sample.t == seg.ts
    ensures AreSound(DetailSamples(d, seg, dir, sample, cfg), seg.ts)
  {
    SeqPointsSound(d.unwrap, seg, dir, sample.retransmit, sample.outOfOrder);
    RatesSound(d.metrics, seg.ts, cfg.throughputWindow);
  }

  lemma DerivedSound(d: Deriv, id: ConnId, seg: Segment, dir: Direction, cfg: Config)
    ensures AreSound(Derived(d, id, seg, dir, cfg), seg.ts)
  {
    DetailSound(d.(metrics := ObserveState(d.metrics, seg, dir, cfg)), seg, dir,
                ObserveSample(d.metrics, seg, dir, cfg), cfg);
  }

  /** What a segment produces are sound samples of its time. */
  lemma ProducedSound(s: TState, seg: Segment)
    requires s.WF()
    ensures AreSound(Produced(s, seg), seg.ts)
  {
    if Joins(s, seg) {
      var c := s.conns[s.live[seg.Pair()]];
      var l := c.life.Join(seg);
      DerivedSound(c.deriv, l.ident.id, seg, l.ident.DirectionOf(seg.src), s.cfg);
    } else {
      var l := Opened(s, seg).conns[|s.conns|].life;
      DerivedSound(NO_DERIV, l.ident.id, seg, l.ident.DirectionOf(seg.src), s.cfg);
    }
  }

  lemma DecaySound(m: PerDir<DirState>, t: u64, cfg: Config)
    ensures AreSound(DecayPart(m, t, cfg), t)
  {
    RatesSound(m, t, cfg.throughputWindow);
  }

  function NotesOf(xs: seq<Tagged>): (moves: seq<Move>)
    ensures |moves| == |xs| && forall i | 0 <= i < |xs| :: moves[i] == Note(xs[i])
  {
    seq(|xs|, i requires 0 <= i < |xs| => Note(xs[i]))
  }

  lemma {:induction false} NotesPush(s: TState, idx: nat, xs: seq<Tagged>)
    requires idx < |s.conns|
    ensures Play(s, idx, NotesOf(xs)) == PushAll(s, idx, xs)
  {
    if |xs| > 0 {
      NotesPush(s, idx, xs[..|xs| - 1]);
      assert NotesOf(xs)[..|xs| - 1] == NotesOf(xs[..|xs| - 1]);
    }
  }

  // --------------------------------------------------------------- what moves keep

  /** Noting a sound sample stamped `t` keeps it, and so does learning. */
  ghost predicate KeptByMoves(keeps: TState -> bool, t: u64) {
    && (forall s: TState, idx: nat, x: Tagged | idx < |s.conns| && keeps(s) && Sound(x, t) :: keeps(Push(s, idx, x)))
    && (forall s: TState, idx: nat, d: Deriv | idx < |s.conns| && keeps(s) :: keeps(SetDeriv(s, idx, d)))
  }

  lemma {:induction false} PlayKeeps(s: TState, idx: nat, moves: seq<Move>, t: u64, keeps: TState -> bool)
    requires idx < |s.conns| && AllSound(moves, t) && keeps(s) && KeptByMoves(keeps, t)
    ensures keeps(Play(s, idx, moves))
  {
    if |moves| > 0 {
      PlayKeeps(s, idx, moves[..|moves| - 1], t, keeps);
    }
  }

  lemma WalkKeeps(a: TState, b: TState, idx: nat, t: u64, most: nat, keeps: TState -> bool)
    requires idx < |a.conns| && Walks(a, b, idx, t, most) && keeps(a) && KeptByMoves(keeps, t)
    ensures keeps(b)
  {
    var moves :| b == Play(a, idx, moves) && AllSound(moves, t) && Notes(moves) <= most;
    PlayKeeps(a, idx, moves, t, keeps);
  }

  lemma SegmentKeeps(s: TState, seg: Segment, keeps: TState -> bool)
    requires s.WF() && keeps(Begun(s, seg)) && KeptByMoves(keeps, seg.ts)
    ensures keeps(ObserveSegment(s, seg))
  {
    SegmentWalks(s, seg);
    WalkKeeps(Begun(s, seg), ObserveSegment(s, seg), Target(s, seg), seg.ts, MostSamples(seg), keeps);
  }

  lemma {:induction false} DecayKeeps(s: TState, t: u64, n: nat, keeps: TState -> bool)
    requires n <= |s.conns| && keeps(s) && KeptByMoves(keeps, t)
    ensures keeps(DecayUpTo(s, t, n))
  {
    if n > 0 {
      DecayKeeps(s, t, n - 1, keeps);
      DecayStep(s, t, n);
      DecayOneKeeps(DecayUpTo(s, t, n - 1), DecayUpTo(s, t, n), n - 1, t, keeps);
    }
  }

  lemma DecayOneKeeps(p: TState, q: TState, i: nat, t: u64, keeps: TState -> bool)
    requires i < |p.conns| && DecaysTo(p, q, i, t) && keeps(p) && KeptByMoves(keeps, t)
    ensures keeps(q)
  {
    DecayWalks(p, q, i, t);
    WalkKeeps(p, q, i, t, 4, keeps);
  }

  /** An item keeps what its moves, its start, aging and collection keep. */
  lemma ItemKeeps(s: TState, item: Item, keeps: TState -> bool)
    requires s.WF()
    requires match item
             case Seg(seg) =>
               keeps(Begun(s.(now := Max(s.now, seg.ts)), seg)) && KeptByMoves(keeps, seg.ts)
             case Tick(t) => keeps(s) && keeps(s.(now := Max(s.now, t))) && KeptByMoves(keeps, Max(s.now, t))
    requires forall r: TState | keeps(r) :: keeps(EvictSamples(r)) && (r.WF() ==> keeps(EvictDead(r)))
    ensures keeps(Step(s, item))
  {
    match item
    case Seg(seg) => SegmentKeeps(s.(now := Max(s.now, seg.ts)), seg, keeps);
    case Tick(t) =>
      var s1 := s.(now := Max(s.now, t));
      DecayKeeps(s1, s1.now, |s1.conns|, keeps);
      assert keeps(EmitDecay(s1, s1.now));
  }
}
