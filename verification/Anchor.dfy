/** Where the Time/Sequence axis is anchored.  The documents put a direction's origin at its
    first data sequence number; the engine puts it at the first value fed, which may be a SACK
    edge.  Here is when the two agree, and a run on which they do not. */
module Anchor {
  import opened Core
  import opened Serial
  import opened MetricSpec
  import opened Unwrap
  import opened Lifecycle
  import opened TrackerSpec
  import opened TrackerLives
  import opened TrackerIndex
  import opened Attribution
  import opened DerivedSeries
  import opened SeriesFolds
  import EnoughRoom

  // ------------------------------------------------------- data points and SACK points

  /** The points of one direction, in order. */
  function InDirection(points: seq<Sample>, d: Direction): seq<Sample> {
    if |points| == 0 then []
    else
      var x := points[|points| - 1];
      InDirection(points[..|points| - 1], d) + if x.SeqSample? && x.dir == d then [x] else []
  }

  predicate IsDataPoint(x: Sample) { x.SeqSample? && x.kind.Data? }

  /** For each value fed to direction `d`, whether data fed it. */
  function FedAsData(obs: seq<Obs>, d: Direction): seq<bool> {
    if |obs| == 0 then [] else FedAsData(obs[..|obs| - 1], d) + FedAsDataBy(obs[|obs| - 1], d)
  }

  function FedAsDataBy(o: Obs, d: Direction): (r: seq<bool>)
    ensures |r| == |FedBy(o, d)|
  {
    seq(|FedBy(o, d)|, i => o.dir == d)
  }

  /** The points are data points exactly where `data` says. */
  ghost predicate Kinds(points: seq<Sample>, data: seq<bool>) {
    |points| == |data| && forall i | 0 <= i < |points| :: IsDataPoint(points[i]) == data[i]
  }

  lemma {:induction false} InDirectionConcat(a: seq<Sample>, b: seq<Sample>, d: Direction)
    ensures InDirection(a + b, d) == InDirection(a, d) + InDirection(b, d)
  {
    if |b| == 0 {
      assert a + b == a;
    } else {
      var init, last := b[..|b| - 1], b[|b| - 1];
      assert (a + b)[..|a + b| - 1] == a + init;
      InDirectionConcat(a, init, d);
    }
  }

  lemma {:induction false} RelsOfDirection(points: seq<Sample>, d: Direction)
    ensures |InDirection(points, d)| == |Rels(points, d)|
    ensures forall i | 0 <= i < |Rels(points, d)| ::
              InDirection(points, d)[i].SeqSample? && InDirection(points, d)[i].rel == Rels(points, d)[i]
  {
    if |points| > 0 {
      RelsOfDirection(points[..|points| - 1], d);
    }
  }

  lemma {:induction false} SackKinds(f: Option<Frontier>, lefts: seq<u32>, t: u64, acked: Direction)
    ensures var points := SackPoints(f, lefts, t, acked).1;
            && InDirection(points, acked.Opposite()) == []
            && |InDirection(points, acked)| == |lefts|
            && forall i | 0 <= i < |lefts| :: !IsDataPoint(InDirection(points, acked)[i])
  {
    if |lefts| > 0 {
      SackKinds(f, lefts[..|lefts| - 1], t, acked);
      var (g, points) := SackPoints(f, lefts[..|lefts| - 1], t, acked);
      var p := SeqSample(t, acked, Offset(g, lefts[|lefts| - 1]).1, 0, Sack);
      assert (points + [p])[..|points|] == points;
    }
  }

  lemma OnePoint(p: Sample, d: Direction)
    requires p.SeqSample?
    ensures InDirection([p], d) == if p.dir == d then [p] else []
  {
    assert [p][..0] == [];
  }

  lemma PartKinds(data: seq<Sample>, sacks: seq<Sample>, o: Obs, d: Direction)
    requires InDirection(data, o.dir) == data && InDirection(data, o.dir.Opposite()) == []
    requires |data| == (if o.seg.IsData() then 1 else 0) && forall i | 0 <= i < |data| :: IsDataPoint(data[i])
    requires InDirection(sacks, o.dir) == []
    requires var xs := InDirection(sacks, o.dir.Opposite());
             |xs| == |o.seg.sackLefts| && forall i | 0 <= i < |xs| :: !IsDataPoint(xs[i])
    ensures Kinds(InDirection(data + sacks, d), FedAsDataBy(o, d))
  {
    InDirectionConcat(data, sacks, d);
    if d == o.dir {
      assert InDirection(data + sacks, d) == data;
    } else {
      assert InDirection(data + sacks, d) == InDirection(sacks, d);
    }
  }

  lemma SegmentKinds(u: PerDir<Option<Frontier>>, o: Obs, d: Direction, retransmit: bool, outOfOrder: bool)
    ensures Kinds(InDirection(SeqPoints(u, o.seg, o.dir, retransmit, outOfOrder).1, d), FedAsDataBy(o, d))
  {
    var acked := o.dir.Opposite();
    var own := Offset(u.Get(o.dir), o.seg.seqNo);
    var u1 := if o.seg.IsData() then u.Set(o.dir, own.0) else u;
    SackKinds(u1.Get(acked), o.seg.sackLefts, o.seg.ts, acked);
    var p := SeqSample(o.seg.ts, o.dir, own.1, o.seg.payloadLen, Data(retransmit, outOfOrder));
    OnePoint(p, o.dir);
    OnePoint(p, acked);
    PartKinds(if o.seg.IsData() then [p] else [], SackPoints(u1.Get(acked), o.seg.sackLefts, o.seg.ts, acked).1, o, d);
  }

  lemma KindsConcat(a: seq<Sample>, b: seq<Sample>, x: seq<bool>, y: seq<bool>)
    requires Kinds(a, x) && Kinds(b, y)
    ensures Kinds(a + b, x + y)
  {}

  lemma FlagsStep(obs: seq<Obs>, o: Obs, d: Direction)
    ensures FedAsData(obs + [o], d) == FedAsData(obs, d) + FedAsDataBy(o, d)
  {
    assert (obs + [o])[..|obs|] == obs;
  }

  lemma KindsStep(before: seq<Sample>, u: PerDir<Option<Frontier>>, obs: seq<Obs>, o: Obs, d: Direction,
                  retransmit: bool, outOfOrder: bool)
    requires Kinds(InDirection(before, d), FedAsData(obs, d))
    ensures Kinds(InDirection(before + SeqPoints(u, o.seg, o.dir, retransmit, outOfOrder).1, d),
                  FedAsData(obs + [o], d))
  {
    var more := SeqPoints(u, o.seg, o.dir, retransmit, outOfOrder).1;
    FlagsStep(obs, o, d);
    SegmentKinds(u, o, d, retransmit, outOfOrder);
    InDirectionConcat(before, more, d);
    KindsConcat(InDirection(before, d), InDirection(more, d), FedAsData(obs, d), FedAsDataBy(o, d));
  }

  lemma {:induction false} PointKinds(id: ConnId, log: Log, d: Direction, cfg: Config)
    requires |log| > 0 && cfg.collectSeq
    ensures Kinds(InDirection(Points(id, log, cfg), d), FedAsData(Observations(id, log), d))
  {
    var before: seq<Sample> := [];
    if |log| > 1 {
      before := Points(id, log[..|log| - 1], cfg);
      PointKinds(id, log[..|log| - 1], d, cfg);
    }
    LastObservation(id, log);
    var o, deriv := LastObs(id, log), BeforeLastDeriv(id, log, cfg);
    var sample := ObserveSample(deriv.metrics, o.seg, o.dir, cfg);
    KindsStep(before, deriv.unwrap, BeforeLastObs(id, log), o, d, sample.retransmit, sample.outOfOrder);
  }

  // -------------------------------------------------------------------- the theorem

  /** The first value fed by data is the `j`-th value fed. */
  ghost predicate FirstData(data: seq<bool>, j: nat) {
    j < |data| && data[j] && forall i | 0 <= i < j :: !data[i]
  }

  /** Every data point lies at its distance from position `p`. */
  ghost predicate DataMeasuredFrom(points: seq<Sample>, ps: seq<int>, p: int) {
    |points| == |ps| && forall k | 0 <= k < |points| && IsDataPoint(points[k]) :: points[k].rel == ps[k] - p
  }

  lemma MeasuredFromExactly(points: seq<Sample>, ps: seq<int>, data: seq<bool>, j: nat)
    requires Kinds(points, data) && |ps| == |points| && FirstData(data, j)
    requires forall k | 0 <= k < |points| :: points[k].SeqSample? && points[k].rel == ps[k] - ps[0]
    ensures DataMeasuredFrom(points, ps, ps[j]) <==> ps[j] == ps[0]
  {
    assert IsDataPoint(points[j]);
  }

  /** When the recorded series is anchored as documented: with the positions fed in a
      direction within reach, every recorded data point of the direction lies at its distance
      from the first data position if and only if no SACK edge was fed before that data, or
      the first value fed stands at the same position. */
  lemma AnchoredAtFirstDataExactly(cfg: Config, items: seq<Item>, i: nat, d: Direction, ps: seq<int>, j: nat)
    requires cfg.retention.FailFast? && cfg.collectSeq && !Run(cfg, items).overflowed
    requires i < |Run(cfg, items).conns| && |Logs(cfg, items)[i]| > 0
    requires var obs := Observations(Run(cfg, items).conns[i].life.ident.id, Logs(cfg, items)[i]);
             Positions(ps, Fed(obs, d)) && FirstData(FedAsData(obs, d), j)
    requires |ps| > 0 && WithinReach(ps)
    ensures j < |ps|
    ensures DataMeasuredFrom(InDirection(Run(cfg, items).conns[i].hist[SEQPOINTS], d), ps, ps[j])
       <==> j == 0 || ps[0] == ps[j]
  {
    var c, log := Run(cfg, items).conns[i], Logs(cfg, items)[i];
    var id, points := c.life.ident.id, c.hist[SEQPOINTS];
    RecordedPointsAreTrue(cfg, items, i, d, ps);
    SeriesAreFolds(cfg, items);
    RecordedArePoints(id, log, cfg);
    PointKinds(id, log, d, cfg);
    RelsOfDirection(points, d);
    assert |InDirection(points, d)| == |ps|;
    MeasuredFromExactly(InDirection(points, d), ps, FedAsData(Observations(id, log), d), j);
  }

  // --------------------------------------------------------------------- the witness

  /** An acknowledgement carrying one SACK edge, and then the first data the other way. */
  ghost predicate SackThenData(a: Segment, b: Segment) {
    && a.flags == Flags(false, false, false, true) && a.payloadLen == 0 && |a.sackLefts| == 1
    && b.flags == Flags(false, false, false, true) && b.payloadLen > 0 && b.sackLefts == []
    && b.src == a.dst && b.dst == a.src && a.src != a.dst
  }

  lemma TwoOffsets(l: u32, s: u32)
    ensures Offsets([l, s]) == [0, Offset(Some(Frontier(l, 0)), s).1]
    ensures s != l ==> Offset(Some(Frontier(l, 0)), s).1 != 0
  {
    assert [l, s][..1] == [l] && [l][..0] == [];
    assert Wrap(l) == l && Wrap(s) == s;
    OffsetsStep([], l);
    OffsetsStep([l], s);
    assert [] + [l] == [l] && [l] + [s] == [l, s];
  }

  lemma FedByOne(o: Obs, d: Direction)
    ensures Fed([o], d) == FedBy(o, d) && FedAsData([o], d) == FedAsDataBy(o, d)
  {
    assert [o][..0] == [];
    assert [] + FedBy(o, d) == FedBy(o, d) && [] + FedAsDataBy(o, d) == FedAsDataBy(o, d);
  }

  lemma FedByTwo(o: Obs, o': Obs, d: Direction)
    ensures Fed([o, o'], d) == FedBy(o, d) + FedBy(o', d)
    ensures FedAsData([o, o'], d) == FedAsDataBy(o, d) + FedAsDataBy(o', d)
  {
    assert [o, o'][..1] == [o];
    FedByOne(o, d);
  }

  lemma WitnessFeeds(id: ConnId, a: Segment, b: Segment)
    requires SackThenData(a, b)
    ensures Fed(Observations(id, [a, b]), ResponderToOrigin) == [a.sackLefts[0], b.seqNo]
    ensures FedAsData(Observations(id, [a, b]), ResponderToOrigin) == [false, true]
  {
    var oa, ob := Obs(a, OriginToResponder), Obs(b, ResponderToOrigin);
    assert Observations(id, [a, b]) == [oa, ob];
    FedByTwo(oa, ob, ResponderToOrigin);
    assert FedBy(oa, ResponderToOrigin) == [a.sackLefts[0]] && FedBy(ob, ResponderToOrigin) == [b.seqNo];
  }

  lemma ReplyJoins(s: TState, a: Segment, b: Segment)
    requires SackThenData(a, b) && s.WF() && Indexed(s) && Lives(s.conns) == [Open(ConnId(a.Pair(), 0), a)]
    ensures Joins(s, b) && s.live[b.Pair()] == 0
  {
    CanonicalIdentifiesUnorderedPairs(a.src, a.dst, b.src, b.dst);
    var l := Open(ConnId(a.Pair(), 0), a);
    assert Lives(s.conns)[0] == l;
    assert PairOf(Lives(s.conns)[0]) in s.live && s.live[a.Pair()] == 0;
    assert l.traffic.Baseline(l.ident.DirectionOf(b.src)) == None;
  }

  lemma WitnessJoins(cfg: Config, a: Segment, b: Segment)
    requires SackThenData(a, b)
    ensures Logs(cfg, [Seg(a)] + [Seg(b)]) == [[a, b]]
    ensures var conns := Run(cfg, [Seg(a)] + [Seg(b)]).conns;
            |conns| == 1 && conns[0].life.ident.id == ConnId(a.Pair(), 0)
  {
    var one := [Seg(a)];
    assert (one + [Seg(b)])[..1] == one;
    OneSegmentRun(cfg, a);
    RunIndexed(cfg, one);
    var s := Run(cfg, one).(now := Max(Run(cfg, one).now, b.ts));
    ReplyJoins(s, a, b);
    SegmentLives(s, b);
    JoinedIdentity(Run(cfg, one + [Seg(b)]).conns, Open(ConnId(a.Pair(), 0), a).Join(b));
    assert [a] + [b] == [a, b];
  }

  lemma JoinedIdentity(conns: seq<Conn>, l: Life)
    requires Lives(conns) == [l]
    ensures |conns| == 1 && conns[0].life == l
  {
    assert Lives(conns)[0] == l;
  }

  /** The documented anchor is not the code's: after a SACK edge `l`, the first data of the
      direction, at `s` other than `l`, is recorded away from 0. */
  lemma AnchorCanBeSackEdge(cfg: Config, a: Segment, b: Segment) returns (ceiling: nat)
    requires SackThenData(a, b) && a.sackLefts[0] != b.seqNo && cfg.collectSeq
    ensures var r := Run(cfg.(retention := FailFast(ceiling)), [Seg(a)] + [Seg(b)]);
            && !r.overflowed && |r.conns| == 1
            && var points := InDirection(r.conns[0].hist[SEQPOINTS], ResponderToOrigin);
               && |points| == 2 && !IsDataPoint(points[0]) && points[0].SeqSample? && points[0].rel == 0
               && IsDataPoint(points[1]) && points[1].rel != 0
  {
    var items := [Seg(a)] + [Seg(b)];
    ceiling := EnoughRoom.SomeCeilingSuffices(cfg, items);
    var replay := cfg.(retention := FailFast(ceiling));
    WitnessJoins(replay, a, b);
    SeriesAreFolds(replay, items);
    RecordedArePoints(ConnId(a.Pair(), 0), [a, b], replay);
    WitnessPoints(ConnId(a.Pair(), 0), a, b, replay);
  }

  lemma WitnessPoints(id: ConnId, a: Segment, b: Segment, cfg: Config)
    requires SackThenData(a, b) && a.sackLefts[0] != b.seqNo && cfg.collectSeq
    ensures var points := InDirection(Points(id, [a, b], cfg), ResponderToOrigin);
            && |points| == 2 && !IsDataPoint(points[0]) && points[0].SeqSample? && points[0].rel == 0
            && IsDataPoint(points[1]) && points[1].rel != 0
  {
    var d := ResponderToOrigin;
    DerivedUnwraps(id, [a, b], cfg);
    PointKinds(id, [a, b], d, cfg);
    WitnessFeeds(id, a, b);
    TwoOffsets(a.sackLefts[0], b.seqNo);
    RelsOfDirection(Points(id, [a, b], cfg), d);
  }
}
