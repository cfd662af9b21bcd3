/** The trailing throughput window: the queue that forgets expired chunks reads the same
    rates as the whole history of the direction. */
module Window {
  import opened Core
  import opened MetricSpec
  import opened Arithmetic

  /** Every data chunk direction `x` has ever sent, with the verdict it was given. */
  ghost function History(x: Direction, obs: seq<Obs>, cfg: Config): seq<Chunk> {
    if |obs| == 0 then [] else
      var pre, o := obs[..|obs| - 1], obs[|obs| - 1];
      var h := History(x, pre, cfg);
      if o.dir == x && o.seg.IsData() then
        var verdict := Classify(DirRun(x, pre, cfg), o.seg, cfg.reorderWindow);
        h + [Chunk(o.seg.ts, o.seg.payloadLen, verdict == Retransmitted)]
      else h
  }

  ghost predicate IsMaxTs(maxTs: Option<u64>, h: seq<Chunk>) {
    if maxTs.None? then h == []
    else
      && (forall i | 0 <= i < |h| :: h[i].ts <= maxTs.value)
      && (exists i | 0 <= i < |h| :: h[i].ts == maxTs.value)
  }

  /** `kept` is `h` without a prefix of chunks that had all expired by `maxTs`. */
  ghost predicate ForgetsOnlyExpired(kept: seq<Chunk>, h: seq<Chunk>, window: u64, maxTs: Option<u64>) {
    && |kept| <= |h|
    && kept == h[|h| - |kept|..]
    && forall i | 0 <= i < |h| - |kept| :: maxTs.Some? && window != 0 && h[i].ts + window <= maxTs.value
  }

  lemma {:induction false} DropExpiredForgets(kept: seq<Chunk>, h: seq<Chunk>, window: u64, maxTs: Option<u64>)
    requires ForgetsOnlyExpired(kept, h, window, maxTs)
    ensures ForgetsOnlyExpired(DropExpired(kept, window, maxTs), h, window, maxTs)
    decreases |kept|
  {
    if window != 0 && maxTs.Some? && |kept| > 0 && kept[0].ts + window <= maxTs.value {
      assert h[|h| - |kept|] == kept[0];
      DropExpiredForgets(kept[1..], h, window, maxTs);
    }
  }

  /** A later maximum and one more chunk keep the relation. */
  lemma ForgettingGrows(kept: seq<Chunk>, h: seq<Chunk>, c: Chunk, window: u64, before: Option<u64>, after: Option<u64>)
    requires ForgetsOnlyExpired(kept, h, window, before)
    requires before.Some? ==> after.Some? && before.value <= after.value
    ensures ForgetsOnlyExpired(kept + [c], h + [c], window, after)
  {
    var cut := |h| - |kept|;
    var h', kept' := h + [c], kept + [c];
    assert |h'| - |kept'| == cut && kept' == h'[cut..];
    forall i | 0 <= i < cut
      ensures after.Some? && window != 0 && h'[i].ts + window <= after.value
    {
      assert h'[i] == h[i];
    }
  }

  lemma MaximumGrows(maxTs: Option<u64>, h: seq<Chunk>, c: Chunk)
    requires IsMaxTs(maxTs, h)
    ensures IsMaxTs(MaxTs(maxTs, c.ts), h + [c])
  {
    var h' := h + [c];
    if maxTs.Some? && maxTs.value > c.ts {
      var i :| 0 <= i < |h| && h[i].ts == maxTs.value;
      assert h'[i].ts == maxTs.value;
    } else {
      assert h'[|h|].ts == c.ts;
    }
  }

  ghost predicate Windowed(s: DirState, h: seq<Chunk>, window: u64) {
    IsMaxTs(s.tputMaxTs, h) && ForgetsOnlyExpired(s.tput, h, window, s.tputMaxTs)
  }

  lemma SentWindowed(s: DirState, h: seq<Chunk>, seg: Segment, retransmit: bool, window: u64)
    requires Windowed(s, h, window)
    ensures Windowed(PushChunk(s, seg, retransmit, window),
                     if seg.IsData() then h + [Chunk(seg.ts, seg.payloadLen, retransmit)] else h, window)
  {
    if seg.IsData() {
      var c := Chunk(seg.ts, seg.payloadLen, retransmit);
      var maxTs := MaxTs(s.tputMaxTs, seg.ts);
      MaximumGrows(s.tputMaxTs, h, c);
      ForgettingGrows(s.tput, h, c, window, s.tputMaxTs, maxTs);
      DropExpiredForgets(s.tput + [c], h + [c], window, maxTs);
    } else {
      DropExpiredForgets(s.tput, h, window, s.tputMaxTs);
    }
  }

  lemma {:induction false} WindowInvariant(x: Direction, obs: seq<Obs>, cfg: Config)
    ensures Windowed(DirRun(x, obs, cfg), History(x, obs, cfg), cfg.throughputWindow)
  {
    if |obs| > 0 {
      var pre, o := obs[..|obs| - 1], obs[|obs| - 1];
      WindowInvariant(x, pre, cfg);
      var s, h := DirRun(x, pre, cfg), History(x, pre, cfg);
      if o.dir == x {
        var retransmit := Classify(s, o.seg, cfg.reorderWindow) == Retransmitted;
        SentWindowed(Sequenced(s, o.seg, retransmit), h, o.seg, retransmit, cfg.throughputWindow);
      }
    }
  }

  // ------------------------------------------------------------------ byte sums

  lemma {:induction false} BytesConcat(a: seq<Chunk>, b: seq<Chunk>, t: u64, w: u64, good: bool)
    ensures Bytes(a + b, t, w, good) == Bytes(a, t, w, good) + Bytes(b, t, w, good)
  {
    if |b| == 0 {
      assert a + b == a;
    } else {
      assert (a + b)[..|a + b| - 1] == a + b[..|b| - 1];
      BytesConcat(a, b[..|b| - 1], t, w, good);
    }
  }

  lemma {:induction false} ExpiredWeighNothing(a: seq<Chunk>, t: u64, w: u64, good: bool)
    requires forall i | 0 <= i < |a| :: a[i].ts + w <= t
    ensures Bytes(a, t, w, good) == 0
  {
    if |a| > 0 {
      ExpiredWeighNothing(a[..|a| - 1], t, w, good);
    }
  }

  /** The naive rates: scaled sums over the whole history. */
  ghost function NaiveRates(h: seq<Chunk>, t: u64, window: u64): Option<Rates> {
    if h == [] then None
    else if window == 0 then Some(Rates(0, 0))
    else Some(Rates(ScaleBps(Bytes(h, t, window, false), window),
                    ScaleBps(Bytes(h, t, window, true), window)))
  }

  /** When a query at `t` can be trusted: from the newest data timestamp `m` on, or when no
      window has passed yet at `m`, or when the window is empty. */
  predicate Answerable(t: u64, m: u64, w: u64) { m <= t || m < w || w == 0 }

  lemma WindowedBytes(s: DirState, h: seq<Chunk>, t: u64, w: u64, good: bool)
    requires Windowed(s, h, w) && s.tputMaxTs.Some? && Answerable(t, s.tputMaxTs.value, w)
    ensures Bytes(h, t, w, good) == Bytes(s.tput, t, w, good)
  {
    var cut := |h| - |s.tput|;
    assert h == h[..cut] + s.tput;
    forall i | 0 <= i < cut
      ensures h[..cut][i].ts + w <= t
    {
      assert h[..cut][i] == h[i];
    }
    BytesConcat(h[..cut], s.tput, t, w, good);
    ExpiredWeighNothing(h[..cut], t, w, good);
  }

  lemma WindowedRates(s: DirState, h: seq<Chunk>, t: u64, w: u64)
    requires Windowed(s, h, w) && (s.tputMaxTs.Some? ==> Answerable(t, s.tputMaxTs.value, w))
    ensures ThroughputAt(s, t, w) == NaiveRates(h, t, w)
  {
    if s.tputMaxTs.Some? {
      WindowedBytes(s, h, t, w, false);
      WindowedBytes(s, h, t, w, true);
    }
  }

  /** At any time from the newest data timestamp on, and while no window has passed, the
      bounded queue answers exactly as the full history does, even when capture timestamps
      were reordered. */
  lemma WindowIsExact(x: Direction, obs: seq<Obs>, t: u64, cfg: Config)
    requires var maxTs := DirRun(x, obs, cfg).tputMaxTs;
             maxTs.Some? ==> Answerable(t, maxTs.value, cfg.throughputWindow)
    ensures ThroughputAt(DirRun(x, obs, cfg), t, cfg.throughputWindow) ==
            NaiveRates(History(x, obs, cfg), t, cfg.throughputWindow)
  {
    WindowInvariant(x, obs, cfg);
    WindowedRates(DirRun(x, obs, cfg), History(x, obs, cfg), t, cfg.throughputWindow);
  }

  // ----------------------------------------------------- queries that cannot be trusted

  function DataAt(ts: u64, len: u32): Segment {
    Segment(ts, Endpoint(0, 0), Endpoint(0, 1), 0, 0, Flags(false, false, false, false), [], len)
  }

  /** Data at `c`, then one byte at `m`, a window or more later: only the byte is kept. */
  lemma TwoSends(x: Direction, c: u64, len: u32, m: u64, cfg: Config)
    requires len > 0 && cfg.throughputWindow > 0 && c + cfg.throughputWindow <= m
    ensures var obs := [Obs(DataAt(c, len), x), Obs(DataAt(m, 1), x)];
            var s, h := DirRun(x, obs, cfg), History(x, obs, cfg);
            && s.tputMaxTs == Some(m) && |s.tput| == 1 && s.tput[0].ts == m
            && h == [Chunk(c, len, false)] + s.tput
  {
    var w := cfg.throughputWindow;
    var oa, obs := Obs(DataAt(c, len), x), [Obs(DataAt(c, len), x), Obs(DataAt(m, 1), x)];
    assert obs[..1] == [oa] && [oa][..0] == [];
    assert DirRun(x, [], cfg) == FRESH && History(x, [], cfg) == [];
    var s1 := DirRun(x, [oa], cfg);
    assert s1 == Sent(FRESH, oa.seg, cfg);
    var ca := Chunk(c, len, false);
    assert s1.tput == [ca] && s1.tputMaxTs == Some(c) && History(x, [oa], cfg) == [ca];
    var cb := Chunk(m, 1, Classify(s1, obs[1].seg, cfg.reorderWindow) == Retransmitted);
    assert DirRun(x, obs, cfg) == Sent(s1, obs[1].seg, cfg);
    assert ([ca] + [cb])[1..] == [cb];
    assert DropExpired([ca] + [cb], w, Some(m)) == DropExpired([cb], w, Some(m)) == [cb];
  }

  lemma BytesOfOne(c: Chunk, t: u64, w: u64)
    ensures Bytes([c], t, w, false) == if InWindow(c, t, w) then c.len else 0
  {
    assert [c][..0] == [] && Bytes([], t, w, false) == 0;
  }

  lemma LargeChunksAreSeen(w: u64)
    requires w > 0
    ensures ScaleBps(TWO_32 - 1, w) > 0 && ScaleBps(0, w) == 0
  {
    var bits := 8 * (TWO_32 - 1) * NANOS_PER_SEC;
    QuotientLe(1, bits, w);
  }

  /** Any other query is wrong on some run: a large chunk is expelled that the query's window
      still counts. */
  lemma OtherQueriesMissBytes(x: Direction, t: u64, m: u64, cfg: Config) returns (obs: seq<Obs>)
    requires !Answerable(t, m, cfg.throughputWindow)
    ensures DirRun(x, obs, cfg).tputMaxTs == Some(m)
    ensures ThroughputAt(DirRun(x, obs, cfg), t, cfg.throughputWindow) !=
            NaiveRates(History(x, obs, cfg), t, cfg.throughputWindow)
  {
    var w := cfg.throughputWindow;
    var c: u64 := if t <= m - w then t else m - w;
    obs := [Obs(DataAt(c, TWO_32 - 1), x), Obs(DataAt(m, 1), x)];
    TwoSends(x, c, TWO_32 - 1, m, cfg);
    var s := DirRun(x, obs, cfg);
    assert s.tput == [s.tput[0]];
    BytesOfOne(Chunk(c, TWO_32 - 1, false), t, w);
    BytesOfOne(s.tput[0], t, w);
    BytesConcat([Chunk(c, TWO_32 - 1, false)], s.tput, t, w, false);
    LargeChunksAreSeen(w);
  }

  /** Exactly when a query can be trusted, by nothing but its time, the newest data timestamp
      and the window: it then agrees with the full history on every run, and otherwise there
      is a run on which it does not. */
  lemma WindowIsExactExactly(x: Direction, t: u64, m: u64, cfg: Config)
    ensures Answerable(t, m, cfg.throughputWindow) <==>
            forall obs: seq<Obs> | DirRun(x, obs, cfg).tputMaxTs == Some(m) ::
              ThroughputAt(DirRun(x, obs, cfg), t, cfg.throughputWindow) ==
              NaiveRates(History(x, obs, cfg), t, cfg.throughputWindow)
  {
    if Answerable(t, m, cfg.throughputWindow) {
      forall obs: seq<Obs> | DirRun(x, obs, cfg).tputMaxTs == Some(m)
        ensures ThroughputAt(DirRun(x, obs, cfg), t, cfg.throughputWindow) ==
                NaiveRates(History(x, obs, cfg), t, cfg.throughputWindow)
      {
        WindowIsExact(x, obs, t, cfg);
      }
    } else {
      var obs := OtherQueriesMissBytes(x, t, m, cfg);
    }
  }

  // ---------------------------------------------------------- shape of the rates

  /** Bytes of retransmitted chunks in the window. */
  ghost function Resent(chunks: seq<Chunk>, t: u64, window: u64): nat {
    if |chunks| == 0 then 0 else
      var c := chunks[|chunks| - 1];
      Resent(chunks[..|chunks| - 1], t, window) + if InWindow(c, t, window) && c.retransmit then c.len else 0
  }

  lemma {:induction false} BytesSplitByVerdict(chunks: seq<Chunk>, t: u64, w: u64)
    ensures Bytes(chunks, t, w, false) == Bytes(chunks, t, w, true) + Resent(chunks, t, w)
  {
    if |chunks| > 0 {
      BytesSplitByVerdict(chunks[..|chunks| - 1], t, w);
    }
  }

  lemma {:induction false} BytesAge(chunks: seq<Chunk>, t: u64, t': u64, w: u64, good: bool)
    requires t <= t' && forall i | 0 <= i < |chunks| :: chunks[i].ts <= t
    ensures Bytes(chunks, t', w, good) <= Bytes(chunks, t, w, good)
  {
    if |chunks| > 0 {
      BytesAge(chunks[..|chunks| - 1], t, t', w, good);
    }
  }

  lemma ScaleMono(a: nat, b: nat, w: u64)
    requires a <= b && w > 0
    ensures ScaleBps(a, w) <= ScaleBps(b, w)
  {
    ProductGrows(a, b, 8);
    var a8, b8 := SatMul128(a, 8), SatMul128(b, 8);
    assert a8 <= b8;
    ProductGrows(a8, b8, NANOS_PER_SEC);
    QuotientGrows(SatMul128(a8, NANOS_PER_SEC), SatMul128(b8, NANOS_PER_SEC), w);
  }

  lemma RateAges(chunks: seq<Chunk>, t: u64, t': u64, w: u64, good: bool)
    requires w > 0 && t <= t' && forall i | 0 <= i < |chunks| :: chunks[i].ts <= t
    ensures ScaleBps(Bytes(chunks, t', w, good), w) <= ScaleBps(Bytes(chunks, t, w, good), w)
  {
    BytesAge(chunks, t, t', w, good);
    ScaleMono(Bytes(chunks, t', w, good), Bytes(chunks, t, w, good), w);
  }

  lemma GoodputAtMostThroughput(s: DirState, t: u64, w: u64)
    ensures var r := ThroughputAt(s, t, w); r.Some? ==> r.value.good <= r.value.total
  {
    if s.tputMaxTs.Some? && w > 0 {
      BytesSplitByVerdict(s.tput, t, w);
      ScaleMono(Bytes(s.tput, t, w, true), Bytes(s.tput, t, w, false), w);
    }
  }

  predicate NoneNewer(s: DirState) {
    forall i | 0 <= i < |s.tput| :: s.tputMaxTs.Some? && s.tput[i].ts <= s.tputMaxTs.value
  }

  lemma WindowedNoneNewer(s: DirState, h: seq<Chunk>, window: u64)
    requires Windowed(s, h, window)
    ensures NoneNewer(s)
  {
    var cut := |h| - |s.tput|;
    forall i | 0 <= i < |s.tput|
      ensures s.tputMaxTs.Some? && s.tput[i].ts <= s.tputMaxTs.value
    {
      assert s.tput[i] == h[cut + i];
    }
  }

  lemma KeptAreNoNewer(x: Direction, obs: seq<Obs>, cfg: Config)
    ensures NoneNewer(DirRun(x, obs, cfg))
  {
    WindowInvariant(x, obs, cfg);
    WindowedNoneNewer(DirRun(x, obs, cfg), History(x, obs, cfg), cfg.throughputWindow);
  }

  lemma ScaleZero(w: u64)
    requires w > 0
    ensures ScaleBps(0, w) == 0
  {
    assert SatMul128(SatMul128(0, 8), NANOS_PER_SEC) == 0;
    assert 0 / w == 0;
  }

  /** From the newest data on, silence only lowers both rates. */
  lemma RatesFall(s: DirState, t: u64, t': u64, w: u64)
    requires NoneNewer(s) && s.tputMaxTs.Some? && s.tputMaxTs.value <= t <= t'
    ensures var r, r' := ThroughputAt(s, t, w).value, ThroughputAt(s, t', w).value;
            r'.total <= r.total && r'.good <= r.good
  {
    if w > 0 {
      RateAges(s.tput, t, t', w, true);
      RateAges(s.tput, t, t', w, false);
    }
  }

  /** One window after the newest data both rates are zero. */
  lemma RatesReachZero(s: DirState, t: u64, w: u64)
    requires NoneNewer(s) && s.tputMaxTs.Some? && t >= s.tputMaxTs.value + w
    ensures ThroughputAt(s, t, w) == Some(Rates(0, 0))
  {
    if w > 0 {
      ExpiredWeighNothing(s.tput, t, w, true);
      ExpiredWeighNothing(s.tput, t, w, false);
      ScaleZero(w);
    }
  }

  predicate Unsaturated(bytes: nat, w: u64)
    requires w > 0
  {
    bytes * BITS <= U128_MAX && bytes * BITS / w <= U64_MAX
  }

  const BITS: int := 8 * NANOS_PER_SEC

  lemma ScaleUnsaturated(bytes: nat, w: u64)
    requires w > 0 && Unsaturated(bytes, w)
    ensures ScaleBps(bytes, w) == bytes * BITS / w
  {
  }

  lemma UnsaturatedBelow(bytes: nat, total: nat, w: u64)
    requires w > 0 && bytes <= total && Unsaturated(total, w)
    ensures Unsaturated(bytes, w)
  {
    QuotientGrows(bytes * BITS, total * BITS, w);
  }

  /** Absent saturation, the gap between throughput and goodput is the rate of the
      retransmitted bytes, to within one bit per second of rounding. */
  lemma GapIsRetransmittedRate(s: DirState, t: u64, w: u64)
    requires s.tputMaxTs.Some? && w > 0 && Unsaturated(Bytes(s.tput, t, w, false), w)
    ensures var r := ThroughputAt(s, t, w).value;
            var resent := ScaleBps(Resent(s.tput, t, w), w);
            r.good + resent <= r.total <= r.good + resent + 1
  {
    BytesSplitByVerdict(s.tput, t, w);
    GapOfScales(Bytes(s.tput, t, w, true), Resent(s.tput, t, w), w);
  }

  lemma GapOfScales(good: nat, resent: nat, w: u64)
    requires w > 0 && Unsaturated(good + resent, w)
    ensures ScaleBps(good, w) + ScaleBps(resent, w) <= ScaleBps(good + resent, w)
            <= ScaleBps(good, w) + ScaleBps(resent, w) + 1
  {
    UnsaturatedBelow(good, good + resent, w);
    UnsaturatedBelow(resent, good + resent, w);
    ScaleUnsaturated(good, w);
    ScaleUnsaturated(resent, w);
    ScaleUnsaturated(good + resent, w);
    assert (good + resent) * BITS == good * BITS + resent * BITS;
    QuotientSum(good * BITS, resent * BITS, w);
  }
}
