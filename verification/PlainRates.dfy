/** The rates in plain arithmetic: bits per second over the payload of the trailing window. */
module PlainRates {
  import opened Core
  import opened MetricSpec
  import opened Window
  import opened Arithmetic

  /** `bytes` over `w` nanoseconds, in bits per second; products saturate at 128 bits and the
      quotient at 64. */
  function BitsPerSecond(bytes: nat, w: u64): nat
    requires w > 0
  {
    var nanobits := bytes * 8_000_000_000;
    var rate := (if nanobits < 0x1_0000_0000_0000_0000_0000_0000_0000_0000 then nanobits
                 else 0xFFFF_FFFF_FFFF_FFFF_FFFF_FFFF_FFFF_FFFF) / w;
    if rate < 0x1_0000_0000_0000_0000 then rate else 0xFFFF_FFFF_FFFF_FFFF
  }

  lemma ScalePlainly(bytes: nat, w: u64)
    requires w > 0
    ensures ScaleBps(bytes, w) == BitsPerSecond(bytes, w)
  {
    var nanobits := SatMul128(SatMul128(bytes, 8), NANOS_PER_SEC);
    assert nanobits == if bytes * 8_000_000_000 > U128_MAX then U128_MAX else bytes * 8_000_000_000;
  }

  lemma QuotientIsLess(a: nat, w: nat)
    requires w > 0
    ensures 0 <= a / w <= a
  {
    QuotientExactly(a, w, a / w);
    ProductGrows(1, w, a / w);
  }

  /** Short of saturation, eight thousand million times the bytes over the nanoseconds. */
  lemma UnsaturatedRate(bytes: nat, w: u64)
    requires w > 0 && bytes * 8_000_000_000 < 0x1_0000_0000_0000_0000
    ensures ScaleBps(bytes, w) == bytes * 8_000_000_000 / w
  {
    ScalePlainly(bytes, w);
    QuotientIsLess(bytes * 8_000_000_000, w);
  }

  /** Payload direction `x` sent after `t - w` and not after `t`; with `goodOnly`, less what was
      judged a retransmission. */
  ghost function Payload(x: Direction, obs: seq<Obs>, t: u64, w: u64, goodOnly: bool, cfg: Config): nat {
    if |obs| == 0 then 0
    else
      var pre, o := obs[..|obs| - 1], obs[|obs| - 1];
      var again := Classify(DirRun(x, pre, cfg), o.seg, cfg.reorderWindow) == Retransmitted;
      Payload(x, pre, t, w, goodOnly, cfg) +
      if o.dir == x && t - w < o.seg.ts <= t && !(goodOnly && again) then o.seg.payloadLen else 0
  }

  lemma BytesStep(h: seq<Chunk>, c: Chunk, t: u64, w: u64, good: bool)
    ensures Bytes(h + [c], t, w, good) ==
            Bytes(h, t, w, good) + if t - w < c.ts <= t && !(good && c.retransmit) then c.len else 0
  {
    assert (h + [c])[..|h|] == h;
  }

  lemma {:induction false} HistoryWeighs(x: Direction, obs: seq<Obs>, t: u64, w: u64, good: bool, cfg: Config)
    ensures Bytes(History(x, obs, cfg), t, w, good) == Payload(x, obs, t, w, good, cfg)
  {
    if |obs| > 0 {
      var pre, o := obs[..|obs| - 1], obs[|obs| - 1];
      HistoryWeighs(x, pre, t, w, good, cfg);
      var again := Classify(DirRun(x, pre, cfg), o.seg, cfg.reorderWindow) == Retransmitted;
      BytesStep(History(x, pre, cfg), Chunk(o.seg.ts, o.seg.payloadLen, again), t, w, good);
    }
  }

  lemma {:induction false} HistoryIsData(x: Direction, obs: seq<Obs>, cfg: Config)
    ensures History(x, obs, cfg) == [] <==> forall i | 0 <= i < |obs| && obs[i].dir == x :: obs[i].seg.payloadLen == 0
  {
    if |obs| > 0 {
      var n := |obs| - 1;
      HistoryIsData(x, obs[..n], cfg);
      assert forall i | 0 <= i < n :: obs[..n][i] == obs[i];
    }
  }

  /** A direction has rates once it has sent data; they are the bits per second of its payload in
      the trailing window, and of that less what was retransmitted. */
  ghost function PlainlyAt(x: Direction, obs: seq<Obs>, t: u64, cfg: Config): Option<(nat, nat)> {
    var w := cfg.throughputWindow;
    if forall i | 0 <= i < |obs| && obs[i].dir == x :: obs[i].seg.payloadLen == 0 then None
    else if w == 0 then Some((0, 0))
    else Some((BitsPerSecond(Payload(x, obs, t, w, false, cfg), w), BitsPerSecond(Payload(x, obs, t, w, true, cfg), w)))
  }

  ghost predicate SameRates(r: Option<Rates>, plain: Option<(nat, nat)>) {
    r.Some? == plain.Some? && (r.Some? ==> r.value.total == plain.value.0 && r.value.good == plain.value.1)
  }

  lemma NaivePlainly(x: Direction, obs: seq<Obs>, t: u64, cfg: Config)
    ensures SameRates(NaiveRates(History(x, obs, cfg), t, cfg.throughputWindow), PlainlyAt(x, obs, t, cfg))
  {
    var w := cfg.throughputWindow;
    HistoryWeighs(x, obs, t, w, false, cfg);
    HistoryWeighs(x, obs, t, w, true, cfg);
    HistoryIsData(x, obs, cfg);
    if w > 0 {
      ScalePlainly(Bytes(History(x, obs, cfg), t, w, false), w);
      ScalePlainly(Bytes(History(x, obs, cfg), t, w, true), w);
    }
  }

  /** Whenever the window can be trusted, the engine's reading is that. */
  lemma RatesPlainly(x: Direction, obs: seq<Obs>, t: u64, cfg: Config)
    requires var maxTs := DirRun(x, obs, cfg).tputMaxTs;
             maxTs.Some? ==> Answerable(t, maxTs.value, cfg.throughputWindow)
    ensures SameRates(ThroughputAt(DirRun(x, obs, cfg), t, cfg.throughputWindow), PlainlyAt(x, obs, t, cfg))
  {
    WindowIsExact(x, obs, t, cfg);
    NaivePlainly(x, obs, t, cfg);
  }
}
