/** The order in which tracked connections are reported: by opening time, then pair, then
    instance.  Ids being distinct, the order leaves no choice. */
module Report {
  import opened Core
  import opened Lifecycle
  import opened TrackerSpec
  import opened TrackerIndex
  import Accounting
  import Seek

  /** A connection as reported, with its metric series. */
  datatype Reported = Reported(conn: Life, series: seq<Sample>)

  function AllReported(conns: seq<Conn>): (r: seq<Reported>)
    ensures |r| == |conns|
  {
    seq(|conns|, i requires 0 <= i < |conns| => Reported(conns[i].life, conns[i].hist[SERIES]))
  }

  // ------------------------------------------------------------------------- the key

  predicate EndpointBefore(a: Endpoint, b: Endpoint) { a != b && a.Le(b) }

  predicate PairBefore(p: EndpointPair, q: EndpointPair) {
    EndpointBefore(p.low, q.low) || (p.low == q.low && EndpointBefore(p.high, q.high))
  }

  predicate IdBefore(a: ConnId, b: ConnId) {
    PairBefore(a.pair, b.pair) || (a.pair == b.pair && a.instance < b.instance)
  }

  predicate Before(a: Reported, b: Reported) {
    var i, j := a.conn.ident, b.conn.ident;
    i.openedAt < j.openedAt || (i.openedAt == j.openedAt && IdBefore(i.id, j.id))
  }

  lemma BeforeIsOrder(a: Reported, b: Reported, c: Reported)
    ensures Before(a, b) && Before(b, c) ==> Before(a, c)
    ensures !(Before(a, b) && Before(b, a))
    ensures a.conn.ident.id != b.conn.ident.id ==> Before(a, b) || Before(b, a)
  {}

  // ------------------------------------------------------------------------- sorting

  function Insert(xs: seq<Reported>, x: Reported): (r: seq<Reported>) {
    if |xs| > 0 && Before(x, xs[|xs| - 1]) then Insert(xs[..|xs| - 1], x) + [xs[|xs| - 1]] else xs + [x]
  }

  function ByOpening(xs: seq<Reported>): (r: seq<Reported>) {
    if |xs| == 0 then [] else Insert(ByOpening(xs[..|xs| - 1]), xs[|xs| - 1])
  }

  ghost predicate Ordered(xs: seq<Reported>) {
    forall i, j | 0 <= i < j < |xs| :: Before(xs[i], xs[j])
  }

  ghost predicate Apart(x: Reported, xs: seq<Reported>) {
    forall y | y in xs :: y.conn.ident.id != x.conn.ident.id
  }

  ghost predicate DistinctIds(xs: seq<Reported>) {
    forall i, j | 0 <= i < j < |xs| :: xs[i].conn.ident.id != xs[j].conn.ident.id
  }

  lemma {:induction false} InsertOrders(xs: seq<Reported>, x: Reported)
    requires Ordered(xs) && Apart(x, xs)
    ensures Ordered(Insert(xs, x)) && multiset(Insert(xs, x)) == multiset(xs) + multiset{x}
  {
    if |xs| > 0 {
      var init, last := xs[..|xs| - 1], xs[|xs| - 1];
      WithoutLast(xs);
      assert last in xs;
      if Before(x, last) {
        InsertOrders(init, x);
        LastStaysLast(Insert(init, x), init, x, last);
      } else {
        BeforeIsOrder(last, x, x);
        AppendLater(xs, x);
      }
    }
  }

  lemma AppendLater(xs: seq<Reported>, x: Reported)
    requires Ordered(xs) && |xs| > 0 && Before(xs[|xs| - 1], x)
    ensures Ordered(xs + [x])
  {
    forall i | 0 <= i < |xs|
      ensures Before(xs[i], x)
    {
      BeforeIsOrder(xs[i], xs[|xs| - 1], x);
    }
  }

  lemma LastStaysLast(ys: seq<Reported>, init: seq<Reported>, x: Reported, last: Reported)
    requires Ordered(ys) && multiset(ys) == multiset(init) + multiset{x}
    requires Ordered(init + [last]) && Before(x, last)
    ensures Ordered(ys + [last])
  {
    forall i | 0 <= i < |ys|
      ensures Before(ys[i], last)
    {
      assert ys[i] in multiset(init) + multiset{x};
      if ys[i] != x {
        var k :| 0 <= k < |init| && init[k] == ys[i];
        assert (init + [last])[k] == init[k] && (init + [last])[|init|] == last;
      }
    }
  }

  lemma {:induction false} SortingOrders(xs: seq<Reported>)
    requires DistinctIds(xs)
    ensures Ordered(ByOpening(xs)) && multiset(ByOpening(xs)) == multiset(xs)
  {
    if |xs| > 0 {
      var init, last := xs[..|xs| - 1], xs[|xs| - 1];
      assert xs == init + [last];
      SortingOrders(init);
      forall y | y in ByOpening(init)
        ensures y.conn.ident.id != last.conn.ident.id
      {
        assert y in multiset(init);
        var k :| 0 <= k < |init| && init[k] == y;
        assert xs[k] == y && xs[|xs| - 1] == last;
      }
      InsertOrders(ByOpening(init), last);
    }
  }

  /** Of the same elements there is one ordered sequence. */
  lemma {:induction false} OrderedIsUnique(xs: seq<Reported>, ys: seq<Reported>)
    requires Ordered(xs) && Ordered(ys) && multiset(xs) == multiset(ys)
    ensures xs == ys
  {
    LastsAgree(xs, ys);
    if |xs| > 0 {
      var n := |xs| - 1;
      WithoutLast(xs);
      WithoutLast(ys);
      OrderedIsUnique(xs[..n], ys[..n]);
    }
  }

  lemma LastsAgree(xs: seq<Reported>, ys: seq<Reported>)
    requires Ordered(xs) && Ordered(ys) && multiset(xs) == multiset(ys)
    ensures |xs| == |ys| && (|xs| > 0 ==> xs[|xs| - 1] == ys[|ys| - 1])
  {
    assert |xs| == |multiset(xs)| == |ys|;
    if |xs| > 0 {
      LastIn(xs, ys);
      LastIn(ys, xs);
      BeforeIsOrder(xs[|xs| - 1], ys[|ys| - 1], ys[|ys| - 1]);
    }
  }

  lemma WithoutLast(xs: seq<Reported>)
    requires |xs| > 0
    ensures multiset(xs[..|xs| - 1]) == multiset(xs) - multiset{xs[|xs| - 1]}
    ensures xs == xs[..|xs| - 1] + [xs[|xs| - 1]]
  {
    assert xs == xs[..|xs| - 1] + [xs[|xs| - 1]];
  }

  lemma LastIn(xs: seq<Reported>, ys: seq<Reported>)
    requires Ordered(ys) && multiset(xs) == multiset(ys) && |xs| == |ys| > 0
    ensures xs[|xs| - 1] == ys[|ys| - 1] || Before(xs[|xs| - 1], ys[|ys| - 1])
  {
    assert xs[|xs| - 1] in multiset(ys);
  }

  /** The report of any reachable tracker is its connections by opening time, pair and instance,
      and no other sequence of them is in that order. */
  lemma ReportIsDetermined(cfg: Config, items: seq<Item>)
    ensures var all := AllReported(Run(cfg, items).conns);
            && Ordered(ByOpening(all)) && multiset(ByOpening(all)) == multiset(all)
            && forall xs | Ordered(xs) && multiset(xs) == multiset(all) :: xs == ByOpening(all)
  {
    var all := AllReported(Run(cfg, items).conns);
    forall i, j | 0 <= i < j < |all|
      ensures all[i].conn.ident.id != all[j].conn.ident.id
    {
      IdsAreDistinct(cfg, items, i, j);
    }
    SortingOrders(all);
    forall xs | Ordered(xs) && multiset(xs) == multiset(all)
      ensures xs == ByOpening(all)
    {
      OrderedIsUnique(xs, ByOpening(all));
    }
  }

  /** The views alone. */
  function Views(xs: seq<Reported>): (r: seq<Life>)
    ensures |r| == |xs|
  {
    seq(|xs|, i requires 0 <= i < |xs| => xs[i].conn)
  }

  datatype Metrics = Metrics(reports: seq<Reported>) | MetricCeiling(samples: nat, limit: nat)

  /** The metric series of every connection, unless collection failed. */
  function IntoMetrics(s: TState): Metrics {
    if s.overflowed then MetricCeiling(s.collected + 1, s.cfg.retention.MaxSamples())
    else Metrics(ByOpening(AllReported(s.conns)))
  }

  // ------------------------------------------------------------------ read off plainly

  /** The first number of the two keys that differs is smaller in the first key. */
  ghost predicate Lower(a: seq<nat>, b: seq<nat>) {
    exists n :: 0 <= n < |a| && n < |b| && a[..n] == b[..n] && a[n] < b[n]
  }

  /** What a report is ordered by, the most significant number first. */
  function Key(l: Life): seq<nat> {
    var p := l.ident.id.pair;
    [l.ident.openedAt, p.low.ip, p.low.port, p.high.ip, p.high.port, l.ident.id.instance]
  }

  lemma BeforeIsLower(a: Reported, b: Reported)
    requires Before(a, b)
    ensures Lower(Key(a.conn), Key(b.conn))
  {
    var i, j, p, q := a.conn.ident, b.conn.ident, a.conn.ident.id.pair, b.conn.ident.id.pair;
    var n := if i.openedAt != j.openedAt then 0
             else if p.low.ip != q.low.ip then 1
             else if p.low.port != q.low.port then 2
             else if p.high.ip != q.high.ip then 3
             else if p.high.port != q.high.port then 4
             else 5;
    var k, m := Key(a.conn), Key(b.conn);
    assert k[..n] == m[..n] && k[n] < m[n];
  }

  /** `xs` lists each connection once, with its metric samples, by rising key. */
  ghost predicate Reports(xs: seq<Reported>, conns: seq<Conn>) {
    && |xs| == |conns|
    && (forall i | 0 <= i < |conns| :: Reported(conns[i].life, conns[i].hist[SERIES]) in xs)
    && (forall i, j | 0 <= i < j < |xs| :: Lower(Key(xs[i].conn), Key(xs[j].conn)))
  }

  lemma OrderedReports(conns: seq<Conn>, xs: seq<Reported>)
    requires Ordered(xs) && multiset(xs) == multiset(AllReported(conns))
    ensures Reports(xs, conns)
  {
    var all := AllReported(conns);
    assert |xs| == |multiset(xs)| == |all|;
    forall i | 0 <= i < |conns|
      ensures Reported(conns[i].life, conns[i].hist[SERIES]) in xs
    {
      assert all[i] in multiset(xs);
    }
    forall i, j | 0 <= i < j < |xs|
      ensures Lower(Key(xs[i].conn), Key(xs[j].conn))
    {
      BeforeIsLower(xs[i], xs[j]);
    }
  }

  /** Every run reports all its connections, each once, by opening time, then the lower endpoint,
      then the higher, then the instance. */
  lemma ReportPlainly(cfg: Config, items: seq<Item>)
    ensures Reports(ByOpening(AllReported(Run(cfg, items).conns)), Run(cfg, items).conns)
  {
    ReportIsDetermined(cfg, items);
    OrderedReports(Run(cfg, items).conns, ByOpening(AllReported(Run(cfg, items).conns)));
  }

  /** Neither result is withheld but by a ceiling, and then both name it, and as the number of
      samples the one that did not fit. */
  lemma WithheldExactly(cfg: Config, items: seq<Item>)
    ensures var s, c := Run(cfg, items), cfg.retention.ceiling;
            if s.overflowed
            then IntoMetrics(s) == MetricCeiling(c + 1, c) && Seek.IntoTimeline(s) == Seek.SampleCeiling(c + 1, c)
            else IntoMetrics(s).Metrics? && Seek.IntoTimeline(s).Ready?
  {
    Accounting.CounterIsExactAndBounded(cfg, items);
    Accounting.RunKeepsConfig(cfg, items);
  }
}
