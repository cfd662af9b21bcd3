/** RFC 1982 serial arithmetic on 32-bit sequence numbers, and its meaning on the
    unbounded stream positions those numbers abbreviate. */
module Serial {
  import opened Core

  const HALF: int := 0x8000_0000

  function WrappingSub(a: u32, b: u32): u32 { (a - b) % TWO_32 }
  function WrappingAdd(a: u32, n: nat): u32 { (a + n) % TWO_32 }

  predicate SerialLt(a: u32, b: u32) {
    var forward := WrappingSub(b, a);
    forward != 0 && forward < HALF
  }

  predicate SerialGt(a: u32, b: u32) { SerialLt(b, a) }

  predicate SerialLe(a: u32, b: u32) { a == b || SerialLt(a, b) }

  function SerialDiff(a: u32, earlier: u32): u32 { WrappingSub(a, earlier) }

  /** Keep the more-forward of an optional current value and a candidate. */
  function SerialMax(current: Option<u32>, candidate: u32): u32 {
    if current.Some? && SerialGt(current.value, candidate) then current.value else candidate
  }

  // ------------------------------------------------------- stream positions

  /** The 32-bit number that stands for stream position `p`. */
  function Wrap(p: int): u32 { p % TWO_32 }

  function WrapOpt(p: Option<int>): Option<u32> {
    if p.Some? then Some(Wrap(p.value)) else None
  }

  predicate Near(p: int, q: int) { -HALF < p - q < HALF }

  lemma WrapDifference(p: int, q: int)
    ensures WrappingSub(Wrap(q), Wrap(p)) == (q - p) % TWO_32
  {
    var k := p / TWO_32;
    var l := q / TWO_32;
    assert p == k * TWO_32 + Wrap(p);
    assert q == l * TWO_32 + Wrap(q);
    assert q - p == (l - k) * TWO_32 + (Wrap(q) - Wrap(p));
  }

  lemma WrapAdd(p: int, n: nat)
    ensures WrappingAdd(Wrap(p), n) == Wrap(p + n)
  {
  }

  /** Serial order is position order, and serial distance is distance, for positions
      less than half the number space apart, wherever the wraps fall. */
  lemma SerialIsPositional(p: int, q: int)
    requires Near(p, q)
    ensures SerialLt(Wrap(p), Wrap(q)) <==> p < q
    ensures SerialGt(Wrap(p), Wrap(q)) <==> p > q
    ensures SerialLe(Wrap(p), Wrap(q)) <==> p <= q
    ensures p <= q ==> SerialDiff(Wrap(q), Wrap(p)) == q - p
  {
    WrapDifference(p, q);
    WrapDifference(q, p);
  }

  /** The exact reach of serial order: whatever the distance, the comparison reports the
      residue of the distance, so it is right exactly when that residue is the distance;
      at half the space neither direction holds. */
  lemma SerialOrderExactly(p: int, q: int)
    ensures SerialLt(Wrap(p), Wrap(q)) <==> 0 < (q - p) % TWO_32 < HALF
    ensures (q - p) % TWO_32 == HALF <==>
            Wrap(p) != Wrap(q) && !SerialLt(Wrap(p), Wrap(q)) && !SerialLt(Wrap(q), Wrap(p))
  {
    WrapDifference(p, q);
    WrapDifference(q, p);
  }

  lemma SerialMaxIsMax(current: Option<int>, p: int)
    requires current.Some? ==> Near(current.value, p)
    ensures SerialMax(WrapOpt(current), Wrap(p)) ==
            Wrap(if current.Some? then Max(current.value, p) else p)
  {
    if current.Some? {
      SerialIsPositional(current.value, p);
    }
  }
}
